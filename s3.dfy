/**
 * `S3Service`: where an uploaded recording is stored (the object key), how it is
 * addressed (public and presigned URLs), and the checks made before the storage client
 * is called.
 */
module S3 {
  import opened Wrappers
  import opened Text
  import opened Uuid

  /** The MIME types accepted for a recording. */
  const AllowedAudioTypes: seq<string> :=
    ["audio/mpeg", "audio/mp3", "audio/wav", "audio/wave", "audio/x-wav",
     "audio/ogg", "audio/aac", "audio/mp4", "audio/x-m4a"]

  /** The file extensions accepted when the MIME type is not. */
  const AudioExtensions: seq<string> := ["mp3", "wav", "ogg", "aac", "m4a"]

  /** 50 MiB. */
  const MaxFileSize: int := 50 * 1024 * 1024

  /** The file as the multipart request carries it; an empty part has size 0. */
  datatype Upload = Upload(size: nat, contentType: Option<string>, originalFilename: Option<string>)

  // ---------------------------------------------------------------------------
  // Key and name rules
  // ---------------------------------------------------------------------------

  /** The characters `SAFE_PATTERN` leaves alone: ASCII letters and digits, '.', '_' and '-'. */
  predicate IsSafeChar(c: char) {
    ('a' <= c <= 'z') || ('A' <= c <= 'Z') || ('0' <= c <= '9') || c == '.' || c == '_' || c == '-'
  }

  predicate AllSafe(s: string) {
    forall i :: 0 <= i < |s| ==> IsSafeChar(s[i])
  }

  /** `sanitizeWalletAddress`: "unknown" for a blank wallet, else the trimmed wallet with every unsafe character replaced by '_'. */
  function SanitizeWalletAddress(wallet: Option<string>): (r: string)
    ensures AllSafe(r)
    ensures !HasTextOpt(wallet) ==> r == "unknown"
    ensures HasTextOpt(wallet) ==> |r| == |Trim(wallet.value)|
    ensures HasTextOpt(wallet) ==> forall i :: 0 <= i < |r| ==>
              r[i] == if IsSafeChar(Trim(wallet.value)[i]) then Trim(wallet.value)[i] else '_'
  {
    if !HasTextOpt(wallet) then "unknown" else ReplaceOutside(Trim(wallet.value), IsSafeChar)
  }

  /** A sanitised wallet is its own sanitisation (for a non-empty one; an empty result sanitises to "unknown"). */
  lemma SanitizeWalletIdempotent(wallet: Option<string>)
    requires SanitizeWalletAddress(wallet) != []
    ensures SanitizeWalletAddress(Some(SanitizeWalletAddress(wallet))) == SanitizeWalletAddress(wallet)
  {
    SafeWalletKept(SanitizeWalletAddress(wallet));
  }

  /** A safe wallet, such as a normalised `0x` address, is kept as it is. */
  lemma SafeWalletKept(wallet: string)
    requires wallet != [] && AllSafe(wallet)
    ensures SanitizeWalletAddress(Some(wallet)) == wallet
  {
    assert !IsWhitespace(wallet[0]);
    TrimOfTrimmed(wallet);
    assert ReplaceOutside(wallet, IsSafeChar) == wallet;
  }

  /**
   * `FilenameUtils.getExtension` (with '/' and '\' as separators): the text after the
   * last '.', provided no separator follows that dot; otherwise empty.
   */
  function ExtensionOf(filename: string): (r: string)
    ensures '.' !in r && '/' !in r && '\\' !in r
    ensures r != [] ==> EndsWith(filename, "." + r)
    ensures LastIndexOf(filename, '.') == -1 ==> r == []
  {
    var dot := LastIndexOf(filename, '.');
    var sep := if LastIndexOf(filename, '/') < LastIndexOf(filename, '\\') then LastIndexOf(filename, '\\') else LastIndexOf(filename, '/');
    if dot > sep then
      var r := filename[dot + 1..];
      assert filename[|filename| - |"." + r|..] == "." + r;
      r
    else []
  }

  /** `getFileExtension` of the storage service: the lower-cased extension, or "wav" for a blank name or a blank extension. */
  function FileExtension(filename: Option<string>): (r: string)
    ensures r != [] && '.' !in r
    ensures !HasTextOpt(filename) ==> r == "wav"
    ensures HasTextOpt(filename) ==>
              r == if HasText(ExtensionOf(filename.value)) then ToLower(ExtensionOf(filename.value)) else "wav"
  {
    if !HasTextOpt(filename) then "wav"
    else
      var ext := ExtensionOf(filename.value);
      if HasText(ext) then
        assert forall i :: 0 <= i < |ext| ==> ToLower(ext)[i] == ToLowerChar(ext[i]);
        ToLower(ext)
      else "wav"
  }

  /** `isValidAudioFile`: an allowed MIME type (any case), or failing that an allowed extension. */
  predicate IsValidAudioFile(contentType: Option<string>, filename: Option<string>) {
    (HasTextOpt(contentType) && ToLower(contentType.value) in AllowedAudioTypes)
    || FileExtension(filename) in AudioExtensions
  }

  /** The extension default makes a blank filename always acceptable, whatever the MIME type; so is an allowed MIME type, whatever the name. */
  lemma AudioFileAcceptance(contentType: Option<string>, filename: Option<string>)
    ensures !HasTextOpt(filename) ==> IsValidAudioFile(contentType, filename)
    ensures HasTextOpt(contentType) && ToLower(contentType.value) in AllowedAudioTypes ==> IsValidAudioFile(contentType, filename)
    ensures IsValidAudioFile(contentType, filename) ==>
              (HasTextOpt(contentType) && ToLower(contentType.value) in AllowedAudioTypes) || FileExtension(filename) in AudioExtensions
  {
  }

  /** `LocalDate.now()`, passed in. */
  datatype Date = Date(year: nat, month: nat, day: nat)

  /** `voices/<wallet>/<yyyy>/<MM>/<dd>/<uuid>.<ext>`, with the date parts zero-padded. */
  function S3Key(safeWallet: string, date: Date, u: Uuid, ext: string): string {
    "voices/" + safeWallet + "/" + ZeroPad(date.year, 4) + "/" + ZeroPad(date.month, 2) + "/"
    + ZeroPad(date.day, 2) + "/" + ToString(u) + "." + ext
  }

  /** Appending keeps a prefix. */
  lemma AppendKeepsPrefix(a: string, b: string, prefix: string)
    requires StartsWith(a, prefix)
    ensures StartsWith(a + b, prefix)
  {
    assert (a + b)[..|prefix|] == a[..|prefix|];
  }

  /** Every key lies under `voices/` and the wallet's directory, whatever the date. */
  lemma S3KeyPrefix(safeWallet: string, date: Date, u: Uuid, ext: string)
    ensures StartsWith(S3Key(safeWallet, date, u, ext), "voices/" + safeWallet + "/")
  {
    var head := "voices/" + safeWallet + "/";
    assert head[..|head|] == head;
    var y, m, d := ZeroPad(date.year, 4), ZeroPad(date.month, 2), ZeroPad(date.day, 2);
    AppendKeepsPrefix(head, y, head);
    AppendKeepsPrefix(head + y, "/", head);
    AppendKeepsPrefix(head + y + "/", m, head);
    AppendKeepsPrefix(head + y + "/" + m, "/", head);
    AppendKeepsPrefix(head + y + "/" + m + "/", d, head);
    AppendKeepsPrefix(head + y + "/" + m + "/" + d, "/", head);
    AppendKeepsPrefix(head + y + "/" + m + "/" + d + "/", ToString(u), head);
    AppendKeepsPrefix(head + y + "/" + m + "/" + d + "/" + ToString(u), ".", head);
    AppendKeepsPrefix(head + y + "/" + m + "/" + d + "/" + ToString(u) + ".", ext, head);
  }

  lemma PadWidth(n: nat, width: nat)
    requires width >= 1 && n < Pow10(width)
    ensures |ZeroPad(n, width)| == width
  {
    DecimalLengthBound(n, width);
  }

  /** The key up to the UUID: the wallet and the date directories. */
  function DatePrefix(safeWallet: string, date: Date): string {
    "voices/" + safeWallet + "/" + ZeroPad(date.year, 4) + "/" + ZeroPad(date.month, 2) + "/" + ZeroPad(date.day, 2) + "/"
  }

  lemma PrefixSlice(a: string, b: string, i: int, j: int)
    requires 0 <= i <= j <= |a|
    ensures (a + b)[i..j] == a[i..j]
  {
  }

  /** A middle piece of a concatenation is found at its offset. */
  lemma Field(a: string, f: string, b: string)
    ensures (a + f + b)[|a|..|a| + |f|] == f && (a + f + b)[..|a|] == a
  {
  }

  /** A zero-padded field between a head and a '/' reads back as its value. */
  lemma PaddedField(a: string, v: nat, w: nat, b: string)
    requires w >= 1 && v < Pow10(w) && b != [] && b[0] == '/'
    ensures var h := a + ZeroPad(v, w) + b;
      && |h| == |a| + w + |b| && h[..|a|] == a
      && AllDigits(h[|a|..|a| + w]) && DecimalValue(h[|a|..|a| + w]) == v && h[|a| + w] == '/'
  {
    PadWidth(v, w);
    var f := ZeroPad(v, w);
    Field(a, f, b);
    assert (a + f + b)[|a| + w] == b[0];
  }

  /** The wallet directory and the year. */
  lemma DatePrefixYear(safeWallet: string, date: Date)
    requires date.year < 10000 && date.month < 100 && date.day < 100
    ensures var h := DatePrefix(safeWallet, date); var p := 8 + |safeWallet|;
      && |h| == p + 11 && h[..p] == "voices/" + safeWallet + "/"
      && AllDigits(h[p..p + 4]) && DecimalValue(h[p..p + 4]) == date.year && h[p + 4] == '/'
  {
    assert Pow10(2) == 100;
    PadWidth(date.month, 2);
    PadWidth(date.day, 2);
    var a := "voices/" + safeWallet + "/";
    var hy := a + ZeroPad(date.year, 4) + "/";
    var rest := ZeroPad(date.month, 2) + "/" + ZeroPad(date.day, 2) + "/";
    assert DatePrefix(safeWallet, date) == hy + rest;
    PaddedField(a, date.year, 4, "/");
    PrefixSlice(hy, rest, 0, |a|);
    PrefixSlice(hy, rest, |a|, |a| + 4);
    assert (hy + rest)[|a| + 4] == hy[|a| + 4];
  }

  /** The month. */
  lemma DatePrefixMonth(safeWallet: string, date: Date)
    requires date.year < 10000 && date.month < 100 && date.day < 100
    ensures var h := DatePrefix(safeWallet, date); var p := 8 + |safeWallet|;
      |h| == p + 11 && AllDigits(h[p + 5..p + 7]) && DecimalValue(h[p + 5..p + 7]) == date.month && h[p + 7] == '/'
  {
    assert Pow10(2) == 100;
    PadWidth(date.year, 4);
    PadWidth(date.day, 2);
    var hy := "voices/" + safeWallet + "/" + ZeroPad(date.year, 4) + "/";
    var hm := hy + ZeroPad(date.month, 2) + "/";
    var rest := ZeroPad(date.day, 2) + "/";
    assert |hy| == 8 + |safeWallet| + 5;
    assert DatePrefix(safeWallet, date) == hm + rest;
    PaddedField(hy, date.month, 2, "/");
    PrefixSlice(hm, rest, |hy|, |hy| + 2);
    assert (hm + rest)[|hy| + 2] == hm[|hy| + 2];
  }

  /** The day. */
  lemma DatePrefixDay(safeWallet: string, date: Date)
    requires date.year < 10000 && date.month < 100 && date.day < 100
    ensures var h := DatePrefix(safeWallet, date); var p := 8 + |safeWallet|;
      |h| == p + 11 && AllDigits(h[p + 8..p + 10]) && DecimalValue(h[p + 8..p + 10]) == date.day && h[p + 10] == '/'
  {
    assert Pow10(2) == 100;
    PadWidth(date.year, 4);
    PadWidth(date.month, 2);
    var hm := "voices/" + safeWallet + "/" + ZeroPad(date.year, 4) + "/" + ZeroPad(date.month, 2) + "/";
    assert |hm| == 8 + |safeWallet| + 8;
    assert DatePrefix(safeWallet, date) == hm + ZeroPad(date.day, 2) + "/";
    PaddedField(hm, date.day, 2, "/");
  }

  lemma DatePrefixFields(safeWallet: string, date: Date)
    requires date.year < 10000 && date.month < 100 && date.day < 100
    ensures var h := DatePrefix(safeWallet, date); var p := 8 + |safeWallet|;
      && |h| == p + 11
      && h[..p] == "voices/" + safeWallet + "/"
      && AllDigits(h[p..p + 4]) && DecimalValue(h[p..p + 4]) == date.year && h[p + 4] == '/'
      && AllDigits(h[p + 5..p + 7]) && DecimalValue(h[p + 5..p + 7]) == date.month && h[p + 7] == '/'
      && AllDigits(h[p + 8..p + 10]) && DecimalValue(h[p + 8..p + 10]) == date.day && h[p + 10] == '/'
  {
    DatePrefixYear(safeWallet, date);
    DatePrefixMonth(safeWallet, date);
    DatePrefixDay(safeWallet, date);
  }

  /** The key splits into the date prefix, the UUID's 36 characters, '.', and the extension. */
  lemma S3KeyShape(safeWallet: string, date: Date, u: Uuid, ext: string)
    ensures S3Key(safeWallet, date, u, ext) == DatePrefix(safeWallet, date) + (ToString(u) + "." + ext)
  {
  }

  /**
   * The key reads back: for a four-digit year, the wallet, year, month, day, UUID and
   * extension sit at fixed offsets and decode to the values they were built from.
   */
  lemma S3KeyFields(safeWallet: string, date: Date, u: Uuid, ext: string)
    requires date.year < 10000 && date.month < 100 && date.day < 100
    ensures var key := S3Key(safeWallet, date, u, ext); var p := 8 + |safeWallet|;
      && |key| == p + 48 + |ext|
      && key[..p] == "voices/" + safeWallet + "/"
      && AllDigits(key[p..p + 4]) && DecimalValue(key[p..p + 4]) == date.year && key[p + 4] == '/'
      && AllDigits(key[p + 5..p + 7]) && DecimalValue(key[p + 5..p + 7]) == date.month && key[p + 7] == '/'
      && AllDigits(key[p + 8..p + 10]) && DecimalValue(key[p + 8..p + 10]) == date.day && key[p + 10] == '/'
      && key[p + 11..p + 47] == ToString(u) && key[p + 47] == '.' && key[p + 48..] == ext
  {
    S3KeyDateFields(safeWallet, date, u, ext);
    S3KeyTailFields(safeWallet, date, u, ext);
  }

  /** The wallet and date fields of a key are those of its date prefix. */
  lemma S3KeyDateFields(safeWallet: string, date: Date, u: Uuid, ext: string)
    requires date.year < 10000 && date.month < 100 && date.day < 100
    ensures var key := S3Key(safeWallet, date, u, ext); var p := 8 + |safeWallet|;
      && key[..p] == "voices/" + safeWallet + "/"
      && AllDigits(key[p..p + 4]) && DecimalValue(key[p..p + 4]) == date.year && key[p + 4] == '/'
      && AllDigits(key[p + 5..p + 7]) && DecimalValue(key[p + 5..p + 7]) == date.month && key[p + 7] == '/'
      && AllDigits(key[p + 8..p + 10]) && DecimalValue(key[p + 8..p + 10]) == date.day && key[p + 10] == '/'
  {
    var h := DatePrefix(safeWallet, date);
    var t := ToString(u) + "." + ext;
    var p := 8 + |safeWallet|;
    DatePrefixFields(safeWallet, date);
    S3KeyShape(safeWallet, date, u, ext);
    PrefixSlice(h, t, 0, p);
    PrefixSlice(h, t, p, p + 4);
    PrefixSlice(h, t, p + 5, p + 7);
    PrefixSlice(h, t, p + 8, p + 10);
    assert (h + t)[p + 4] == h[p + 4] && (h + t)[p + 7] == h[p + 7] && (h + t)[p + 10] == h[p + 10];
  }

  /** After the date prefix a key holds the UUID's 36 characters, '.', and the extension. */
  lemma S3KeyTailFields(safeWallet: string, date: Date, u: Uuid, ext: string)
    requires date.year < 10000 && date.month < 100 && date.day < 100
    ensures var key := S3Key(safeWallet, date, u, ext); var p := 8 + |safeWallet|;
      && |key| == p + 48 + |ext|
      && key[p + 11..p + 47] == ToString(u) && key[p + 47] == '.' && key[p + 48..] == ext
  {
    var h := DatePrefix(safeWallet, date);
    var t := ToString(u) + "." + ext;
    var p := 8 + |safeWallet|;
    DatePrefixYear(safeWallet, date);
    S3KeyShape(safeWallet, date, u, ext);
    assert |h| == p + 11;
    assert (h + t)[p + 11..] == t;
    assert t[..36] == ToString(u);
  }

  /** Two uploads on the same day from the same wallet get different keys unless they drew the same UUID. */
  lemma S3KeysDistinct(safeWallet: string, date: Date, u1: Uuid, u2: Uuid, ext1: string, ext2: string)
    requires date.year < 10000 && date.month < 100 && date.day < 100
    requires S3Key(safeWallet, date, u1, ext1) == S3Key(safeWallet, date, u2, ext2)
    ensures u1 == u2 && ext1 == ext2
  {
    S3KeyFields(safeWallet, date, u1, ext1);
    S3KeyFields(safeWallet, date, u2, ext2);
    Dashless(u1);
    Dashless(u2);
  }

  /** `buildPublicUrl`: the CDN base without one trailing '/', joined to the key by '/'; with no CDN, the object URL `s3Url`. */
  function BuildPublicUrl(cdnBase: Option<string>, key: string, s3Url: string): (r: string)
    ensures !HasTextOpt(cdnBase) ==> r == s3Url
  {
    if HasTextOpt(cdnBase) then
      var base := if EndsWith(cdnBase.value, "/") then cdnBase.value[..|cdnBase.value| - 1] else cdnBase.value;
      base + "/" + key
    else s3Url
  }

  /** With a CDN, the URL is the base and the key with exactly one '/' added unless the base already ends with one. */
  lemma PublicUrlJoin(cdnBase: string, key: string, s3Url: string)
    requires HasText(cdnBase)
    ensures EndsWith(cdnBase, "/") ==> BuildPublicUrl(Some(cdnBase), key, s3Url) == cdnBase + key
    ensures !EndsWith(cdnBase, "/") ==> BuildPublicUrl(Some(cdnBase), key, s3Url) == cdnBase + "/" + key
    ensures EndsWith(BuildPublicUrl(Some(cdnBase), key, s3Url), "/" + key)
  {
    var r := BuildPublicUrl(Some(cdnBase), key, s3Url);
    if EndsWith(cdnBase, "/") {
      assert cdnBase == cdnBase[..|cdnBase| - 1] + "/";
    }
    assert r[|r| - |"/" + key|..] == "/" + key;
  }

  /** `generatePresignedUrl`: none for a public upload or a non-positive expiry, else what the signer `presign` returns (none if it throws). */
  function GeneratePresignedUrl(key: string, makePublic: bool, expireSeconds: int,
                                presign: (string, int) -> Option<string>): (r: Option<string>)
    ensures makePublic || expireSeconds <= 0 ==> r.None?
    ensures r.Some? ==> !makePublic && expireSeconds > 0 && r == presign(key, expireSeconds)
    ensures !makePublic && expireSeconds > 0 ==> r == presign(key, expireSeconds)
  {
    if makePublic || expireSeconds <= 0 then None else presign(key, expireSeconds)
  }

  // ---------------------------------------------------------------------------
  // The storage client and the service
  // ---------------------------------------------------------------------------

  /** The two kinds of exception the AWS client throws: a service error (AmazonServiceException) and any other client error. */
  datatype ClientFailure = ServiceError | ClientError

  /** The bucket as the client sees it: the stored keys, and what the next call throws, if anything. */
  class S3Client {
    var objects: set<string>
    var failure: Option<ClientFailure>
    /** `getUrl(bucket, key).toString()`. */
    const urlOf: string -> string

    constructor (urlOf: string -> string, failure: Option<ClientFailure>)
      ensures objects == {} && this.failure == failure && this.urlOf == urlOf
    {
      objects := {};
      this.failure := failure;
      this.urlOf := urlOf;
    }

    /** `putObject`. */
    method PutObject(key: string) returns (thrown: Option<ClientFailure>)
      modifies this`objects
      ensures thrown == failure
      ensures objects == if failure.None? then old(objects) + {key} else old(objects)
    {
      thrown := failure;
      if failure.None? {
        objects := objects + {key};
      }
    }

    /** `deleteObject`. */
    method DeleteObject(key: string) returns (thrown: Option<ClientFailure>)
      modifies this`objects
      ensures thrown == failure
      ensures objects == if failure.None? then old(objects) - {key} else old(objects)
    {
      thrown := failure;
      if failure.None? {
        objects := objects - {key};
      }
    }
  }

  /** What `uploadVoiceFile` returns. */
  datatype UploadResult = UploadResult(key: string, s3Url: string, publicUrl: Option<string>, presignedUrl: Option<string>)

  /** The exceptions the service throws. */
  datatype S3Error = EmptyFile | FileTooLarge | InvalidAudioType | UploadFailed | BlankKey | Uncaught

  /** The checks `uploadVoiceFile` makes, in order, before it touches the bucket. */
  function UploadCheck(file: Option<Upload>): (r: Option<S3Error>)
    ensures r.None? <==> file.Some? && 0 < file.value.size <= MaxFileSize
                         && IsValidAudioFile(file.value.contentType, file.value.originalFilename)
    ensures r == Some(EmptyFile) <==> file.None? || file.value.size == 0
    ensures r == Some(FileTooLarge) <==> file.Some? && file.value.size > MaxFileSize
    ensures r.Some? ==> r.value in {EmptyFile, FileTooLarge, InvalidAudioType}
  {
    if file.None? || file.value.size == 0 then Some(EmptyFile)
    else if file.value.size > MaxFileSize then Some(FileTooLarge)
    else if !IsValidAudioFile(file.value.contentType, file.value.originalFilename) then Some(InvalidAudioType)
    else None
  }

  class S3Service {
    const client: S3Client
    const cdnBase: Option<string>

    constructor (client: S3Client, cdnBase: Option<string>)
      ensures this.client == client && this.cdnBase == cdnBase
    {
      this.client := client;
      this.cdnBase := cdnBase;
    }

    /** The key an upload of `file` by `wallet` on `date`, with the random UUID `u`, is stored under. */
    function KeyFor(file: Upload, wallet: Option<string>, date: Date, u: Uuid): string {
      S3Key(SanitizeWalletAddress(wallet), date, u, FileExtension(file.originalFilename))
    }

    /**
     * `uploadVoiceFile(file, walletAddress, makePublic, presignExpireSeconds)` on `date`
     * with the random UUID `u`; `presign` stands for the URL signer.
     */
    method UploadVoiceFile(file: Option<Upload>, wallet: Option<string>, makePublic: bool, expireSeconds: int,
                           date: Date, u: Uuid, presign: (string, int) -> Option<string>)
      returns (r: Result<UploadResult, S3Error>)
      modifies client`objects
      ensures UploadCheck(file).Some? ==> r == Err(UploadCheck(file).value) && client.objects == old(client.objects)
      ensures UploadCheck(file).None? && client.failure.Some? ==> r == Err(UploadFailed) && client.objects == old(client.objects)
      ensures UploadCheck(file).None? && client.failure.None? ==>
        var key := KeyFor(file.value, wallet, date, u);
        && client.objects == old(client.objects) + {key}
        && r == Ok(UploadResult(key, client.urlOf(key),
                                if makePublic then Some(BuildPublicUrl(cdnBase, key, client.urlOf(key))) else None,
                                GeneratePresignedUrl(key, makePublic, expireSeconds, presign)))
    {
      var check := UploadCheck(file);
      if check.Some? {
        return Err(check.value);
      }
      var key := KeyFor(file.value, wallet, date, u);
      var thrown := client.PutObject(key);
      if thrown.Some? {
        return Err(UploadFailed);
      }
      var s3Url := client.urlOf(key);
      var publicUrl := if makePublic then Some(BuildPublicUrl(cdnBase, key, s3Url)) else None;
      r := Ok(UploadResult(key, s3Url, publicUrl, GeneratePresignedUrl(key, makePublic, expireSeconds, presign)));
    }

    /** `deleteFile(s3Key)`: a blank key throws; a service error is false; any other client error escapes. */
    method DeleteFile(key: Option<string>) returns (r: Result<bool, S3Error>)
      modifies client`objects
      ensures !HasTextOpt(key) ==> r == Err(BlankKey) && client.objects == old(client.objects)
      ensures HasTextOpt(key) ==>
        && r == (if client.failure == None then Ok(true)
                 else if client.failure == Some(ServiceError) then Ok(false) else Err(Uncaught))
        && client.objects == if r == Ok(true) then old(client.objects) - {key.value} else old(client.objects)
    {
      if !HasTextOpt(key) {
        return Err(BlankKey);
      }
      var thrown := client.DeleteObject(key.value);
      if thrown == None {
        r := Ok(true);
      } else if thrown == Some(ServiceError) {
        r := Ok(false);
      } else {
        r := Err(Uncaught);
      }
    }

    /** `fileExists(s3Key)`: false for a blank key or a service error; any other client error escapes. */
    function FileExists(key: Option<string>): (r: Result<bool, S3Error>)
      reads this, client
      ensures r == Ok(true) ==> HasTextOpt(key) && key.value in client.objects
      ensures !HasTextOpt(key) ==> r == Ok(false)
      ensures r.Err? <==> HasTextOpt(key) && client.failure == Some(ClientError)
      ensures HasTextOpt(key) && client.failure.None? ==> r == Ok(key.value in client.objects)
      ensures HasTextOpt(key) && client.failure == Some(ServiceError) ==> r == Ok(false)
    {
      if !HasTextOpt(key) then Ok(false)
      else match client.failure
        case None => Ok(key.value in client.objects)
        case Some(ServiceError) => Ok(false)
        case Some(ClientError) => Err(Uncaught)
    }
  }
}
