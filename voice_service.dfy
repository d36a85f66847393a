/**
 * `VoiceService`: validating an upload, naming it, recording it, handing it to training,
 * and deleting it.
 */
module Voice {
  import opened Wrappers
  import opened Text
  import opened Time
  import opened Uuid
  import opened Signature
  import opened S3
  import opened VoiceFiles
  import Users
  import UploadResponse

  /** The rejections of `validateInput`, in the order it makes them. The duration check compares floats and is not part of this model. */
  datatype InputError = EmptyUpload | UploadTooLarge | InvalidWallet | UnsupportedType

  /**
   * `validateInput`: the file must be present and non-empty, at most 50 MiB, the wallet a
   * `0x` address of 40 hex digits, and the MIME type (in any case) one of the nine allowed.
   */
  function ValidateInput(file: Option<Upload>, wallet: Option<string>): (r: Option<InputError>)
    ensures r.None? <==>
              && file.Some? && 0 < file.value.size <= MaxFileSize
              && wallet.Some? && IsWalletAddress(wallet.value)
              && HasTextOpt(file.value.contentType) && ToLower(file.value.contentType.value) in AllowedAudioTypes
    ensures r == Some(EmptyUpload) <==> file.None? || file.value.size == 0
    ensures r == Some(UploadTooLarge) <==> file.Some? && file.value.size > MaxFileSize
    ensures r == Some(InvalidWallet) <==>
              file.Some? && 0 < file.value.size <= MaxFileSize && !(wallet.Some? && IsWalletAddress(wallet.value))
  {
    if file.None? || file.value.size == 0 then Some(EmptyUpload)
    else if file.value.size > MaxFileSize then Some(UploadTooLarge)
    else if !HasTextOpt(wallet) || !IsWalletAddress(wallet.value) then Some(InvalidWallet)
    else if !HasTextOpt(file.value.contentType) || ToLower(file.value.contentType.value) !in AllowedAudioTypes then Some(UnsupportedType)
    else None
  }

  /** What the service validates, the storage service accepts too: its own checks are weaker. */
  lemma ValidatedUploadAccepted(file: Option<Upload>, wallet: Option<string>)
    requires ValidateInput(file, wallet).None?
    ensures UploadCheck(file).None?
  {
  }

  /** A valid wallet is already safe, so the key's wallet directory is the wallet itself. */
  lemma ValidWalletIsKeyDirectory(w: string)
    requires IsWalletAddress(w)
    ensures SanitizeWalletAddress(Some(w)) == w
  {
    forall i | 0 <= i < |w|
      ensures IsSafeChar(w[i])
    {
      if i >= 2 {
        assert w[i] == w[2..][i - 2];
      }
    }
    SafeWalletKept(w);
  }

  // ---------------------------------------------------------------------------
  // Filenames
  // ---------------------------------------------------------------------------

  /** The characters a stored filename keeps: `[a-zA-Z0-9._-]` and the Hangul syllables 가..힣. */
  predicate IsFilenameChar(c: char) {
    IsSafeChar(c) || ('가' <= c <= '힣')
  }

  /**
   * `sanitizeFilename`: "unknown_file" for a blank name; else the part before the last '.'
   * with every other character replaced by '_', followed verbatim by the rest from that dot.
   */
  function SanitizeFilename(filename: Option<string>): (r: string)
    ensures !HasTextOpt(filename) ==> r == "unknown_file"
    ensures HasTextOpt(filename) ==>
      var n := filename.value; var d := LastIndexOf(n, '.'); var p := if d >= 0 then d else |n|;
      && |r| == |n| && r[p..] == n[p..]
      && forall i :: 0 <= i < p ==> r[i] == if IsFilenameChar(n[i]) then n[i] else '_'
  {
    if !HasTextOpt(filename) then "unknown_file"
    else
      var n := filename.value;
      var d := LastIndexOf(n, '.');
      if d >= 0 then ReplaceOutside(n[..d], IsFilenameChar) + n[d..] else ReplaceOutside(n, IsFilenameChar)
  }

  /** `lastIndexOf` is determined by its properties: the position of `c` with no `c` after it. */
  lemma LastIndexOfAt(s: string, c: char, k: int)
    requires -1 <= k < |s| && (k >= 0 ==> s[k] == c) && forall i :: k < i < |s| ==> s[i] != c
    ensures LastIndexOf(s, c) == k
  {
  }

  /** Replacing outside a class changes nothing in a text wholly inside it. */
  lemma ReplaceOutsideKept(s: string, keep: char -> bool)
    requires forall i :: 0 <= i < |s| ==> keep(s[i])
    ensures ReplaceOutside(s, keep) == s
  {
  }

  /** One character of a sanitised non-blank name: replaced if outside the class before the last dot, else kept. */
  lemma SanitizedChar(n: string, i: int)
    requires HasText(n) && 0 <= i < |n|
    ensures var r := SanitizeFilename(Some(n)); var d := LastIndexOf(n, '.'); var p := if d >= 0 then d else |n|;
      |r| == |n| && r[i] == if i < p && !IsFilenameChar(n[i]) then '_' else n[i]
  {
    var r := SanitizeFilename(Some(n));
    var d := LastIndexOf(n, '.');
    assert HasTextOpt(Some(n));
    if d >= 0 {
      var head := ReplaceOutside(n[..d], IsFilenameChar);
      assert r == head + n[d..];
      if i < d {
        assert r[i] == head[i] && n[..d][i] == n[i];
      } else {
        assert r[i] == n[d..][i - d];
      }
    } else {
      assert r == ReplaceOutside(n, IsFilenameChar);
    }
  }

  /**
   * A sanitised name of a non-blank one has text, keeps its last dot where it was, and
   * before that dot has only characters the sanitiser keeps.
   */
  lemma SanitizedShape(n: string)
    requires HasText(n)
    ensures var r := SanitizeFilename(Some(n)); var d := LastIndexOf(n, '.'); var p := if d >= 0 then d else |n|;
      && HasText(r) && LastIndexOf(r, '.') == d
      && (forall i :: 0 <= i < p ==> IsFilenameChar(r[i]))
  {
    SanitizedHasText(n);
    SanitizedKeepsLastDot(n);
    SanitizedKeptBeforeDot(n);
  }

  /** A character that is not whitespace stays one, so a non-blank name stays non-blank. */
  lemma SanitizedHasText(n: string)
    requires HasText(n)
    ensures HasText(SanitizeFilename(Some(n)))
  {
    var j :| 0 <= j < |n| && !IsWhitespace(n[j]);
    SanitizedChar(n, j);
    assert !IsWhitespace(SanitizeFilename(Some(n))[j]);
  }

  /** Sanitising leaves the last dot of a non-blank name where it was. */
  lemma SanitizedKeepsLastDot(n: string)
    requires HasText(n)
    ensures LastIndexOf(SanitizeFilename(Some(n)), '.') == LastIndexOf(n, '.')
  {
    var r := SanitizeFilename(Some(n));
    var d := LastIndexOf(n, '.');
    forall i | 0 <= i < |r| && d <= i
      ensures (d < i ==> r[i] != '.') && (i == d ==> r[i] == '.')
    {
      SanitizedChar(n, i);
    }
    LastIndexOfAt(r, '.', d);
  }

  /** Before the last dot, a sanitised non-blank name has only characters the sanitiser keeps. */
  lemma SanitizedKeptBeforeDot(n: string)
    requires HasText(n)
    ensures var r := SanitizeFilename(Some(n)); var d := LastIndexOf(n, '.'); var p := if d >= 0 then d else |n|;
      forall i :: 0 <= i < p ==> IsFilenameChar(r[i])
  {
    var r := SanitizeFilename(Some(n));
    var d := LastIndexOf(n, '.');
    var p := if d >= 0 then d else |n|;
    forall i | 0 <= i < p
      ensures IsFilenameChar(r[i])
    {
      SanitizedChar(n, i);
    }
  }

  /** Sanitising a sanitised name changes nothing. */
  lemma SanitizeFilenameIdempotent(filename: Option<string>)
    ensures SanitizeFilename(Some(SanitizeFilename(filename))) == SanitizeFilename(filename)
  {
    var r := SanitizeFilename(filename);
    if !HasTextOpt(filename) {
      assert !IsWhitespace(r[0]);
      LastIndexOfAt(r, '.', -1);
      ReplaceOutsideKept(r, IsFilenameChar);
    } else {
      var n := filename.value;
      SanitizedShape(n);
      var d := LastIndexOf(n, '.');
      if d >= 0 {
        ReplaceOutsideKept(r[..d], IsFilenameChar);
        assert r == r[..d] + r[d..];
      } else {
        ReplaceOutsideKept(r, IsFilenameChar);
      }
    }
  }

  /** `getFileExtension` of the service: none for a blank name or one without a dot, else the lower-cased text after the last dot. */
  function GetFileExtension(filename: Option<string>): (r: Option<string>)
    ensures r.Some? <==> HasTextOpt(filename) && '.' in filename.value
    ensures r.Some? ==> '.' !in r.value
    ensures r.Some? ==> r.value == ToLower(filename.value[LastIndexOf(filename.value, '.') + 1..])
  {
    if !HasTextOpt(filename) || '.' !in filename.value then None
    else
      var n := filename.value;
      ExtensionHasNoDot(n);
      Some(ToLower(n[LastIndexOf(n, '.') + 1..]))
  }

  /** The text after the last dot has no dot, and lowercasing adds none. */
  lemma ExtensionHasNoDot(n: string)
    requires '.' in n
    ensures '.' !in ToLower(n[LastIndexOf(n, '.') + 1..])
  {
    var d := LastIndexOf(n, '.');
    var tail := n[d + 1..];
    var ext := ToLower(tail);
    forall i | 0 <= i < |ext|
      ensures ext[i] != '.'
    {
      assert tail[i] == n[d + 1 + i] != '.';
    }
  }

  /** Where the entity finds an extension, the service finds the same one. */
  lemma ExtensionsAgreeWithEntity(filename: Option<string>)
    requires VoiceFiles.FileExtension(filename).Some?
    ensures GetFileExtension(filename) == VoiceFiles.FileExtension(filename)
  {
    var n := filename.value;
    var d := LastIndexOf(n, '.');
    assert !IsWhitespace(n[d]);
  }

  /** With no path separator after the last dot, the storage service's extension is the text after that dot. */
  lemma ExtensionAfterLastDot(n: string)
    requires '.' in n
    requires var e := n[LastIndexOf(n, '.') + 1..]; '/' !in e && '\\' !in e
    ensures ExtensionOf(n) == n[LastIndexOf(n, '.') + 1..]
  {
    var d := LastIndexOf(n, '.');
    var e := n[d + 1..];
    assert d >= 0;
  }

  /**
   * The stored audio format matches the key's extension when the name has a non-blank
   * extension with no path separator in it; otherwise the storage service falls back to "wav".
   */
  lemma ExtensionsAgreeWithStorage(n: string)
    requires '.' in n
    requires var e := n[LastIndexOf(n, '.') + 1..]; HasText(e) && '/' !in e && '\\' !in e
    ensures S3.FileExtension(Some(n)) == GetFileExtension(Some(n)).value
  {
    var d := LastIndexOf(n, '.');
    assert HasText(n) by {
      assert !IsWhitespace(n[d]);
    }
    ExtensionAfterLastDot(n);
  }

  // ---------------------------------------------------------------------------
  // Recording, training and deleting
  // ---------------------------------------------------------------------------

  /**
   * `createVoiceFile`: the new entity for an upload by `user`, pointing at the public URL
   * when there is one and the object URL otherwise, with the sanitised name, UPLOADED status
   * and the owner's wallet. `duration` is not part of this model.
   */
  function CreateVoiceFile(file: Upload, user: Users.User, result: UploadResult, now: Instant): VoiceFileState {
    VoiceFileState(
      None, Some(user.id), Some(user.walletAddress),
      Some(if result.publicUrl.Some? then result.publicUrl.value else result.s3Url),
      Some(result.key), Some(SanitizeFilename(file.originalFilename)),
      file.contentType, Some(file.size), Some(now), None,
      Some(Uploaded), None, None, GetFileExtension(file.originalFilename), Some(false), None)
  }

  /**
   * A created record already holds every default `onCreate` would fill, is ready for
   * training, points at the public URL if any, and its owner passes the ownership check.
   */
  lemma CreatedVoiceFile(file: Upload, user: Users.User, result: UploadResult, now: Instant, later: Instant)
    ensures var s := CreateVoiceFile(file, user, result, now);
      && Created(s, later) == s
      && IsReadyForTraining(s.status) && IsUploaded(s.status)
      && s.fileUrl == Some(result.publicUrl.GetOr(result.s3Url))
      && s.walletAddress == Some(user.walletAddress)
      && OwnedBy(s, Some(user.walletAddress))
  {
  }

  /** The ownership check: the stored wallet equals the caller's, ignoring case. */
  predicate OwnedBy(s: VoiceFileState, wallet: Option<string>) {
    s.walletAddress.Some? && wallet.Some? && EqualsIgnoreCase(s.walletAddress.value, wallet.value)
  }

  /** The `voice_files` table, keyed by id; every row it holds is within the entity's constraints. */
  class VoiceFileRepository {
    var files: map<Uuid, VoiceFileState>

    ghost predicate Valid()
      reads this
    {
      forall id :: id in files ==> files[id].id == Some(id) && Constrained(files[id])
    }

    constructor ()
      ensures Valid() && files == map[]
    {
      files := map[];
    }

    /** `findById`: a fresh entity object loaded from the row. */
    method FindById(id: Uuid) returns (f: Option<VoiceFile>)
      ensures f.Some? <==> id in files
      ensures f.Some? ==> fresh(f.value) && f.value.State() == files[id]
    {
      if id in files {
        var e := new VoiceFile(files[id]);
        f := Some(e);
      } else {
        f := None;
      }
    }

    /**
     * `save` of an entity that has a key: `onUpdate` runs and the row is written, unless
     * it breaks a constraint; then nothing is written and `ok` is false.
     */
    method SaveExisting(f: VoiceFile, now: Instant) returns (ok: bool)
      requires Valid() && f.id.Some?
      modifies this, f
      ensures Valid()
      ensures f.State() == Updated(old(f.State()), now)
      ensures ok == Constrained(f.State())
      ensures files == if ok then old(files)[f.id.value := f.State()] else old(files)
    {
      f.OnUpdate(now);
      ok := Constrained(f.State());
      if ok {
        files := files[f.id.value := f.State()];
      }
    }

    /**
     * `save` of a new entity: `onCreate` runs, the generated key `freshId` is assigned,
     * and the row is inserted, unless it breaks a constraint; then nothing is written.
     */
    method SaveNew(f: VoiceFile, freshId: Uuid, now: Instant) returns (ok: bool)
      requires Valid() && f.id.None? && freshId !in files
      modifies this, f
      ensures Valid()
      ensures f.State() == Created(old(f.State()), now).(id := Some(freshId))
      ensures ok == Constrained(f.State())
      ensures files == if ok then old(files)[freshId := f.State()] else old(files)
    {
      f.OnCreate(now);
      f.id := Some(freshId);
      ok := Constrained(f.State());
      if ok {
        files := files[freshId := f.State()];
      }
    }

    /** `delete`: removes the row with the entity's key. */
    method Delete(f: VoiceFile)
      requires Valid()
      modifies this
      ensures Valid()
      ensures files == if f.id.Some? then old(files) - {f.id.value} else old(files)
    {
      if f.id.Some? {
        files := files - {f.id.value};
      }
    }
  }

  /** The prefix of the error message a failed training request leaves. */
  const TrainingFailurePrefix: string := "AI 학습 요청 실패: "

  /** The state `handleAiTraining` leaves: TRAINING with the job id, or FAILED with the prefixed message (`null` for none). */
  function AfterTraining(s: VoiceFileState, train: Result<string, Option<string>>, now: Instant): VoiceFileState {
    match train
    case Ok(jobId) => Updated(s.(status := Some(Training), jobId := Some(jobId)), now)
    case Err(message) => Updated(s.(status := Some(Failed), errorMessage := Some(TrainingFailurePrefix + message.GetOr("null"))), now)
  }

  /**
   * After a training request the file is either training under the returned job id or
   * failed with the prefixed message and a completion time; in neither case is it ready
   * for another training request, and nothing else about it changes.
   */
  lemma TrainingOutcome(s: VoiceFileState, train: Result<string, Option<string>>, now: Instant)
    ensures var r := AfterTraining(s, train, now);
      && !IsReadyForTraining(r.status)
      && (train.Ok? ==> IsTraining(r.status) && r.jobId == Some(train.value) && r.errorMessage == s.errorMessage)
      && (train.Err? ==> HasFailed(r.status) && r.processingCompletedAt.Some? && r.jobId == s.jobId
                         && StartsWith(r.errorMessage.value, TrainingFailurePrefix))
      && r.fileUrl == s.fileUrl && r.s3Key == s.s3Key && r.walletAddress == s.walletAddress
  {
  }

  /**
   * `handleAiTraining(voiceFile)`; `train` is what `requestTrain` returned: the job id,
   * or the message of the exception it threw. The failure is recorded, never rethrown;
   * `ok` is false when the record it leaves breaks a constraint (an over-long job id or
   * message) and is not written.
   */
  method HandleAiTraining(f: VoiceFile, repo: VoiceFileRepository, train: Result<string, Option<string>>, now: Instant)
    returns (ok: bool)
    requires repo.Valid() && f.id.Some?
    modifies f, repo
    ensures repo.Valid()
    ensures f.State() == AfterTraining(old(f.State()), train, now)
    ensures ok == Constrained(f.State())
    ensures repo.files == if ok then old(repo.files)[f.id.value := f.State()] else old(repo.files)
  {
    if train.Ok? {
      f.SetStatus(Some(Training));
      f.SetJobId(Some(train.value));
    } else {
      f.SetStatus(Some(Failed));
      f.SetErrorMessage(Some(TrainingFailurePrefix + train.error.GetOr("null")));
    }
    ok := repo.SaveExisting(f, now);
  }

  /**
   * Why `getVoiceFile` and `deleteVoiceFile` throw; a file whose wallet is null fails the
   * ownership comparison with a `NullPointerException`.
   */
  datatype DeleteError = NullId | NotFound | MissingOwner | AccessDenied | TrainingInProgress

  /** `getVoiceFile(id)`: a null id and an unknown id are rejected; otherwise a fresh entity loaded from the row. */
  method GetVoiceFile(id: Option<Uuid>, repo: VoiceFileRepository) returns (r: Result<VoiceFile, DeleteError>)
    ensures id.None? ==> r == Err(NullId)
    ensures id.Some? && id.value !in repo.files ==> r == Err(NotFound)
    ensures r.Ok? <==> id.Some? && id.value in repo.files
    ensures r.Ok? ==> fresh(r.value) && r.value.State() == repo.files[id.value]
  {
    if id.None? {
      return Err(NullId);
    }
    var found := repo.FindById(id.value);
    if found.None? {
      return Err(NotFound);
    }
    r := Ok(found.value);
  }

  /** `getVoiceFile(id, walletAddress)`: the lookup, then the ownership check; the file is returned only to its owner. */
  method GetOwnedVoiceFile(id: Option<Uuid>, wallet: Option<string>, repo: VoiceFileRepository)
    returns (r: Result<VoiceFile, DeleteError>)
    ensures r.Ok? <==> id.Some? && id.value in repo.files && OwnedBy(repo.files[id.value], wallet)
    ensures r.Ok? ==> fresh(r.value) && r.value.State() == repo.files[id.value]
    ensures r == Err(AccessDenied) <==>
              id.Some? && id.value in repo.files && repo.files[id.value].walletAddress.Some?
              && !OwnedBy(repo.files[id.value], wallet)
  {
    r := GetVoiceFile(id, repo);
    if r.Err? {
      return;
    }
    var f := r.value;
    if f.walletAddress.None? {
      return Err(MissingOwner);
    }
    if !OwnedBy(f.State(), wallet) {
      return Err(AccessDenied);
    }
  }

  /** The guards of `deleteVoiceFile`, in order, on the table before the call. */
  function DeleteGuard(files: map<Uuid, VoiceFileState>, id: Option<Uuid>, wallet: Option<string>): (r: Option<DeleteError>)
    ensures r.None? <==>
              id.Some? && id.value in files && OwnedBy(files[id.value], wallet) && !IsTraining(files[id.value].status)
    ensures r == Some(NullId) <==> id.None?
    ensures r == Some(NotFound) <==> id.Some? && id.value !in files
    ensures r == Some(MissingOwner) <==> id.Some? && id.value in files && files[id.value].walletAddress.None?
    ensures r == Some(AccessDenied) <==>
              id.Some? && id.value in files && files[id.value].walletAddress.Some? && !OwnedBy(files[id.value], wallet)
    ensures r == Some(TrainingInProgress) <==>
              id.Some? && id.value in files && OwnedBy(files[id.value], wallet) && IsTraining(files[id.value].status)
  {
    if id.None? then Some(NullId)
    else if id.value !in files then Some(NotFound)
    else if files[id.value].walletAddress.None? then Some(MissingOwner)
    else if !OwnedBy(files[id.value], wallet) then Some(AccessDenied)
    else if IsTraining(files[id.value].status) then Some(TrainingInProgress)
    else None
  }

  /**
   * `deleteVoiceFile(id, walletAddress)`. The guards throw before anything is deleted.
   * Then the stored object is deleted if there is a key (a failed deletion is only logged),
   * and the row is deleted and the result is true; an exception that escapes the storage
   * client is caught and gives false, with the row kept.
   */
  method DeleteVoiceFile(id: Option<Uuid>, wallet: Option<string>, repo: VoiceFileRepository, s3: S3Service)
    returns (r: Result<bool, DeleteError>)
    requires repo.Valid()
    modifies repo, s3.client`objects
    ensures repo.Valid()
    ensures DeleteGuard(old(repo.files), id, wallet).Some? ==>
              r == Err(DeleteGuard(old(repo.files), id, wallet).value)
              && repo.files == old(repo.files) && s3.client.objects == old(s3.client.objects)
    ensures DeleteGuard(old(repo.files), id, wallet).None? ==>
              var key := old(repo.files)[id.value].s3Key;
              && r.Ok?
              && (r.value <==> !HasTextOpt(key) || s3.client.failure != Some(ClientError))
              && repo.files == (if r.value then old(repo.files) - {id.value} else old(repo.files))
              && s3.client.objects ==
                   (if HasTextOpt(key) && s3.client.failure.None? then old(s3.client.objects) - {key.value}
                    else old(s3.client.objects))
  {
    var guard := DeleteGuard(repo.files, id, wallet);
    if guard.Some? {
      return Err(guard.value);
    }
    var found := repo.FindById(id.value);
    var f := found.value;
    assert f.s3Key == old(repo.files)[id.value].s3Key by {
      assert f.State().s3Key == f.s3Key;
    }
    if HasTextOpt(f.s3Key) {
      var deleted := s3.DeleteFile(f.s3Key);
      if deleted.Err? {
        assert s3.client.failure.value.ClientError?;
        return Ok(false);
      }
    }
    repo.Delete(f);
    r := Ok(true);
  }

  // ---------------------------------------------------------------------------
  // Upload
  // ---------------------------------------------------------------------------

  /** `findOrCreateUser` of this service: the user with exactly this wallet, or a new one created now. */
  method FindOrCreateUser(wallet: string, users: Users.UserRepository, freshId: Uuid, now: Instant) returns (u: Users.User)
    requires users.Valid()
    modifies users
    ensures users.Valid()
    ensures u.walletAddress == wallet && users.users == old(users.users)[wallet := u]
    ensures wallet in old(users.users) ==> u == old(users.users)[wallet] && users.users == old(users.users)
    ensures wallet !in old(users.users) ==>
              u == Users.User(freshId, wallet, Some(now)) && users.users == old(users.users)[wallet := u]
  {
    var found := users.FindByWalletAddress(wallet);
    if found.Some? {
      assert users.users[wallet := found.value] == users.users;
      return found.value;
    }
    u := users.SaveNew(wallet, Some(now), freshId);
  }

  /** `createResponse`: the saved file as the client sees it, with the key as text and the status by name. */
  function ResponseOf(s: VoiceFileState): (r: UploadResponse.VoiceUploadResponse)
    requires s.id.Some? && s.status.Some?
    ensures r.fileId == ToString(s.id.value) && |r.fileId| == 36
    ensures r.status.Some? && ValueOf(r.status.value) == s.status
    ensures UploadResponse.IsTraining(r.status) <==> IsTraining(s.status)
    ensures UploadResponse.HasFailed(r.status) <==> HasFailed(s.status)
    ensures UploadResponse.IsSuccessful(r.status) <==> IsProcessed(s.status)
    ensures UploadResponse.IsCompleted(r.status) <==> IsProcessed(s.status) || HasFailed(s.status)
    ensures r.fileUrl == s.fileUrl && r.jobId == s.jobId && r.errorMessage == s.errorMessage
  {
    NameRoundTrip(s.status.value);
    UploadResponse.AgreesWithEntity(s.status.value);
    UploadResponse.VoiceUploadResponse(
      ToString(s.id.value), s.fileUrl, s.originalFilename, s.contentType, s.fileSize,
      Some(Name(s.status.value)), s.uploadedAt, s.jobId, s.errorMessage)
  }

  /**
   * Why `handleUpload` throws: the input was rejected, the storage upload failed, or the
   * record broke one of the entity's constraints when it was written.
   */
  datatype UploadError = Invalid(input: InputError) | StorageFailed | RecordRejected

  /** The record as first saved: the created entity after `onCreate`, under the generated key `fileId`. */
  function CreatedRecord(file: Upload, owner: Users.User, result: UploadResult, fileId: Uuid, now: Instant): VoiceFileState {
    Created(CreateVoiceFile(file, owner, result, now), now).(id := Some(fileId))
  }

  /** The row a successful upload leaves: the created record, saved under `fileId`, after the training request. */
  function UploadedState(file: Upload, owner: Users.User, result: UploadResult, fileId: Uuid,
                         train: Result<string, Option<string>>, now: Instant): VoiceFileState {
    AfterTraining(CreatedRecord(file, owner, result, fileId, now), train, now)
  }

  /**
   * Which uploads the table accepts: the record is within its constraints exactly when
   * the URL and key have at most 500 characters, the sanitised name 255, the content type
   * 100, the extension 10, the job id 100 and the failure message (with its prefix) 2000.
   * A record the table accepts after training was also accepted when first saved.
   */
  lemma UploadedConstrained(file: Upload, owner: Users.User, result: UploadResult, fileId: Uuid,
                            train: Result<string, Option<string>>, now: Instant)
    ensures Constrained(UploadedState(file, owner, result, fileId, train, now)) <==>
              && |result.publicUrl.GetOr(result.s3Url)| <= 500 && |result.key| <= 500
              && |SanitizeFilename(file.originalFilename)| <= 255
              && AtMost(file.contentType, 100) && AtMost(GetFileExtension(file.originalFilename), 10)
              && (train.Ok? ==> |train.value| <= 100)
              && (train.Err? ==> |TrainingFailurePrefix + train.error.GetOr("null")| <= 2000)
    ensures Constrained(UploadedState(file, owner, result, fileId, train, now)) ==>
              Constrained(CreatedRecord(file, owner, result, fileId, now))
  {
    var c := CreateVoiceFile(file, owner, result, now);
    CreatedVoiceFile(file, owner, result, now, now);
    assert CreatedRecord(file, owner, result, fileId, now) == c.(id := Some(fileId));
  }

  /**
   * An upload the validation admits that the table refuses: a file named
   * `clip.extendedaudio` records the 13-character format `extendedaudio`, over the
   * column's 10, whatever its type, owner, storage location and training outcome.
   */
  lemma LongExtensionRejected(size: nat, contentType: Option<string>, owner: Users.User, result: UploadResult,
                              fileId: Uuid, train: Result<string, Option<string>>, now: Instant)
    ensures !Constrained(UploadedState(Upload(size, contentType, Some("clip.extendedaudio")), owner, result, fileId, train, now))
  {
    ExtendedAudioExtension();
    UploadedConstrained(Upload(size, contentType, Some("clip.extendedaudio")), owner, result, fileId, train, now);
  }

  /** The extension of `clip.extendedaudio` is the 13 characters after its one dot. */
  lemma ExtendedAudioExtension()
    ensures GetFileExtension(Some("clip.extendedaudio")).Some?
    ensures |GetFileExtension(Some("clip.extendedaudio")).value| == 13
  {
    var n := "clip.extendedaudio";
    assert !IsWhitespace(n[0]);
    assert n[4] == '.';
    LastIndexOfAt(n, '.', 4);
  }

  /**
   * A stored upload belongs to its uploader, points at the uploaded object, and is training
   * under the job id or failed; the response says which and names the stored key.
   */
  lemma UploadOutcome(file: Upload, owner: Users.User, result: UploadResult, fileId: Uuid,
                      train: Result<string, Option<string>>, now: Instant)
    ensures var s := UploadedState(file, owner, result, fileId, train, now);
      && s.id == Some(fileId) && s.user == Some(owner.id)
      && OwnedBy(s, Some(owner.walletAddress))
      && s.s3Key == Some(result.key) && s.fileUrl == Some(result.publicUrl.GetOr(result.s3Url))
      && (train.Ok? <==> IsTraining(s.status)) && (train.Err? <==> HasFailed(s.status))
      && (train.Ok? ==> s.jobId == Some(train.value))
      && ResponseOf(s).fileId == ToString(fileId)
      && (UploadResponse.IsTraining(ResponseOf(s).status) <==> train.Ok?)
      && (UploadResponse.HasFailed(ResponseOf(s).status) <==> train.Err?)
  {
    var c := CreateVoiceFile(file, owner, result, now);
    CreatedVoiceFile(file, owner, result, now, now);
    TrainingOutcome(c.(id := Some(fileId)), train, now);
  }

  /**
   * `handleUpload(file, walletAddress, duration)` as one transaction: validate, find or
   * create the user, upload publicly (`date` and `u` name the object), save the record under
   * `fileId`, request training (`train` is its outcome) and answer. A failed upload, and a
   * record the table refuses, roll back the user it created and the record; the stored
   * object of an upload stays in the bucket either way.
   */
  method HandleUpload(file: Option<Upload>, wallet: Option<string>, users: Users.UserRepository,
                      repo: VoiceFileRepository, s3: S3Service, date: Date, u: Uuid,
                      presign: (string, int) -> Option<string>, userId: Uuid, fileId: Uuid,
                      train: Result<string, Option<string>>, now: Instant)
    returns (r: Result<UploadResponse.VoiceUploadResponse, UploadError>)
    requires users.Valid() && repo.Valid() && fileId !in repo.files
    modifies users, repo, s3.client`objects
    ensures users.Valid() && repo.Valid()
    ensures ValidateInput(file, wallet).Some? ==>
              && r == Err(Invalid(ValidateInput(file, wallet).value))
              && users.users == old(users.users) && repo.files == old(repo.files)
              && s3.client.objects == old(s3.client.objects)
    ensures ValidateInput(file, wallet).None? && s3.client.failure.Some? ==>
              && r == Err(StorageFailed)
              && users.users == old(users.users) && repo.files == old(repo.files)
              && s3.client.objects == old(s3.client.objects)
    ensures ValidateInput(file, wallet).None? && s3.client.failure.None? ==>
              var w := wallet.value;
              var owner := if w in old(users.users) then old(users.users)[w] else Users.User(userId, w, Some(now));
              var key := s3.KeyFor(file.value, wallet, date, u);
              var url := s3.client.urlOf(key);
              var stored := UploadedState(file.value, owner, UploadResult(key, url, Some(BuildPublicUrl(s3.cdnBase, key, url)), None),
                                          fileId, train, now);
              && s3.client.objects == old(s3.client.objects) + {key}
              && (Constrained(stored) ==>
                    && users.users == old(users.users)[w := owner]
                    && repo.files == old(repo.files)[fileId := stored]
                    && r == Ok(ResponseOf(stored)))
              && (!Constrained(stored) ==>
                    && r == Err(RecordRejected)
                    && users.users == old(users.users) && repo.files == old(repo.files))
  {
    var invalid := ValidateInput(file, wallet);
    if invalid.Some? {
      return Err(Invalid(invalid.value));
    }
    ValidatedUploadAccepted(file, wallet);
    var savedUsers, savedFiles := users.users, repo.files;
    var owner := FindOrCreateUser(wallet.value, users, userId, now);
    var uploaded := s3.UploadVoiceFile(file, wallet, true, 0, date, u, presign);
    if uploaded.Err? {
      users.users := savedUsers;
      return Err(StorageFailed);
    }
    r := StoreUpload(file.value, owner, uploaded.value, fileId, repo, train, now);
    if r.Err? {
      // The transaction manager's rollback; the object in the bucket is not part of it.
      users.users, repo.files := savedUsers, savedFiles;
    }
  }

  /**
   * Steps 4 to 6 of `handleUpload`: save the new record, request training, and answer from
   * the saved record. A record the table refuses, first or after training, is an error; the
   * created record then may already be in the table, for the transaction to roll back.
   */
  method StoreUpload(file: Upload, owner: Users.User, result: UploadResult, fileId: Uuid, repo: VoiceFileRepository,
                     train: Result<string, Option<string>>, now: Instant)
    returns (r: Result<UploadResponse.VoiceUploadResponse, UploadError>)
    requires repo.Valid() && fileId !in repo.files
    modifies repo
    ensures repo.Valid()
    ensures var stored := UploadedState(file, owner, result, fileId, train, now);
      && (Constrained(stored) ==>
            repo.files == old(repo.files)[fileId := stored] && r == Ok(ResponseOf(stored)))
      && (!Constrained(stored) ==>
            && r == Err(RecordRejected)
            && (repo.files == old(repo.files)
                || repo.files == old(repo.files)[fileId := CreatedRecord(file, owner, result, fileId, now)]))
  {
    UploadedConstrained(file, owner, result, fileId, train, now);
    var f := new VoiceFile(CreateVoiceFile(file, owner, result, now));
    var created := repo.SaveNew(f, fileId, now);
    if !created {
      return Err(RecordRejected);
    }
    var trained := HandleAiTraining(f, repo, train, now);
    if !trained {
      return Err(RecordRejected);
    }
    r := Ok(ResponseOf(f.State()));
  }
}
