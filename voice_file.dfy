/** The `VoiceFile` entity: an uploaded recording, its storage location and its processing status. */
module VoiceFiles {
  import opened Wrappers
  import opened Text
  import opened Time
  import opened Uuid

  /** `VoiceFile.Status`. */
  datatype Status = Uploaded | Processing | Processed | Training | Failed

  /** `Status.name()`, the text the column and the upload response carry. */
  function Name(s: Status): (r: string)
    ensures r != [] && IsUpperName(r)
  {
    match s
    case Uploaded => "UPLOADED"
    case Processing => "PROCESSING"
    case Processed => "PROCESSED"
    case Training => "TRAINING"
    case Failed => "FAILED"
  }

  predicate IsUpperName(r: string) {
    forall i :: 0 <= i < |r| ==> 'A' <= r[i] <= 'Z'
  }

  /** `Status.valueOf`, the inverse of `name()`. */
  function ValueOf(name: string): (r: Option<Status>)
    ensures r.Some? ==> Name(r.value) == name
  {
    if name == "UPLOADED" then Some(Uploaded)
    else if name == "PROCESSING" then Some(Processing)
    else if name == "PROCESSED" then Some(Processed)
    else if name == "TRAINING" then Some(Training)
    else if name == "FAILED" then Some(Failed)
    else None
  }

  /** Every status is stored under a name that reads back as itself. */
  lemma NameRoundTrip(s: Status)
    ensures ValueOf(Name(s)) == Some(s)
  {
  }

  // The convenience predicates, over a status column that may be null.

  predicate IsUploaded(s: Option<Status>) { s == Some(Uploaded) }
  predicate IsProcessing(s: Option<Status>) { s == Some(Processing) }
  predicate IsProcessed(s: Option<Status>) { s == Some(Processed) }
  predicate IsTraining(s: Option<Status>) { s == Some(Training) }
  predicate HasFailed(s: Option<Status>) { s == Some(Failed) }

  /** `isReadyForTraining`: fresh uploads and processed files may be trained. */
  predicate IsReadyForTraining(s: Option<Status>) { s == Some(Processed) || s == Some(Uploaded) }

  /** How many of the five status predicates hold. */
  function PredicatesHolding(s: Option<Status>): nat {
    (if IsUploaded(s) then 1 else 0) + (if IsProcessing(s) then 1 else 0) + (if IsProcessed(s) then 1 else 0)
    + (if IsTraining(s) then 1 else 0) + (if HasFailed(s) then 1 else 0)
  }

  /** Exactly one status predicate holds for a set status, and none for a null one. */
  lemma ExactlyOnePredicate(s: Option<Status>)
    ensures PredicatesHolding(s) == if s.Some? then 1 else 0
  {
    match s
    case None =>
    case Some(st) =>
      match st
      case Uploaded =>
      case Processing =>
      case Processed =>
      case Training =>
      case Failed =>
  }

  /** A file is ready for training exactly when it is uploaded or processed, so never while training or after a failure. */
  lemma ReadyForTrainingIff(s: Option<Status>)
    ensures IsReadyForTraining(s) <==> IsUploaded(s) || IsProcessed(s)
    ensures IsReadyForTraining(s) ==> !IsTraining(s) && !HasFailed(s) && !IsProcessing(s)
  {
  }

  /**
   * `getFileExtension` of the entity: the lower-cased text after the last dot when that
   * dot is neither the first nor the last character, else null.
   */
  function FileExtension(originalFilename: Option<string>): (r: Option<string>)
    ensures r.Some? <==> originalFilename.Some? &&
                         0 < LastIndexOf(originalFilename.value, '.') < |originalFilename.value| - 1
    ensures r.Some? ==> r.value == ToLower(originalFilename.value[LastIndexOf(originalFilename.value, '.') + 1..])
    ensures r.Some? ==> r.value != [] && '.' !in r.value
  {
    match originalFilename
    case None => None
    case Some(name) =>
      var dot := LastIndexOf(name, '.');
      if 0 < dot < |name| - 1 then
        var ext := ToLower(name[dot + 1..]);
        assert forall i :: 0 <= i < |ext| ==> ext[i] == ToLowerChar(name[dot + 1 + i]);
        Some(ext)
      else None
  }

  /** The columns of a `VoiceFile`, as a value. The `user` association is the owner's key; `duration` (a float) is not part of this model. */
  datatype VoiceFileState = VoiceFileState(
    id: Option<Uuid>, user: Option<Uuid>, walletAddress: Option<string>,
    fileUrl: Option<string>, s3Key: Option<string>, originalFilename: Option<string>,
    contentType: Option<string>, fileSize: Option<int>,
    uploadedAt: Option<Instant>, updatedAt: Option<Instant>,
    status: Option<Status>, jobId: Option<string>, errorMessage: Option<string>,
    audioFormat: Option<string>, isProcessed: Option<bool>, processingCompletedAt: Option<Instant>)

  /** `@PrePersist onCreate()`: the upload time, UPLOADED and not processed, each filled only where null. */
  function Created(s: VoiceFileState, now: Instant): (r: VoiceFileState)
    ensures r.uploadedAt.Some? && r.status.Some? && r.isProcessed.Some?
    ensures s.uploadedAt.Some? ==> r.uploadedAt == s.uploadedAt
    ensures s.status.Some? ==> r.status == s.status
    ensures s.isProcessed.Some? ==> r.isProcessed == s.isProcessed
    ensures s.status.None? ==> r.status == Some(Uploaded)
    ensures r.(uploadedAt := s.uploadedAt, status := s.status, isProcessed := s.isProcessed) == s
  {
    s.(uploadedAt := if s.uploadedAt.None? then Some(now) else s.uploadedAt,
       status := if s.status.None? then Some(Uploaded) else s.status,
       isProcessed := if s.isProcessed.None? then Some(false) else s.isProcessed)
  }

  /**
   * `@PreUpdate onUpdate()`: stamps `updatedAt`; records the completion time the first
   * time the file is seen PROCESSED or FAILED; raises the processed flag on PROCESSED.
   */
  function Updated(s: VoiceFileState, now: Instant): (r: VoiceFileState)
    ensures r.updatedAt == Some(now)
    ensures r.processingCompletedAt.Some? <==>
              s.processingCompletedAt.Some? || s.status == Some(Processed) || s.status == Some(Failed)
    ensures s.processingCompletedAt.Some? ==> r.processingCompletedAt == s.processingCompletedAt
    ensures r.isProcessed == if s.status == Some(Processed) then Some(true) else s.isProcessed
    ensures r.(updatedAt := s.updatedAt, processingCompletedAt := s.processingCompletedAt, isProcessed := s.isProcessed) == s
  {
    s.(updatedAt := Some(now),
       processingCompletedAt :=
         if (s.status == Some(Processed) || s.status == Some(Failed)) && s.processingCompletedAt.None? then Some(now)
         else s.processingCompletedAt,
       isProcessed := if s.status == Some(Processed) then Some(true) else s.isProcessed)
  }

  /** A nullable text column of at most `n` characters. */
  predicate AtMost(s: Option<string>, n: nat) {
    s.None? || |s.value| <= n
  }

  /**
   * The Bean Validation constraints and column sizes of a row: a user, a file URL, an
   * upload time and a status are present; the file URL and S3 key have at most 500
   * characters, the original name 255, the content type and job id 100, the error
   * message 2000 and the audio format 10. A row that breaks one is refused when written.
   */
  predicate Constrained(s: VoiceFileState) {
    && s.user.Some? && s.fileUrl.Some? && s.uploadedAt.Some? && s.status.Some?
    && AtMost(s.fileUrl, 500) && AtMost(s.s3Key, 500) && AtMost(s.originalFilename, 255)
    && AtMost(s.contentType, 100) && AtMost(s.jobId, 100) && AtMost(s.errorMessage, 2000)
    && AtMost(s.audioFormat, 10)
  }

  /** The callbacks touch no constrained column beyond filling the upload time and status: an update keeps a row within its constraints or outside them. */
  lemma CallbacksKeepConstraints(s: VoiceFileState, now: Instant)
    ensures Constrained(Updated(s, now)) <==> Constrained(s)
    ensures Constrained(s) ==> Constrained(Created(s, now))
  {
  }

  /** Creation fills the defaults once: a second `onCreate` changes nothing. */
  lemma CreatedIdempotent(s: VoiceFileState, now: Instant, later: Instant)
    ensures Created(Created(s, now), later) == Created(s, now)
  {
  }

  /**
   * Over any run of updates, with the status changed freely between them, the completion
   * time, once recorded, never changes, and the processed flag, once raised, never drops.
   */
  lemma {:induction false} UpdatesMonotone(s: VoiceFileState, statuses: seq<Option<Status>>, times: seq<Instant>)
    requires |statuses| == |times|
    ensures var r := UpdateRun(s, statuses, times);
      && (s.processingCompletedAt.Some? ==> r.processingCompletedAt == s.processingCompletedAt)
      && (s.isProcessed == Some(true) ==> r.isProcessed == Some(true))
    decreases |statuses|
  {
    if statuses != [] {
      UpdatesMonotone(Updated(s.(status := statuses[0]), times[0]), statuses[1..], times[1..]);
    }
  }

  /** The state after setting the status and updating, once per element. */
  function UpdateRun(s: VoiceFileState, statuses: seq<Option<Status>>, times: seq<Instant>): VoiceFileState
    requires |statuses| == |times|
    decreases |statuses|
  {
    if statuses == [] then s
    else UpdateRun(Updated(s.(status := statuses[0]), times[0]), statuses[1..], times[1..])
  }

  /** The entity object, whose setters and callbacks change its fields in place. */
  class VoiceFile {
    var id: Option<Uuid>
    var user: Option<Uuid>
    var walletAddress: Option<string>
    var fileUrl: Option<string>
    var s3Key: Option<string>
    var originalFilename: Option<string>
    var contentType: Option<string>
    var fileSize: Option<int>
    var uploadedAt: Option<Instant>
    var updatedAt: Option<Instant>
    var status: Option<Status>
    var jobId: Option<string>
    var errorMessage: Option<string>
    var audioFormat: Option<string>
    var isProcessed: Option<bool>
    var processingCompletedAt: Option<Instant>

    function State(): VoiceFileState
      reads this
    {
      VoiceFileState(id, user, walletAddress, fileUrl, s3Key, originalFilename, contentType, fileSize,
                     uploadedAt, updatedAt, status, jobId, errorMessage, audioFormat, isProcessed, processingCompletedAt)
    }

    /** The all-arguments constructor the builder uses. */
    constructor (s: VoiceFileState)
      ensures State() == s
    {
      id, user, walletAddress, fileUrl, s3Key := s.id, s.user, s.walletAddress, s.fileUrl, s.s3Key;
      originalFilename, contentType, fileSize := s.originalFilename, s.contentType, s.fileSize;
      uploadedAt, updatedAt, status, jobId := s.uploadedAt, s.updatedAt, s.status, s.jobId;
      errorMessage, audioFormat, isProcessed := s.errorMessage, s.audioFormat, s.isProcessed;
      processingCompletedAt := s.processingCompletedAt;
    }

    /** `onCreate()`, with the clock passed in. */
    method OnCreate(now: Instant)
      modifies this
      ensures State() == Created(old(State()), now)
    {
      if uploadedAt.None? {
        uploadedAt := Some(now);
      }
      if status.None? {
        status := Some(Uploaded);
      }
      if isProcessed.None? {
        isProcessed := Some(false);
      }
    }

    /** `onUpdate()`, with the clock passed in. */
    method OnUpdate(now: Instant)
      modifies this
      ensures State() == Updated(old(State()), now)
    {
      updatedAt := Some(now);
      if (status == Some(Processed) || status == Some(Failed)) && processingCompletedAt.None? {
        processingCompletedAt := Some(now);
      }
      if status == Some(Processed) {
        isProcessed := Some(true);
      }
    }

    /** `getS3Url()`: another name for the file URL. */
    function GetS3Url(): (r: Option<string>)
      reads this
      ensures r == State().fileUrl
    {
      fileUrl
    }

    /** `setS3Url(url)`: writes the file URL and nothing else, so `getS3Url` reads it back. */
    method SetS3Url(url: Option<string>)
      modifies this
      ensures State() == old(State()).(fileUrl := url)
      ensures GetS3Url() == url
    {
      fileUrl := url;
    }

    /** `setStatus`. */
    method SetStatus(s: Option<Status>)
      modifies this
      ensures State() == old(State()).(status := s)
    {
      status := s;
    }

    /** `setJobId`. */
    method SetJobId(j: Option<string>)
      modifies this
      ensures State() == old(State()).(jobId := j)
    {
      jobId := j;
    }

    /** `setErrorMessage`. */
    method SetErrorMessage(m: Option<string>)
      modifies this
      ensures State() == old(State()).(errorMessage := m)
    {
      errorMessage := m;
    }

    /** `equals(other)`: the same object, or both with the same non-null key. */
    predicate Equals(other: VoiceFile)
      reads this, other
    {
      this == other || (id.Some? && id == other.id)
    }
  }

  /** `equals` is an equivalence, and an entity without a key equals only itself. */
  lemma EqualsEquivalence(a: VoiceFile, b: VoiceFile, c: VoiceFile)
    ensures a.Equals(a)
    ensures a.Equals(b) ==> b.Equals(a)
    ensures a.Equals(b) && b.Equals(c) ==> a.Equals(c)
    ensures a.id.None? ==> (a.Equals(b) <==> a == b)
    ensures a != b && a.id.Some? ==> (a.Equals(b) <==> a.id == b.id)
  {
  }
}
