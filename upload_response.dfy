/** `VoiceUploadResponse`: what the upload endpoint returns, with its status as the enum's name. */
module UploadResponse {
  import opened Wrappers
  import opened Text
  import opened Time
  import VoiceFiles

  /** The response's fields; `duration` (a float) is not part of this model. */
  datatype VoiceUploadResponse = VoiceUploadResponse(
    fileId: string, fileUrl: Option<string>, originalFilename: Option<string>, contentType: Option<string>,
    fileSize: Option<int>, status: Option<string>, uploadedAt: Option<Instant>,
    jobId: Option<string>, errorMessage: Option<string>)

  // The predicates compare the status text exactly (`"X".equals(status)`); a null status matches nothing.

  predicate IsTraining(status: Option<string>) { status == Some("TRAINING") }
  predicate IsCompleted(status: Option<string>) { status == Some("PROCESSED") || status == Some("FAILED") }
  predicate HasFailed(status: Option<string>) { status == Some("FAILED") }
  predicate IsSuccessful(status: Option<string>) { status == Some("PROCESSED") }

  /** Failed and successful are the two ways of being completed, never both; training is never completed. */
  lemma StatusPredicates(status: Option<string>)
    ensures HasFailed(status) ==> IsCompleted(status)
    ensures IsSuccessful(status) ==> IsCompleted(status)
    ensures IsCompleted(status) <==> HasFailed(status) || IsSuccessful(status)
    ensures !(HasFailed(status) && IsSuccessful(status))
    ensures !(IsTraining(status) && IsCompleted(status))
  {
  }

  /**
   * For a response built from a file's status (`status.name()`), the predicates agree with
   * the entity's: completed means processed or failed, and training means training.
   */
  lemma AgreesWithEntity(s: VoiceFiles.Status)
    ensures IsCompleted(Some(VoiceFiles.Name(s))) <==> VoiceFiles.IsProcessed(Some(s)) || VoiceFiles.HasFailed(Some(s))
    ensures IsTraining(Some(VoiceFiles.Name(s))) <==> VoiceFiles.IsTraining(Some(s))
    ensures HasFailed(Some(VoiceFiles.Name(s))) <==> VoiceFiles.HasFailed(Some(s))
    ensures IsSuccessful(Some(VoiceFiles.Name(s))) <==> VoiceFiles.IsProcessed(Some(s))
  {
    match s
    case Uploaded =>
    case Processing =>
    case Processed =>
    case Training =>
    case Failed =>
  }

  /**
   * `getFormattedFileSize` on its integer branches: "알 수 없음" for a null size and
   * "<n> B" below 1024 bytes. The KB and MB branches format a double and are `None` here.
   */
  function FormattedFileSize(fileSize: Option<int>): (r: Option<string>)
    ensures r.None? <==> fileSize.Some? && fileSize.value >= 1024
  {
    match fileSize
    case None => Some("알 수 없음")
    case Some(n) => if n < 1024 then Some(IntToDecimal(n) + " B") else None
  }

  /** A size from 0 to 1023 bytes is shown as its own decimal numeral followed by " B", which reads back as the size. */
  lemma ByteSizeReadsBack(n: nat)
    requires n < 1024
    ensures var r := FormattedFileSize(Some(n)).value;
      && EndsWith(r, " B") && AllDigits(r[..|r| - 2]) && DecimalValue(r[..|r| - 2]) == n
  {
    var r := FormattedFileSize(Some(n)).value;
    assert r == NatToDecimal(n) + " B";
    assert r[..|r| - 2] == NatToDecimal(n);
    DecimalRoundTrip(n);
  }
}
