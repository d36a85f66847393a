/** `ModelTrainCompleteCallbackRequest`: the body the training server posts when a job ends. */
module Callback {
  import opened Wrappers
  import opened Text

  /** The fields the controller and the helpers read; the float quality metrics are not part of this model. */
  datatype CallbackRequest = CallbackRequest(
    modelId: Option<string>, status: Option<string>, modelPath: Option<string>, previewUrl: Option<string>,
    errorMessage: Option<string>, trainingDurationSeconds: Option<int>)

  /** `"X".equalsIgnoreCase(status)`: false for a null status. */
  predicate StatusIs(status: Option<string>, name: string) {
    status.Some? && EqualsIgnoreCase(name, status.value)
  }

  /** `isSuccessful`. */
  predicate IsSuccessful(status: Option<string>) {
    StatusIs(status, "DONE") || StatusIs(status, "SUCCESS")
  }

  /** `isFailed`. */
  predicate IsFailed(status: Option<string>) {
    StatusIs(status, "ERROR") || StatusIs(status, "FAILED")
  }

  /** The validation pattern `^(DONE|SUCCESS|ERROR|FAILED)$`. */
  predicate StatusValid(status: Option<string>) {
    status.Some? && status.value in {"DONE", "SUCCESS", "ERROR", "FAILED"}
  }

  /** A request is never both successful and failed: the four names differ in length, and so in lower case. */
  lemma SuccessAndFailureDisjoint(status: Option<string>)
    ensures !(IsSuccessful(status) && IsFailed(status))
  {
  }

  /** A status the pattern admits is successful or failed, and it is successful exactly for DONE and SUCCESS. */
  lemma ValidStatusClassified(status: Option<string>)
    requires StatusValid(status)
    ensures IsSuccessful(status) != IsFailed(status)
    ensures IsSuccessful(status) <==> status.value == "DONE" || status.value == "SUCCESS"
  {
    SuccessAndFailureDisjoint(status);
  }

  /** The hours, minutes and seconds `getFormattedDuration` computes, with Java's truncating `/` and `%`. */
  datatype Hms = Hms(hours: int, minutes: int, seconds: int)

  function DurationParts(s: int): (r: Hms) {
    Hms(JavaDiv(s, 3600), JavaDiv(JavaRem(s, 3600), 60), JavaRem(s, 60))
  }

  /**
   * The parts always add back up to the duration; for a non-negative duration the
   * minutes and seconds are below 60 and nothing is negative.
   */
  lemma DurationPartsRecompose(s: int)
    ensures var r := DurationParts(s); r.hours * 3600 + r.minutes * 60 + r.seconds == s
    ensures var r := DurationParts(s); s >= 0 ==> 0 <= r.minutes < 60 && 0 <= r.seconds < 60 && r.hours >= 0
  {
    var r := DurationParts(s);
    var rem := JavaRem(s, 3600);
    JavaDivModFacts(s, 3600);
    JavaDivModFacts(rem, 60);
    JavaDivModFacts(s, 60);
    // The seconds of `s` and of its remainder modulo an hour agree, since an hour is a whole number of minutes.
    assert JavaRem(s, 60) == JavaRem(rem, 60) by {
      JavaRemShift(rem, JavaDiv(s, 3600));
    }
  }

  /** Adding whole hours (of the same sign) keeps the seconds within the minute. */
  lemma JavaRemShift(rem: int, h: int)
    requires -3600 < rem < 3600
    requires (h > 0 ==> rem >= 0) && (h < 0 ==> rem <= 0)
    ensures JavaRem(rem + 3600 * h, 60) == JavaRem(rem, 60)
  {
    var a := rem + 3600 * h;
    if a >= 0 {
      assert rem >= 0;
      assert a == 60 * (60 * h + rem / 60) + rem % 60;
      JavaDivModFacts(a, 60);
      JavaDivModFacts(rem, 60);
    } else {
      assert rem <= 0;
      var b := -a;
      assert b == 60 * (-60 * h + (-rem) / 60) + (-rem) % 60;
    }
  }

  /**
   * `getFormattedDuration`: "알 수 없음" for no duration; else hours, minutes and seconds,
   * dropping the hours when there are none, and the minutes too when there are none.
   */
  function FormattedDuration(d: Option<int>): (r: string)
    ensures d.None? <==> r == "알 수 없음"
    ensures d.Some? ==> |r| > 0 && r[|r| - 1] == '초'
  {
    match d
    case None => "알 수 없음"
    case Some(s) =>
      var p := DurationParts(s);
      var text :=
        if p.hours > 0 then IntToDecimal(p.hours) + "시간 " + IntToDecimal(p.minutes) + "분 " + IntToDecimal(p.seconds) + "초"
        else if p.minutes > 0 then IntToDecimal(p.minutes) + "분 " + IntToDecimal(p.seconds) + "초"
        else IntToDecimal(p.seconds) + "초";
      assert text[|text| - 1] == '초' != "알 수 없음"[|"알 수 없음"| - 1];
      text
  }

  /** For a non-negative duration the parts are Euclidean quotients and remainders. */
  lemma DurationPartsNonNegative(s: int)
    requires s >= 0
    ensures DurationParts(s) == Hms(s / 3600, (s % 3600) / 60, s % 60)
  {
    JavaDivModFacts(s, 3600);
    JavaDivModFacts(s % 3600, 60);
    JavaDivModFacts(s, 60);
  }

  /** Which of the three shapes a non-negative duration takes is decided by whole hours and whole minutes. */
  lemma FormattedDurationShape(s: int)
    requires s >= 0
    ensures s < 60 ==> FormattedDuration(Some(s)) == NatToDecimal(s) + "초"
    ensures 60 <= s < 3600 ==>
      FormattedDuration(Some(s)) == NatToDecimal(s / 60) + "분 " + NatToDecimal(s % 60) + "초"
    ensures 3600 <= s ==>
      FormattedDuration(Some(s)) ==
        NatToDecimal(s / 3600) + "시간 " + NatToDecimal((s % 3600) / 60) + "분 " + NatToDecimal(s % 60) + "초"
  {
    DurationPartsNonNegative(s);
    if s < 3600 {
      assert s / 3600 == 0 && s % 3600 == s;
    }
  }

  /** `hasValidOutputs`: a successful result needs a non-blank model path; any other is acceptable. */
  predicate HasValidOutputs(r: CallbackRequest) {
    IsSuccessful(r.status) ==> r.modelPath.Some? && Trim(r.modelPath.value) != []
  }

  /** Only a successful report without a usable model path is rejected; a failed report always passes. */
  lemma ValidOutputsCases(r: CallbackRequest)
    ensures IsFailed(r.status) ==> HasValidOutputs(r)
    ensures !HasValidOutputs(r) <==> IsSuccessful(r.status) && (r.modelPath.None? || Trim(r.modelPath.value) == [])
  {
    SuccessAndFailureDisjoint(r.status);
  }
}
