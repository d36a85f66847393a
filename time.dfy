/** java.time.Instant arithmetic, with the clock left to the caller. */
module Time {
  import opened Text

  /** An `Instant`, as nanoseconds since the epoch. Every `Instant.now()` of the source is a parameter. */
  type Instant = int

  const NanosPerSecond: int := 1_000_000_000
  const NanosPerMinute: int := 60 * NanosPerSecond
  const NanosPerHour: int := 60 * NanosPerMinute

  /** `t.plus(m, ChronoUnit.MINUTES)`. */
  function PlusMinutes(t: Instant, m: int): Instant { t + m * NanosPerMinute }

  /** `t.plusSeconds(s)` (and `minusSeconds` with a negative `s`). */
  function PlusSeconds(t: Instant, s: int): Instant { t + s * NanosPerSecond }

  /** `from.until(to, ChronoUnit.SECONDS)`: the whole seconds from `from` to `to`, truncated toward zero. */
  function SecondsUntil(from: Instant, to: Instant): (r: int)
    ensures from <= to ==> 0 <= r && r * NanosPerSecond <= to - from < (r + 1) * NanosPerSecond
    ensures to <= from ==> r <= 0
  {
    JavaDivModFacts(to - from, NanosPerSecond);
    JavaDiv(to - from, NanosPerSecond)
  }
}
