/** The part of Go's `time` package the token code uses. An instant is the
    number of nanoseconds since the Unix epoch (wall clock only); a duration
    is a number of nanoseconds, as `time.Duration` is. */
module GoTime {

  type Instant = int
  type Duration = int

  const NanosPerSecond: int := 1_000_000_000

  /** `time.Time{}`, January 1 of year 1, UTC, which is 62135596800 seconds
      before the Unix epoch. */
  const ZeroTime: Instant := -62_135_596_800 * NanosPerSecond

  /** `t.Unix()`: the whole second containing `t` (rounded down, also
      before the epoch). */
  function Unix(t: Instant): (s: int)
    ensures s * NanosPerSecond <= t < s * NanosPerSecond + NanosPerSecond
  {
    t / NanosPerSecond
  }

  /** `time.Unix(sec, 0)` */
  function FromUnix(sec: int): (t: Instant)
    ensures Unix(t) == sec
    ensures t % NanosPerSecond == 0
  {
    sec * NanosPerSecond
  }

  /** `t.Add(d)`; Go saturates on int64 overflow, which is not modelled. */
  function Add(t: Instant, d: Duration): Instant {
    t + d
  }

  /** `a.Before(b)` */
  predicate Before(a: Instant, b: Instant) {
    a < b
  }

  /** `int64(x)` for a float64 `x`: Go converts toward zero. */
  function TruncateToInt(x: real): (i: int)
    ensures 0.0 <= x ==> i as real <= x < i as real + 1.0
    ensures x < 0.0 ==> i as real - 1.0 < x <= i as real
  {
    if 0.0 <= x then x.Floor else -((-x).Floor)
  }

  /** Converting a whole number to float64 and back gives it back. */
  lemma TruncateWhole(i: int)
    ensures TruncateToInt(i as real) == i
  {
  }

  /** Adding a duration `d` moves `Unix` by `d`'s whole seconds, or by
      one second more when the sub-second parts carry. */
  lemma UnixAddBounds(t: Instant, d: Duration)
    ensures Unix(t) + d / NanosPerSecond <= Unix(t + d) <= Unix(t) + d / NanosPerSecond + 1
    ensures d % NanosPerSecond == 0 ==> Unix(t + d) == Unix(t) + d / NanosPerSecond
  {
  }
}
