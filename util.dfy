/**
 * Arithmetic helpers of the middleware: the clamp and rounding macros and the
 * monotonic-clock helpers (microsecond time points, elapsed-interval tests,
 * conversion from a POSIX timespec, time-unit constants).
 *
 * Time points are 64-bit microsecond counters in the source; they are plain
 * integers here (an overflow needs about 292000 years of uptime).
 */
module Util {

  // ---------------------------------------------------------------------
  // Clamp and rounding
  // ---------------------------------------------------------------------

  /** Distance on the number line. */
  function Dist(a: int, b: int): nat
  {
    if a <= b then b - a else a - b
  }

  /**
   * UTIL_CLAMP: `lo` below the range, `hi` above it, the value itself inside.
   * For a non-empty range the result is the point of [lo, hi] nearest to v.
   */
  function Clamp(v: int, lo: int, hi: int): (r: int)
    ensures lo <= hi ==> lo <= r <= hi
    ensures lo <= hi ==> forall x :: lo <= x <= hi ==> Dist(r, v) <= Dist(x, v)
  {
    if v < lo then lo else if v > hi then hi else v
  }

  /** Clamping twice to the same non-empty range changes nothing. */
  lemma ClampIdempotent(v: int, lo: int, hi: int)
    requires lo <= hi
    ensures Clamp(Clamp(v, lo, hi), lo, hi) == Clamp(v, lo, hi)
  {
  }

  /** A value already inside the range is returned unchanged. */
  lemma ClampInRange(v: int, lo: int, hi: int)
    requires lo <= v <= hi
    ensures Clamp(v, lo, hi) == v
  {
  }

  /** The C conversion of a real to an integer: truncation toward zero. */
  function TruncToInt(x: real): (r: int)
    ensures 0.0 <= x ==> r as real <= x < r as real + 1.0
    ensures x < 0.0 ==> r as real - 1.0 < x <= r as real
  {
    if x >= 0.0 then x.Floor else -((-x).Floor)
  }

  /** UTIL_ROUND: moves the value half a unit away from zero (before an integer cast). */
  function RoundAway(v: real): real
  {
    if v < 0.0 then v - 0.5 else v + 0.5
  }

  /**
   * UTIL_ROUND followed by the integer cast the macro's comment asks for:
   * the nearest integer, ties rounded away from zero.
   */
  function RoundHalfAway(v: real): (r: int)
    ensures RealDist(r as real, v) <= 0.5
    ensures RealDist(r as real, v) == 0.5 ==> Abs(r as real) > Abs(v)
  {
    TruncToInt(RoundAway(v))
  }

  function Abs(x: real): real
  {
    if x < 0.0 then -x else x
  }

  /** Distance on the real line. */
  function RealDist(a: real, b: real): real
  {
    Abs(a - b)
  }

  /** Rounding half away from zero is symmetric about zero. */
  lemma RoundHalfAwayOdd(v: real)
    ensures RoundHalfAway(-v) == -RoundHalfAway(v)
  {
  }

  // ---------------------------------------------------------------------
  // Clock helpers (namespace omw_::clock)
  // ---------------------------------------------------------------------

  const SecondS: int := 1
  const MinuteS: int := 60 * SecondS
  const HourS: int := 60 * MinuteS
  const DayS: int := 24 * HourS

  const SecondMs: int := SecondS * 1000
  const MinuteMs: int := MinuteS * 1000
  const HourMs: int := HourS * 1000
  const DayMs: int := DayS * 1000

  const SecondUs: int := SecondMs * 1000
  const MinuteUs: int := MinuteMs * 1000
  const HourUs: int := HourMs * 1000
  const DayUs: int := DayMs * 1000

  /** The unit constants: a minute is 60 s, an hour 60 min, a day 24 h, in every unit. */
  lemma UnitConstants()
    ensures SecondUs == 1000000 && SecondMs == 1000
    ensures MinuteUs == 60 * SecondUs && HourUs == 60 * MinuteUs && DayUs == 24 * HourUs
    ensures MinuteMs == 60 * SecondMs && HourMs == 60 * MinuteMs && DayMs == 24 * HourMs
    ensures MinuteS == 60 * SecondS && HourS == 60 * MinuteS && DayS == 24 * HourS
  {
  }

  /** `elapsed_us`: at least `intervalUs` microseconds lie between `lastUs` and `nowUs`. */
  function ElapsedUs(nowUs: int, lastUs: int, intervalUs: int): bool
  {
    nowUs - lastUs >= intervalUs
  }

  /** `elapsed_ms`: the same test with the interval given in milliseconds (a uint32). */
  function ElapsedMs(nowUs: int, lastUs: int, intervalMs: nat): bool
  {
    ElapsedUs(nowUs, lastUs, intervalMs * 1000)
  }

  /** Once an interval has elapsed it stays elapsed at every later time point. */
  lemma ElapsedStays(nowUs: int, laterUs: int, lastUs: int, intervalUs: int)
    requires ElapsedUs(nowUs, lastUs, intervalUs) && nowUs <= laterUs
    ensures ElapsedUs(laterUs, lastUs, intervalUs)
  {
  }

  /**
   * `elapsed_ms` counts whole milliseconds: the interval has elapsed exactly
   * when the completed milliseconds since `lastUs` reach it, and a longer
   * interval having elapsed implies every shorter one has.
   */
  lemma ElapsedMsWholeMillis(nowUs: int, lastUs: int, intervalMs: nat, shorterMs: nat)
    ensures ElapsedMs(nowUs, lastUs, intervalMs) <==> (nowUs - lastUs) / SecondMs >= intervalMs
    ensures shorterMs <= intervalMs && ElapsedMs(nowUs, lastUs, intervalMs) ==> ElapsedMs(nowUs, lastUs, shorterMs)
  {
  }

  /** C integer division by a positive divisor: truncation toward zero. */
  function TruncDiv(a: int, b: int): (q: int)
    requires b > 0
    ensures 0 <= a ==> q * b <= a < q * b + b
    ensures a < 0 ==> q * b - b < a <= q * b
  {
    if a >= 0 then a / b else -((-a) / b)
  }

  /** `fromTimespec`: seconds and nanoseconds to microseconds, the nanoseconds divided in C style. */
  function FromTimespec(sec: int, nsec: int): (us: int)
    ensures 0 <= nsec < 1000000000 ==> sec * SecondUs <= us < (sec + 1) * SecondUs
    ensures us == sec * 1000000 + TruncDiv(nsec, 1000)
  {
    sec * 1000000 + TruncDiv(nsec, 1000)
  }

  /** A negative nanosecond field is truncated toward zero, not floored: -1500 ns is -1 us. */
  lemma FromTimespecNegativeNanos()
    ensures FromTimespec(0, -1500) == -1
    ensures FromTimespec(2, 999999999) == 2999999
  {
  }
}
