/** Integer days and Python's rounding, as the pipeline uses them. */
module Numeric {

  /** Seconds in one day: timestamps are modelled as integer seconds. */
  const SecondsPerDay: int := 86400

  /** `Timedelta.days` of a span of `seconds`: whole days, rounded toward
      negative infinity (a span of minus one second is day -1). */
  function FloorDays(seconds: int): (d: int)
    ensures d * SecondsPerDay <= seconds < (d + 1) * SecondsPerDay
    ensures seconds >= 0 ==> d >= 0
    ensures seconds < 0 ==> d < 0
  {
    seconds / SecondsPerDay
  }

  /** Python's `round` (and numpy's): to the nearest integer, ties to the even one. */
  function RoundHalfEven(x: real): (r: int)
    ensures r as real - 0.5 <= x <= r as real + 0.5
    ensures (x == r as real - 0.5 || x == r as real + 0.5) ==> r % 2 == 0
  {
    var f := x.Floor;
    var frac := x - f as real;
    if frac < 0.5 then f
    else if frac > 0.5 then f + 1
    else if f % 2 == 0 then f
    else f + 1
  }

  /** The two ensures of RoundHalfEven pin its result down: no other integer
      is within one half of `x` with ties going to the even one. */
  lemma RoundHalfEvenUnique(x: real, r: int)
    requires r as real - 0.5 <= x <= r as real + 0.5
    requires (x == r as real - 0.5 || x == r as real + 0.5) ==> r % 2 == 0
    ensures RoundHalfEven(x) == r
  {
  }

  /** Rounding never reverses the order of two values. */
  lemma RoundHalfEvenMonotone(x: real, y: real)
    requires x <= y
    ensures RoundHalfEven(x) <= RoundHalfEven(y)
  {
    if x < y {
      var a, b := RoundHalfEven(x), RoundHalfEven(y);
      assert a as real <= x + 0.5 < y + 0.5 <= b as real + 1.0;
    }
  }

  /** A whole number rounds to itself. */
  lemma RoundHalfEvenOfInt(n: int)
    ensures RoundHalfEven(n as real) == n
  {
    RoundHalfEvenUnique(n as real, n);
  }
}
