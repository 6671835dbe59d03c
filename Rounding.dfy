/** Rounding to the nearest integer with ties to the even neighbour: Python's `round(x)`
    on a float and the numpy rounding behind pandas `Series.round()` both work this way. */
module Rounding {

  /** n is a nearest integer to x, and the even one when x lies halfway between two. */
  predicate IsHalfEvenRounding(x: real, n: int) {
    && -0.5 <= x - n as real <= 0.5
    && (x - n as real == 0.5 || x - n as real == -0.5 ==> n % 2 == 0)
  }

  function RoundHalfEven(x: real): (n: int)
    ensures IsHalfEvenRounding(x, n)
  {
    var f := x.Floor;
    var diff := x - f as real;
    if diff < 0.5 then f
    else if diff > 0.5 then f + 1
    else if f % 2 == 0 then f
    else f + 1
  }

  /** The rounding rule admits one result only, so RoundHalfEven is the rule itself. */
  lemma HalfEvenRoundingUnique(x: real, m: int)
    requires IsHalfEvenRounding(x, m)
    ensures m == RoundHalfEven(x)
  {
    var n := RoundHalfEven(x);
    assert -1 <= m - n <= 1;
    assert m - n == 1 ==> x - m as real == -0.5 && x - n as real == 0.5;
    assert m - n == -1 ==> x - m as real == 0.5 && x - n as real == -0.5;
  }

  /** Values on either side of an integer, within a half, round to it. */
  lemma RoundExamples()
    ensures RoundHalfEven(700.4) == 700 && RoundHalfEven(699.6) == 700
    ensures RoundHalfEven(700.5) == 700 && RoundHalfEven(701.5) == 702
    ensures RoundHalfEven(-0.5) == 0
  {
    HalfEvenRoundingUnique(700.4, 700);
    HalfEvenRoundingUnique(699.6, 700);
    HalfEvenRoundingUnique(700.5, 700);
    HalfEvenRoundingUnique(701.5, 702);
    HalfEvenRoundingUnique(-0.5, 0);
  }
}
