/** The exact value of a token found by the scanner, as `float(token)` reads it:
    an unsigned decimal numeral with an optional fractional part ("700", "81.5", "12."). */
module Decimal {
  import opened Scanner

  function Pow10(n: nat): (p: nat)
    ensures p >= 1
  {
    if n == 0 then 1 else 10 * Pow10(n - 1)
  }

  function DigitValue(c: char): (d: nat)
    requires IsDigit(c)
    ensures d <= 9
  {
    (c as int - '0' as int) as nat
  }

  /** The value of a string of decimal digits, most significant digit first. */
  function DigitsValue(t: string): (n: nat)
    requires AllDigits(t)
    ensures n < Pow10(|t|)
  {
    if t == [] then 0
    else
      var init := t[..|t| - 1];
      assert AllDigits(init) by {
        forall k | 0 <= k < |init| ensures IsDigit(init[k]) { assert init[k] == t[k]; }
      }
      var a := DigitsValue(init);
      var d := DigitValue(t[|t| - 1]);
      assert 10 * a + d < 10 * Pow10(|init|) by {
        assert a + 1 <= Pow10(|init|);
        assert 10 * (a + 1) <= 10 * Pow10(|init|);
      }
      10 * a + d
  }

  /** A run of digits ends where the first non-digit (or the end of the text) is. */
  lemma {:induction false} DigitRunEndAt(s: string, i: nat, p: nat)
    requires i <= p <= |s|
    requires forall k :: i <= k < p ==> IsDigit(s[k])
    requires p == |s| || !IsDigit(s[p])
    ensures DigitRunEnd(s, i) == p
    decreases p - i
  {
    if i < p { DigitRunEndAt(s, i + 1, p); }
  }

  /** A numeral is digits, then either nothing or a dot followed by digits; the first
      run of digits says which. */
  lemma NumeralShape(t: string)
    requires IsNumeral(t)
    ensures 0 < DigitRunEnd(t, 0) <= |t|
    ensures AllDigits(t[..DigitRunEnd(t, 0)])
    ensures DigitRunEnd(t, 0) < |t| ==> t[DigitRunEnd(t, 0)] == '.' && AllDigits(t[DigitRunEnd(t, 0) + 1..])
  {
    if AllDigits(t) {
      DigitRunEndAt(t, 0, |t|);
      assert t[..|t|] == t;
    } else {
      var p :| 0 < p < |t| && t[p] == '.' && AllDigits(t[..p]) && AllDigits(t[p + 1..]);
      assert forall k :: 0 <= k < p ==> IsDigit(t[k]) by {
        forall k | 0 <= k < p ensures IsDigit(t[k]) { assert t[k] == t[..p][k]; }
      }
      DigitRunEndAt(t, 0, p);
    }
  }

  /** The digits before the decimal point. */
  function IntegerDigits(t: string): (ds: string)
    requires IsNumeral(t)
    ensures AllDigits(ds) && 0 < |ds| <= |t|
  {
    NumeralShape(t);
    t[..DigitRunEnd(t, 0)]
  }

  /** The digits after the decimal point (none when there is no point). */
  function FractionDigits(t: string): (ds: string)
    requires IsNumeral(t)
    ensures AllDigits(ds) && |ds| < |t|
  {
    NumeralShape(t);
    var d := DigitRunEnd(t, 0);
    if d == |t| then [] else t[d + 1..]
  }

  /** `float(t)` for a numeral t, as an exact rational. */
  function DecimalValue(t: string): (v: real)
    requires IsNumeral(t)
  {
    var f := FractionDigits(t);
    DigitsValue(IntegerDigits(t)) as real + DigitsValue(f) as real / Pow10(|f|) as real
  }

  /** The value lies between its integer part and the next integer: the digits before
      the point are the floor of the value. */
  lemma IntegerPartIsFloor(t: string)
    requires IsNumeral(t)
    ensures DecimalValue(t).Floor == DigitsValue(IntegerDigits(t))
  {
    var f := FractionDigits(t);
    FractionBelowOne(DigitsValue(f), Pow10(|f|));
  }

  lemma FractionBelowOne(a: nat, p: nat)
    requires a < p
    ensures 0.0 <= a as real / p as real < 1.0
  {
    var q := a as real / p as real;
    assert q * p as real == a as real;
  }

  /** The decimal numeral of n, without leading zeros. */
  function NatNumeral(n: nat): (t: string)
    ensures 0 < |t| && AllDigits(t)
  {
    var c := ('0' as int + n % 10) as char;
    if n < 10 then [c] else NatNumeral(n / 10) + [c]
  }

  /** Reading back the numeral of n gives n. */
  lemma {:induction false} NatNumeralValue(n: nat)
    ensures IsNumeral(NatNumeral(n))
    ensures DecimalValue(NatNumeral(n)) == n as real
  {
    var t := NatNumeral(n);
    DigitsOfNatNumeral(n);
    DigitRunEndAt(t, 0, |t|);
    assert t[..|t|] == t;
  }

  lemma {:induction false} DigitsOfNatNumeral(n: nat)
    ensures DigitsValue(NatNumeral(n)) == n
  {
    var t := NatNumeral(n);
    if n >= 10 {
      DigitsOfNatNumeral(n / 10);
      assert t[..|t| - 1] == NatNumeral(n / 10);
    }
  }

  /** A trailing point adds nothing: `float("12.") == float("12")`. */
  lemma TrailingPoint(t: string)
    requires |t| > 0 && AllDigits(t)
    ensures IsNumeral(t) && IsNumeral(t + ".")
    ensures DecimalValue(t + ".") == DecimalValue(t)
  {
    var u := t + ".";
    assert u[..|t|] == t;
    assert u[|t| + 1..] == [];
    assert forall k :: 0 <= k < |t| ==> IsDigit(u[k]) by {
      forall k | 0 <= k < |t| ensures IsDigit(u[k]) { assert u[k] == t[k]; }
    }
    DigitRunEndAt(u, 0, |t|);
    DigitRunEndAt(t, 0, |t|);
    assert t[..|t|] == t;
  }

  /** The two numbers of a typical message read as their integer values. */
  lemma ValueExamples()
    ensures IsNumeral("700") && DecimalValue("700") == 700.0
    ensures IsNumeral("95") && DecimalValue("95") == 95.0
  {
    NatNumeralValue(700);
    assert NatNumeral(700) == "700";
    NatNumeralValue(95);
    assert NatNumeral(95) == "95";
  }

  /** Digits read in two pieces: the first piece counts in units of 10^|b|. */
  lemma {:induction false} DigitsValueAppend(a: string, b: string)
    requires AllDigits(a) && AllDigits(b)
    ensures AllDigits(a + b)
    ensures DigitsValue(a + b) == DigitsValue(a) * Pow10(|b|) + DigitsValue(b)
    decreases |b|
  {
    var ab := a + b;
    assert AllDigits(ab) by {
      forall k | 0 <= k < |ab| ensures IsDigit(ab[k]) {
        if k < |a| { assert ab[k] == a[k]; } else { assert ab[k] == b[k - |a|]; }
      }
    }
    if b == [] {
      assert ab == a;
    } else {
      var init := b[..|b| - 1];
      assert AllDigits(init) by {
        forall k | 0 <= k < |init| ensures IsDigit(init[k]) { assert init[k] == b[k]; }
      }
      assert ab[..|ab| - 1] == a + init;
      assert ab[|ab| - 1] == b[|b| - 1];
      DigitsValueAppend(a, init);
      var d := DigitValue(b[|b| - 1]);
      assert DigitsValue(ab) == 10 * DigitsValue(a + init) + d;
      assert DigitsValue(b) == 10 * DigitsValue(init) + d;
      ShiftDigit(DigitsValue(a), DigitsValue(init), d, Pow10(|init|));
    }
  }

  lemma ShiftDigit(x: nat, y: nat, d: nat, q: nat)
    ensures 10 * (x * q + y) + d == x * (10 * q) + (10 * y + d)
  {
  }

  /** The value of a numeral is the integer its digits spell once the point is dropped,
      divided by 10 to the number of fraction digits: `float("81.5") == 815 / 10`. */
  lemma DecimalScaled(t: string)
    requires IsNumeral(t)
    ensures AllDigits(IntegerDigits(t) + FractionDigits(t))
    ensures DecimalValue(t)
         == DigitsValue(IntegerDigits(t) + FractionDigits(t)) as real / Pow10(|FractionDigits(t)|) as real
  {
    var i, f := IntegerDigits(t), FractionDigits(t);
    var a, b, p := DigitsValue(i), DigitsValue(f), Pow10(|f|);
    DigitsValueAppend(i, f);
    ScaleFraction(DecimalValue(t), a, b, p, DigitsValue(i + f));
  }

  lemma ScaleFraction(v: real, a: nat, b: nat, p: nat, n: nat)
    requires p >= 1 && v == a as real + b as real / p as real && n == a * p + b
    ensures v == n as real / p as real
  {
    assert (a * p) as real == a as real * p as real;
    assert (a * p) as real / p as real == a as real;
  }

  /** Numerals with a fractional part read as their decimal values. */
  lemma FractionExamples()
    ensures IsNumeral("81.5") && DecimalValue("81.5") == 81.5
    ensures IsNumeral("0.05") && DecimalValue("0.05") == 0.05
  {
    var s, u := "81.5", "0.05";
    assert s[..2] == "81" && s[2] == '.' && s[3..] == "5";
    assert DigitRunEnd(s, 0) == 2;
    assert u[..1] == "0" && u[1] == '.' && u[2..] == "05";
    assert DigitRunEnd(u, 0) == 1;
  }
}
