/** Exact decimals shown as integer minor units, by string work only. */
module Decimal {
  import opened Texts
  import opened Wrappers

  /** `coefficient` times ten to the power of minus `scale`. */
  datatype ExactDecimal = ExactDecimal(coefficient: string, scale: nat)

  const DECIMAL_DIGIT_LIMIT := 4096

  predicate Negative(s: string) {
    s != "" && s[0] == '-'
  }

  function Magnitude(s: string): string {
    if Negative(s) then s[1..] else s
  }

  predicate IsCoefficient(s: string) {
    || s == "0"
    || (Magnitude(s) != "" && AllDigits(Magnitude(s)) && Magnitude(s)[0] != '0')
  }

  /** The canonical form: zero has scale zero, and a scaled coefficient does not end in a zero. */
  predicate ValidExactDecimal(d: ExactDecimal) {
    && IsCoefficient(d.coefficient)
    && |d.coefficient| <= DECIMAL_DIGIT_LIMIT + 1
    && d.scale <= DECIMAL_DIGIT_LIMIT
    && (d.coefficient == "0" ==> d.scale == 0)
    && (d.scale > 0 ==> d.coefficient[|d.coefficient| - 1] != '0')
  }

  /** The integer a sign and digits stand for. */
  function IntegerOf(s: string): int
    requires AllDigits(Magnitude(s))
  {
    if Negative(s) then 0 - DigitsValue(Magnitude(s)) else DigitsValue(s)
  }

  function MinorUnitExponent(unit: string): Option<nat> {
    if unit == "JPY" then Some(0)
    else if unit == "USD" || unit == "AUD" then Some(2)
    else None
  }

  function Zeros(n: nat): string {
    seq(n, _ => '0')
  }

  predicate AllZeros(s: string) {
    forall i :: 0 <= i < |s| ==> s[i] == '0'
  }

  /** The digits of the amount in units of ten to the minus `exponent`, when no place is lost. */
  function MinorDigits(digits: string, scale: nat, exponent: nat): Option<string> {
    if scale <= exponent then Some(digits + Zeros(exponent - scale))
    else
      var drop := scale - exponent;
      if |digits| <= drop || !AllZeros(digits[|digits| - drop..]) then None
      else Some(digits[..|digits| - drop])
  }

  function ReportAmountMinor(d: ExactDecimal, unit: string): Option<string> {
    var exponent := MinorUnitExponent(unit);
    if exponent.None? then None
    else
      var minor := MinorDigits(Magnitude(d.coefficient), d.scale, exponent.value);
      if minor.None? then None
      else Some(if Negative(d.coefficient) then "-" + minor.value else minor.value)
  }

  // ----- powers of ten and digit strings -----

  function Pow10(n: nat): (p: nat)
    ensures p >= 1
  {
    if n == 0 then 1 else 10 * Pow10(n - 1)
  }

  lemma {:induction false} Pow10Adds(m: nat, n: nat)
    ensures Pow10(m + n) == Pow10(m) * Pow10(n)
  {
    if m > 0 {
      Pow10Adds(m - 1, n);
      Tenfold(Pow10(m - 1), Pow10(n));
    }
  }

  lemma Tenfold(a: int, b: int)
    ensures 10 * (a * b) == (10 * a) * b == a * (10 * b)
  {
  }

  /** Writing digits after digits shifts the first by as many places. */
  lemma {:induction false} DigitsConcat(a: string, b: string)
    requires AllDigits(a) && AllDigits(b)
    ensures AllDigits(a + b) && DigitsValue(a + b) == DigitsValue(a) * Pow10(|b|) + DigitsValue(b)
  {
    if b == "" {
      assert a + b == a;
    } else {
      var front, last := b[..|b| - 1], b[|b| - 1];
      DigitsConcat(a, front);
      assert (a + b)[..|a + b| - 1] == a + front;
      assert (a + b)[|a + b| - 1] == last;
      Tenfold(DigitsValue(a), Pow10(|front|));
    }
  }

  lemma {:induction false} DigitsBounds(s: string)
    requires AllDigits(s)
    ensures DigitsValue(s) < Pow10(|s|)
    ensures DigitsValue(s) == 0 <==> AllZeros(s)
  {
    if s != "" {
      var front := s[..|s| - 1];
      DigitsBounds(front);
      assert forall i :: 0 <= i < |front| ==> front[i] == s[i];
      assert AllZeros(s) <==> AllZeros(front) && s[|s| - 1] == '0';
    }
  }

  lemma ZerosAreZero(n: nat)
    ensures |Zeros(n)| == n && AllDigits(Zeros(n)) && DigitsValue(Zeros(n)) == 0
  {
    DigitsBounds(Zeros(n));
  }

  lemma {:induction false} Pow10Grows(m: nat, n: nat)
    requires m <= n
    ensures Pow10(m) <= Pow10(n)
  {
    if m < n {
      Pow10Grows(m, n - 1);
    }
  }

  lemma MultipleBounds(k: int, p: nat)
    ensures k >= 1 ==> k * p >= p
    ensures k <= -1 ==> k * p <= 0 - p
  {
    if k >= 1 {
      assert (k - 1) * p >= 0;
      assert k * p == (k - 1) * p + p;
    } else if k <= -1 {
      assert (-k - 1) * p >= 0;
      assert k * p == 0 - (-k - 1) * p - p;
    }
  }

  /** A number below `p`, plus a multiple of `p`, is a multiple of `p` only when it is zero. */
  lemma RemainderIsUnique(q: nat, r: nat, p: nat, x: int)
    requires r < p && q * p + r == x * p
    ensures r == 0 && x == q
  {
    assert (x - q) * p == x * p - q * p;
    MultipleBounds(x - q, p);
  }

  /** `x` is the amount in minor units: `x / 10^exponent` is `digits / 10^scale`. */
  predicate IsMinor(x: int, digits: string, scale: nat, exponent: nat)
    requires AllDigits(digits)
  {
    x * Pow10(scale) == DigitsValue(digits) * Pow10(exponent)
  }

  lemma ShiftedValue(digits: string, n: nat)
    requires AllDigits(digits)
    ensures AllDigits(digits + Zeros(n)) && DigitsValue(digits + Zeros(n)) == DigitsValue(digits) * Pow10(n)
  {
    ZerosAreZero(n);
    DigitsConcat(digits, Zeros(n));
  }

  lemma SameProduct(w: int, v: int, p: int, q: int, r: int)
    requires w == v * p && r == p * q
    ensures w * q == v * r
  {
    assert (v * p) * q == v * (p * q);
  }

  lemma ShiftedIsMinor(w: int, digits: string, n: nat, scale: nat, exponent: nat)
    requires AllDigits(digits) && w == DigitsValue(digits) * Pow10(n) && exponent == n + scale
    ensures IsMinor(w, digits, scale, exponent)
  {
    Pow10Adds(n, scale);
    SameProduct(w, DigitsValue(digits), Pow10(n), Pow10(scale), Pow10(n + scale));
  }

  lemma WidenedIsMinor(digits: string, scale: nat, exponent: nat, n: nat)
    requires AllDigits(digits) && exponent == n + scale
    ensures AllDigits(digits + Zeros(n))
    ensures IsMinor(DigitsValue(digits + Zeros(n)), digits, scale, exponent)
  {
    ShiftedValue(digits, n);
    ShiftedIsMinor(DigitsValue(digits + Zeros(n)), digits, n, scale, exponent);
  }

  lemma Cancel(a: int, b: int, p: nat)
    requires p >= 1 && a * p == b * p
    ensures a == b
  {
    assert (a - b) * p == a * p - b * p;
    MultipleBounds(a - b, p);
  }

  /** With more places than the unit holds, an integer of minor units is the digits cut by the extra places. */
  lemma NarrowedIsMinor(digits: string, scale: nat, exponent: nat, x: int)
    requires AllDigits(digits) && scale > exponent
    ensures IsMinor(x, digits, scale, exponent) <==> x * Pow10(scale - exponent) == DigitsValue(digits)
  {
    var drop := scale - exponent;
    Pow10Adds(drop, exponent);
    var v, p, q := DigitsValue(digits), Pow10(drop), Pow10(exponent);
    assert x * (p * q) == (x * p) * q;
    if IsMinor(x, digits, scale, exponent) {
      Cancel(x * p, v, q);
    }
  }

  lemma NarrowedDigits(digits: string, drop: nat, x: int)
    requires AllDigits(digits) && drop < |digits|
    requires x * Pow10(drop) == DigitsValue(digits)
    ensures AllZeros(digits[|digits| - drop..])
  {
    var head, tail := digits[..|digits| - drop], digits[|digits| - drop..];
    assert digits == head + tail;
    DigitsConcat(head, tail);
    DigitsBounds(tail);
    RemainderIsUnique(DigitsValue(head), DigitsValue(tail), Pow10(drop), x);
  }

  lemma TooFewDigits(digits: string, drop: nat, x: int)
    requires AllDigits(digits) && |digits| <= drop && DigitsValue(digits) > 0
    ensures x * Pow10(drop) != DigitsValue(digits)
  {
    DigitsBounds(digits);
    Pow10Grows(|digits|, drop);
    var p := Pow10(drop);
    MultipleBounds(x, p);
    if x < 1 {
      assert x == 0 ==> x * p == 0;
    }
  }

  lemma NarrowedDigitsAreMinor(digits: string, scale: nat, exponent: nat)
    requires AllDigits(digits) && scale > exponent && scale - exponent < |digits|
    requires AllZeros(digits[|digits| - (scale - exponent)..])
    ensures IsMinor(DigitsValue(digits[..|digits| - (scale - exponent)]), digits, scale, exponent)
  {
    var drop := scale - exponent;
    var head, tail := digits[..|digits| - drop], digits[|digits| - drop..];
    assert digits == head + tail;
    DigitsConcat(head, tail);
    DigitsBounds(tail);
    NarrowedIsMinor(digits, scale, exponent, DigitsValue(head));
  }

  /** What the digits are cut or padded to is the exact amount. */
  lemma MinorDigitsAreExact(digits: string, scale: nat, exponent: nat)
    requires AllDigits(digits) && MinorDigits(digits, scale, exponent).Some?
    ensures AllDigits(MinorDigits(digits, scale, exponent).value)
    ensures IsMinor(DigitsValue(MinorDigits(digits, scale, exponent).value), digits, scale, exponent)
  {
    if scale <= exponent {
      WidenedIsMinor(digits, scale, exponent, exponent - scale);
    } else {
      NarrowedDigitsAreMinor(digits, scale, exponent);
    }
  }

  /** They are refused only when no integer is the amount, or when the amount is a zero with too many places. */
  lemma RefusedDigitsHaveNoMinor(digits: string, scale: nat, exponent: nat, x: int)
    requires AllDigits(digits) && DigitsValue(digits) > 0
    requires MinorDigits(digits, scale, exponent).None?
    ensures !IsMinor(x, digits, scale, exponent)
  {
    NarrowedIsMinor(digits, scale, exponent, x);
    var drop := scale - exponent;
    if |digits| <= drop {
      TooFewDigits(digits, drop, x);
    } else if x * Pow10(drop) == DigitsValue(digits) {
      NarrowedDigits(digits, drop, x);
    }
  }

  // ----- what the report shows -----

  /** `x` minor units are exactly the decimal. */
  predicate IsAmount(x: int, d: ExactDecimal, exponent: nat)
    requires IsCoefficient(d.coefficient)
  {
    x * Pow10(d.scale) == IntegerOf(d.coefficient) * Pow10(exponent)
  }

  lemma MagnitudeIsMinor(x: int, d: ExactDecimal, exponent: nat)
    requires IsCoefficient(d.coefficient)
    ensures IsAmount(x, d, exponent) <==>
            IsMinor(if Negative(d.coefficient) then -x else x, Magnitude(d.coefficient), d.scale, exponent)
  {
    var v: int, p: int, q: int := DigitsValue(Magnitude(d.coefficient)), Pow10(d.scale), Pow10(exponent);
    assert (-x) * p == -(x * p);
    assert (-v) * q == -(v * q);
  }

  lemma {:induction false} LeadingDigitIsNotLost(digits: string)
    requires digits != "" && AllDigits(digits) && digits[0] != '0'
    ensures DigitsValue(digits) > 0
  {
    DigitsBounds(digits);
  }

  /** What is shown is the amount to the last place, for either sign. */
  lemma ShownAmountIsExact(d: ExactDecimal, unit: string)
    requires IsCoefficient(d.coefficient) && ReportAmountMinor(d, unit).Some?
    ensures MinorUnitExponent(unit).Some?
    ensures AllDigits(Magnitude(ReportAmountMinor(d, unit).value))
    ensures IsAmount(IntegerOf(ReportAmountMinor(d, unit).value), d, MinorUnitExponent(unit).value)
  {
    var exponent := MinorUnitExponent(unit).value;
    var minor := MinorDigits(Magnitude(d.coefficient), d.scale, exponent).value;
    MinorDigitsAreExact(Magnitude(d.coefficient), d.scale, exponent);
    var shown := ReportAmountMinor(d, unit).value;
    assert Negative(d.coefficient) ==> shown[1..] == minor;
    assert !Negative(d.coefficient) && minor != "" ==> IsDigit(minor[0]);
    MagnitudeIsMinor(IntegerOf(shown), d, exponent);
  }

  /**
    Nothing is shown exactly when the unit is unknown, no integer of minor units is the amount, or the
    amount is a zero written with more places than the unit has.
  */
  lemma NothingShownIff(d: ExactDecimal, unit: string)
    requires IsCoefficient(d.coefficient)
    ensures ReportAmountMinor(d, unit).None? <==>
            || MinorUnitExponent(unit).None?
            || (if d.coefficient == "0" then d.scale > MinorUnitExponent(unit).value
                else forall x :: !IsAmount(x, d, MinorUnitExponent(unit).value))
  {
    if MinorUnitExponent(unit).Some? {
      var exponent := MinorUnitExponent(unit).value;
      if ReportAmountMinor(d, unit).Some? {
        ShownAmountIsExact(d, unit);
      } else if d.coefficient != "0" {
        LeadingDigitIsNotLost(Magnitude(d.coefficient));
        forall x ensures !IsAmount(x, d, exponent) {
          MagnitudeIsMinor(x, d, exponent);
          RefusedDigitsHaveNoMinor(Magnitude(d.coefficient), d.scale, exponent,
                                   if Negative(d.coefficient) then -x else x);
        }
      }
    }
  }

  /** A stored decimal is canonical, so for a known unit only its scale decides. */
  lemma CanonicalAmountShownIff(d: ExactDecimal, unit: string)
    requires ValidExactDecimal(d) && MinorUnitExponent(unit).Some?
    ensures ReportAmountMinor(d, unit).Some? <==> d.scale <= MinorUnitExponent(unit).value
  {
    var digits := Magnitude(d.coefficient);
    if d.scale > MinorUnitExponent(unit).value {
      assert digits[|digits| - 1] == d.coefficient[|d.coefficient| - 1];
      var drop := d.scale - MinorUnitExponent(unit).value;
      if drop < |digits| {
        var tail := digits[|digits| - drop..];
        assert tail[drop - 1] == digits[|digits| - 1];
      }
    }
  }
}
