/** Dotted parser versions and the order `compareVersions` puts them in. */
module Versions {
  import opened Sorting
  import opened Texts

  /** `Number(segment)` of a digit string; anything else counts as NaN. */
  datatype Number = NaN | Value(n: nat)

  function ToNumber(segment: string): Number {
    if AllDigits(segment) then Value(DigitsValue(segment)) else NaN
  }

  function Segments(version: string): (pieces: seq<string>)
    ensures |pieces| >= 1
  {
    Split(version, '.')
  }

  /** `Number(segments[index] ?? "0")`. */
  function Part(segments: seq<string>, index: nat): Number {
    if index < |segments| then ToNumber(segments[index]) else Value(0)
  }

  function WholeCompare(a: string, b: string): int {
    if a == b then 0 else if Before(a, b) then -1 else 1
  }

  function Max(a: nat, b: nat): nat {
    if a >= b then a else b
  }

  function CompareFrom(a: string, b: string, index: nat): int
    decreases Max(|Segments(a)|, |Segments(b)|) - index
  {
    if index >= Max(|Segments(a)|, |Segments(b)|) then 0
    else
      var x, y := Part(Segments(a), index), Part(Segments(b), index);
      if x.NaN? || y.NaN? then WholeCompare(a, b)
      else if x != y then x.n - y.n
      else CompareFrom(a, b, index + 1)
  }

  function Compare(a: string, b: string): int {
    CompareFrom(a, b, 0)
  }

  method CompareVersions(a: string, b: string) returns (r: int)
    ensures r == Compare(a, b)
  {
    var left, right := Segments(a), Segments(b);
    var length := Max(|left|, |right|);
    for index := 0 to length
      invariant Compare(a, b) == CompareFrom(a, b, index)
    {
      var x, y := Part(left, index), Part(right, index);
      if x.NaN? || y.NaN? {
        return WholeCompare(a, b);
      }
      if x != y {
        return x.n - y.n;
      }
    }
    r := 0;
  }

  // ----- numeric versions -----

  predicate Numeric(version: string) {
    forall i :: 0 <= i < |Segments(version)| ==> AllDigits(Segments(version)[i])
  }

  /** The number at `index`, with the zeros that pad a shorter version. */
  function NumberAt(version: string, index: nat): nat
    requires Numeric(version)
  {
    Part(Segments(version), index).n
  }

  /** The first place where two numeric versions differ. */
  ghost predicate FirstDifference(a: string, b: string, k: nat)
    requires Numeric(a) && Numeric(b)
  {
    NumberAt(a, k) != NumberAt(b, k) && forall j :: 0 <= j < k ==> NumberAt(a, j) == NumberAt(b, j)
  }

  lemma {:induction false} CompareFromMeaning(a: string, b: string, index: nat)
    requires Numeric(a) && Numeric(b)
    requires forall j :: 0 <= j < index ==> NumberAt(a, j) == NumberAt(b, j)
    ensures CompareFrom(a, b, index) == 0 ==> forall j :: 0 <= j ==> NumberAt(a, j) == NumberAt(b, j)
    ensures CompareFrom(a, b, index) != 0 ==>
              exists k :: 0 <= k && FirstDifference(a, b, k) && CompareFrom(a, b, index) == NumberAt(a, k) - NumberAt(b, k)
    decreases Max(|Segments(a)|, |Segments(b)|) - index
  {
    if index < Max(|Segments(a)|, |Segments(b)|) {
      if NumberAt(a, index) != NumberAt(b, index) {
        assert FirstDifference(a, b, index);
      } else {
        CompareFromMeaning(a, b, index + 1);
      }
    }
  }

  /** Numeric versions compare by their first differing number; they tie exactly when there is none. */
  lemma CompareMeaning(a: string, b: string)
    requires Numeric(a) && Numeric(b)
    ensures Compare(a, b) == 0 <==> forall j :: 0 <= j ==> NumberAt(a, j) == NumberAt(b, j)
    ensures forall k :: 0 <= k && FirstDifference(a, b, k) ==> Compare(a, b) == NumberAt(a, k) - NumberAt(b, k)
  {
    CompareFromMeaning(a, b, 0);
    forall k | 0 <= k && FirstDifference(a, b, k) ensures Compare(a, b) == NumberAt(a, k) - NumberAt(b, k) {
      assert Compare(a, b) != 0;
      var m :| 0 <= m && FirstDifference(a, b, m) && Compare(a, b) == NumberAt(a, m) - NumberAt(b, m);
      assert k == m;
    }
  }

  /** Swapping any two versions negates their comparison. */
  lemma CompareIsAntisymmetric(a: string, b: string)
    ensures Compare(b, a) == -Compare(a, b)
  {
    SwapNegatesFrom(a, b, 0);
  }

  lemma {:induction false} SwapNegatesFrom(a: string, b: string, index: nat)
    ensures CompareFrom(b, a, index) == -CompareFrom(a, b, index)
    decreases Max(|Segments(a)|, |Segments(b)|) - index
  {
    if index < Max(|Segments(a)|, |Segments(b)|) {
      var x, y := Part(Segments(a), index), Part(Segments(b), index);
      if x.NaN? || y.NaN? {
        SwapNegatesWhole(a, b);
      } else if x == y {
        SwapNegatesFrom(a, b, index + 1);
      }
    }
  }

  lemma SwapNegatesWhole(a: string, b: string)
    ensures WholeCompare(b, a) == -WholeCompare(a, b)
  {
    BeforeIsTotal(a, b);
  }

  lemma FirstDifferences(a: string, b: string, c: string, k: nat, m: nat)
    requires Numeric(a) && Numeric(b) && Numeric(c) && FirstDifference(a, b, k) && FirstDifference(b, c, m)
    requires NumberAt(a, k) > NumberAt(b, k) && NumberAt(b, m) > NumberAt(c, m)
    ensures var n := if k <= m then k else m; FirstDifference(a, c, n) && NumberAt(a, n) > NumberAt(c, n)
  {
  }

  lemma SameNumbers(a: string, b: string, c: string, k: nat)
    requires Numeric(a) && Numeric(b) && Numeric(c) && FirstDifference(a, b, k)
    ensures (forall j :: 0 <= j ==> NumberAt(b, j) == NumberAt(c, j)) ==>
              FirstDifference(a, c, k) && NumberAt(a, k) - NumberAt(c, k) == NumberAt(a, k) - NumberAt(b, k)
    ensures (forall j :: 0 <= j ==> NumberAt(c, j) == NumberAt(a, j)) ==>
              FirstDifference(c, b, k) && NumberAt(c, k) - NumberAt(b, k) == NumberAt(a, k) - NumberAt(b, k)
  {
  }

  /** Numeric versions are totally preordered. */
  lemma CompareIsTransitive(a: string, b: string, c: string)
    requires Numeric(a) && Numeric(b) && Numeric(c)
    requires Compare(a, b) >= 0 && Compare(b, c) >= 0
    ensures Compare(a, c) >= 0
    ensures Compare(a, b) > 0 || Compare(b, c) > 0 ==> Compare(a, c) > 0
  {
    CompareFromMeaning(a, b, 0);
    CompareFromMeaning(b, c, 0);
    CompareMeaning(a, c);
    if Compare(a, b) > 0 {
      var k :| 0 <= k && FirstDifference(a, b, k) && Compare(a, b) == NumberAt(a, k) - NumberAt(b, k);
      if Compare(b, c) > 0 {
        var m :| 0 <= m && FirstDifference(b, c, m) && Compare(b, c) == NumberAt(b, m) - NumberAt(c, m);
        FirstDifferences(a, b, c, k, m);
      } else {
        SameNumbers(a, b, c, k);
      }
    } else if Compare(b, c) > 0 {
      var m :| 0 <= m && FirstDifference(b, c, m) && Compare(b, c) == NumberAt(b, m) - NumberAt(c, m);
      SameNumbers(b, c, a, m);
    }
  }

  // ----- segments that are no numbers -----

  /** Every segment of the version is a number or one of `extra`. */
  predicate Over(extra: set<string>, version: string) {
    forall i :: 0 <= i < |Segments(version)| ==> AllDigits(Segments(version)[i]) || Segments(version)[i] in extra
  }

  predicate InOrder(a: string, b: string, c: string) {
    Compare(a, b) >= 0 && Compare(b, c) >= 0 ==> Compare(a, c) >= 0
  }

  /** The comparison orders all versions built from numbers and `extra`. */
  ghost predicate Ordered(extra: set<string>) {
    forall a, b, c :: Over(extra, a) && Over(extra, b) && Over(extra, c) ==> InOrder(a, b, c)
  }

  lemma {:induction false} SegmentsHaveNoDots(version: string, i: nat)
    requires i < |Segments(version)|
    ensures '.' !in Segments(version)[i]
  {
    if version != "" {
      var rest := Segments(version[1..]);
      if version[0] == '.' {
        if i > 0 {
          SegmentsHaveNoDots(version[1..], i - 1);
        }
      } else {
        SegmentsHaveNoDots(version[1..], i);
      }
    }
  }

  lemma {:induction false} NoDots(version: string)
    requires '.' !in version
    ensures Segments(version) == [version]
  {
    if version != "" {
      NoDots(version[1..]);
      assert [version[0]] + version[1..] == version;
    }
  }

  lemma SegmentsOfOneAnd(x: string)
    requires '.' !in x
    ensures Segments("01") == ["01"] && Segments("1") == ["1"] && Segments("01." + x) == ["01", x]
  {
    NoDots("01");
    NoDots("1");
    NoDots(x);
    var v := "01." + x;
    assert v[1..] == "1." + x && v[1..][1..] == "." + x && v[1..][1..][1..] == x;
    assert Segments("." + x) == ["", x];
    assert Segments("1." + x) == ["1", x];
  }

  /** Any segment `x` that is no number makes a cycle: 01 ties with 1, 1 is newer than 01.x, and 01.x than 01. */
  lemma NoNumberMakesCycle(x: string)
    requires '.' !in x && !AllDigits(x)
    ensures Segments("01") == ["01"] && Segments("1") == ["1"] && Segments("01." + x) == ["01", x]
    ensures Compare("01", "1") == 0 && Compare("1", "01." + x) > 0 && Compare("01." + x, "01") > 0
  {
    SegmentsOfOneAnd(x);
    assert "01"[..1] == "0" && "0"[..0] == "" && "1"[..0] == "";
    assert DigitsValue("0") == 0 && DigitsValue("01") == 1 && DigitsValue("1") == 1;
    var v := "01." + x;
    assert v[1..] == "1." + x && v[1..][1..] == "." + x && "01"[1..] == "1" && "1"[1..] == "";
    assert Before("01", v) && Before(v, "1");
    BeforeIsTotal("01", v);
    BeforeIsTotal("1", v);
    assert CompareFrom("1", v, 1) == WholeCompare("1", v) && CompareFrom(v, "01", 1) == WholeCompare(v, "01");
  }

  /** The versions built from numbers and further segments are ordered exactly when each of these is a number too. */
  lemma OrderedIff(extra: set<string>)
    ensures Ordered(extra) <==> forall x :: x in extra && '.' !in x ==> AllDigits(x)
  {
    if x :| x in extra && '.' !in x && !AllDigits(x) {
      NoNumberMakesCycle(x);
      CompareIsAntisymmetric("01." + x, "01");
      assert Over(extra, "01") && Over(extra, "1") && Over(extra, "01." + x);
      assert !InOrder("01", "1", "01." + x);
    } else {
      forall a, b, c | Over(extra, a) && Over(extra, b) && Over(extra, c) ensures InOrder(a, b, c) {
        OverIsNumeric(extra, a);
        OverIsNumeric(extra, b);
        OverIsNumeric(extra, c);
        if Compare(a, b) >= 0 && Compare(b, c) >= 0 {
          CompareIsTransitive(a, b, c);
        }
      }
    }
  }

  lemma OverIsNumeric(extra: set<string>, version: string)
    requires Over(extra, version) && forall x :: x in extra && '.' !in x ==> AllDigits(x)
    ensures Numeric(version)
  {
    forall i | 0 <= i < |Segments(version)| ensures AllDigits(Segments(version)[i]) {
      SegmentsHaveNoDots(version, i);
    }
  }

  /** With a non-numeric version in play the order has a cycle: 10 is newer than 9, 9 than 1x, and 1x than 10. */
  lemma MixedVersionsCycle()
    ensures Compare("10", "9") > 0 && Compare("9", "1x") > 0 && Compare("1x", "10") > 0
  {
    NoDots("10");
    NoDots("9");
    NoDots("1x");
    assert "10"[..1] == "1" && "1"[..0] == "" && "9"[..0] == "";
    assert DigitsValue("1") == 1 && DigitsValue("10") == 10 && DigitsValue("9") == 9;
    assert !IsDigit("1x"[1]);
    assert "10"[1..] == "0" && "1x"[1..] == "x";
    assert Before("1x", "9") && Before("10", "1x");
  }
}
