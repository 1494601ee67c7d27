/** Code-unit order of texts, and sorting by a key no two elements share. */
module Sorting {
  predicate Before(a: string, b: string) {
    if a == "" then b != ""
    else if b == "" then false
    else if a[0] != b[0] then a[0] < b[0]
    else Before(a[1..], b[1..])
  }

  lemma {:induction false} BeforeIsTotal(a: string, b: string)
    ensures Before(a, b) || a == b || Before(b, a)
    ensures !(Before(a, b) && Before(b, a)) && !Before(a, a)
  {
    if a != "" {
      BeforeIsTotal(a[1..], if b == "" then "" else b[1..]);
      if b != "" && a[0] == b[0] {
        assert a == [a[0]] + a[1..] && b == [b[0]] + b[1..];
      }
    }
  }

  lemma {:induction false} BeforeIsTransitive(a: string, b: string, c: string)
    requires Before(a, b) && Before(b, c)
    ensures Before(a, c)
  {
    if a != "" && a[0] == b[0] && b[0] == c[0] {
      BeforeIsTransitive(a[1..], b[1..], c[1..]);
    }
  }

  predicate DiffersAt(a: string, b: string, k: nat) {
    k < |a| && k < |b| && a[..k] == b[..k] && a[k] < b[k]
  }

  /** One text comes before another when it is a proper beginning of it, or smaller at the first difference. */
  lemma {:induction false} BeforeIff(a: string, b: string)
    ensures Before(a, b) <==> (a <= b && a != b) || exists k: nat :: DiffersAt(a, b, k)
  {
    if a != "" && b != "" {
      assert a == [a[0]] + a[1..] && b == [b[0]] + b[1..];
      if a[0] != b[0] {
        assert a[0] < b[0] ==> DiffersAt(a, b, 0);
      } else {
        BeforeIff(a[1..], b[1..]);
        if k: nat :| DiffersAt(a[1..], b[1..], k) {
          assert a[..k + 1] == [a[0]] + a[1..][..k] && b[..k + 1] == [b[0]] + b[1..][..k];
          assert DiffersAt(a, b, k + 1);
        }
        if k: nat :| DiffersAt(a, b, k) {
          assert a[1..][..k - 1] == a[..k][1..] && b[1..][..k - 1] == b[..k][1..];
          assert DiffersAt(a[1..], b[1..], k - 1);
        }
      }
    }
  }

  function KeySet<T>(xs: seq<T>, key: T -> string): set<string> {
    set i | 0 <= i < |xs| :: key(xs[i])
  }

  /** As many keys as elements. */
  predicate DistinctKeys<T>(xs: seq<T>, key: T -> string) {
    |KeySet(xs, key)| == |xs|
  }

  predicate Ordered<T>(xs: seq<T>, key: T -> string, i: int, j: int) {
    0 <= i < j < |xs| ==> Before(key(xs[i]), key(xs[j]))
  }

  ghost predicate Ascending<T>(xs: seq<T>, key: T -> string) {
    forall i, j :: Ordered(xs, key, i, j)
  }

  function Place<T>(x: T, sorted: seq<T>, key: T -> string): (placed: seq<T>)
    ensures multiset(placed) == multiset(sorted) + multiset{x}
  {
    if sorted == [] || Before(key(x), key(sorted[0])) then [x] + sorted
    else
      assert sorted == [sorted[0]] + sorted[1..];
      [sorted[0]] + Place(x, sorted[1..], key)
  }

  function SortBy<T>(xs: seq<T>, key: T -> string): (sorted: seq<T>)
    ensures multiset(sorted) == multiset(xs)
    ensures |sorted| == |xs|
  {
    if xs == [] then []
    else
      assert xs == [xs[0]] + xs[1..];
      assert |multiset(Place(xs[0], SortBy(xs[1..], key), key))| == |xs|;
      Place(xs[0], SortBy(xs[1..], key), key)
  }

  lemma {:induction false} KeySetSize<T>(xs: seq<T>, key: T -> string)
    ensures |KeySet(xs, key)| <= |xs|
    ensures DistinctKeys(xs, key) && xs != [] ==> DistinctKeys(xs[1..], key) && key(xs[0]) !in KeySet(xs[1..], key)
  {
    if xs != [] {
      var tail := xs[1..];
      KeySetSize(tail, key);
      assert KeySet(xs, key) == KeySet(tail, key) + {key(xs[0])} by {
        forall k | k in KeySet(xs, key) ensures k in KeySet(tail, key) + {key(xs[0])} {
          var i :| 0 <= i < |xs| && key(xs[i]) == k;
          assert i > 0 ==> key(tail[i - 1]) == k;
        }
        forall k | k in KeySet(tail, key) ensures k in KeySet(xs, key) {
          var i :| 0 <= i < |tail| && key(tail[i]) == k;
          assert key(xs[i + 1]) == k;
        }
      }
    }
  }

  /** As many keys as elements: no two elements share one. */
  lemma {:induction false} DistinctKeysDiffer<T>(xs: seq<T>, key: T -> string, i: nat, j: nat)
    requires DistinctKeys(xs, key) && i < j < |xs|
    ensures key(xs[i]) != key(xs[j])
  {
    KeySetSize(xs, key);
    var tail := xs[1..];
    if i == 0 {
      assert key(tail[j - 1]) in KeySet(tail, key);
    } else {
      DistinctKeysDiffer(tail, key, i - 1, j - 1);
    }
  }

  lemma {:induction false} DifferingKeysAreDistinct<T>(xs: seq<T>, key: T -> string)
    requires forall i, j :: 0 <= i < j < |xs| ==> key(xs[i]) != key(xs[j])
    ensures DistinctKeys(xs, key)
  {
    if xs != [] {
      var tail := xs[1..];
      DifferingKeysAreDistinct(tail, key);
      assert KeySet(xs, key) == KeySet(tail, key) + {key(xs[0])} by {
        forall k | k in KeySet(tail, key) ensures k in KeySet(xs, key) {
          var i :| 0 <= i < |tail| && key(tail[i]) == k;
          assert key(xs[i + 1]) == k;
        }
        forall k | k in KeySet(xs, key) ensures k in KeySet(tail, key) + {key(xs[0])} {
          var i :| 0 <= i < |xs| && key(xs[i]) == k;
          assert i > 0 ==> key(tail[i - 1]) == k;
        }
      }
      assert key(xs[0]) !in KeySet(tail, key);
    }
  }

  lemma AscendingAreDistinct<T>(xs: seq<T>, key: T -> string)
    requires Ascending(xs, key)
    ensures DistinctKeys(xs, key)
  {
    forall i, j | 0 <= i < j < |xs| ensures key(xs[i]) != key(xs[j]) {
      assert Ordered(xs, key, i, j);
      BeforeIsTotal(key(xs[i]), key(xs[j]));
    }
    DifferingKeysAreDistinct(xs, key);
  }

  lemma {:induction false} PlaceAscends<T>(x: T, sorted: seq<T>, key: T -> string)
    requires Ascending(sorted, key) && key(x) !in KeySet(sorted, key)
    ensures Ascending(Place(x, sorted, key), key)
  {
    var placed := Place(x, sorted, key);
    if sorted == [] {
    } else if Before(key(x), key(sorted[0])) {
      forall i, j | 0 <= i < j < |placed| ensures Ordered(placed, key, i, j) {
        if i > 0 {
          assert Ordered(sorted, key, i - 1, j - 1);
        } else if j > 1 {
          assert Ordered(sorted, key, 0, j - 1);
          BeforeIsTransitive(key(x), key(sorted[0]), key(sorted[j - 1]));
        }
      }
    } else {
      var head, tail := sorted[0], sorted[1..];
      BeforeIsTotal(key(x), key(head));
      assert key(head) in KeySet(sorted, key);
      TailAscends(sorted, key);
      assert forall i :: 0 <= i < |tail| ==> tail[i] == sorted[i + 1] && key(sorted[i + 1]) in KeySet(sorted, key);
      PlaceAscends(x, tail, key);
      var rest := Place(x, tail, key);
      assert placed == [head] + rest;
      forall i, j | 0 <= i < j < |placed| ensures Ordered(placed, key, i, j) {
        if i > 0 {
          assert Ordered(rest, key, i - 1, j - 1);
        } else {
          assert rest[j - 1] in multiset(rest);
          if rest[j - 1] != x {
            assert rest[j - 1] in multiset(tail);
            var k :| 0 <= k < |tail| && tail[k] == rest[j - 1];
            assert Ordered(sorted, key, 0, k + 1);
          }
        }
      }
    }
  }

  lemma TailAscends<T>(xs: seq<T>, key: T -> string)
    requires Ascending(xs, key) && xs != []
    ensures Ascending(xs[1..], key)
  {
    forall i, j | 0 <= i < j < |xs| - 1 ensures Ordered(xs[1..], key, i, j) {
      assert Ordered(xs, key, i + 1, j + 1);
    }
  }

  /** Sorting elements with distinct keys puts every earlier key strictly before every later one. */
  lemma {:induction false} SortByAscends<T>(xs: seq<T>, key: T -> string)
    requires DistinctKeys(xs, key)
    ensures Ascending(SortBy(xs, key), key)
  {
    if xs != [] {
      KeySetSize(xs, key);
      var sorted := SortBy(xs[1..], key);
      SortByAscends(xs[1..], key);
      SameKeys(sorted, xs[1..], key);
      PlaceAscends(xs[0], sorted, key);
    }
  }

  /** The same elements in another order have the same keys, and as many of them. */
  lemma SameKeys<T>(xs: seq<T>, ys: seq<T>, key: T -> string)
    requires multiset(xs) == multiset(ys)
    ensures KeySet(xs, key) == KeySet(ys, key)
    ensures |xs| == |ys|
    ensures DistinctKeys(xs, key) <==> DistinctKeys(ys, key)
  {
    assert |multiset(xs)| == |multiset(ys)|;
    forall k | k in KeySet(xs, key) ensures k in KeySet(ys, key) {
      var i :| 0 <= i < |xs| && key(xs[i]) == k;
      assert xs[i] in multiset(ys);
      var j :| 0 <= j < |ys| && ys[j] == xs[i];
    }
    forall k | k in KeySet(ys, key) ensures k in KeySet(xs, key) {
      var i :| 0 <= i < |ys| && key(ys[i]) == k;
      assert ys[i] in multiset(xs);
      var j :| 0 <= j < |xs| && xs[j] == ys[i];
    }
  }

  lemma SameLeast<T>(xs: seq<T>, ys: seq<T>, key: T -> string)
    requires Ascending(xs, key) && Ascending(ys, key) && xs != [] && multiset(xs) == multiset(ys)
    ensures ys != [] && xs[0] == ys[0]
  {
    assert xs[0] in multiset(ys);
    var i :| 0 <= i < |ys| && ys[i] == xs[0];
    assert ys[0] in multiset(xs);
    var j :| 0 <= j < |xs| && xs[j] == ys[0];
    assert Ordered(ys, key, 0, i) && Ordered(xs, key, 0, j);
    BeforeIsTotal(key(xs[0]), key(ys[0]));
  }

  /** Two ascending lists of the same elements are one list. */
  lemma {:induction false} AscendingIsUnique<T>(xs: seq<T>, ys: seq<T>, key: T -> string)
    requires Ascending(xs, key) && Ascending(ys, key) && multiset(xs) == multiset(ys)
    ensures xs == ys
  {
    if xs == [] {
      assert |multiset(ys)| == 0;
    } else {
      SameLeast(xs, ys, key);
      assert xs == [xs[0]] + xs[1..] && ys == [ys[0]] + ys[1..];
      assert multiset(xs[1..]) == multiset(xs) - multiset{xs[0]} == multiset(ys[1..]);
      TailAscends(xs, key);
      TailAscends(ys, key);
      AscendingIsUnique(xs[1..], ys[1..], key);
    }
  }

  /** Sorting forgets the order the elements came in. */
  lemma SortByIsCanonical<T>(xs: seq<T>, ys: seq<T>, key: T -> string)
    requires multiset(xs) == multiset(ys) && DistinctKeys(xs, key)
    ensures SortBy(xs, key) == SortBy(ys, key)
  {
    SameKeys(xs, ys, key);
    SortByAscends(xs, key);
    SortByAscends(ys, key);
    AscendingIsUnique(SortBy(xs, key), SortBy(ys, key), key);
  }

  /** Sorting again changes nothing. */
  lemma SortByIsIdempotent<T>(xs: seq<T>, key: T -> string)
    requires DistinctKeys(xs, key)
    ensures DistinctKeys(SortBy(xs, key), key)
    ensures SortBy(SortBy(xs, key), key) == SortBy(xs, key)
  {
    SameKeys(SortBy(xs, key), xs, key);
    SortByIsCanonical(SortBy(xs, key), xs, key);
  }
}
