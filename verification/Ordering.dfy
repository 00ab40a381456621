/** The code-point order Python sorts strings by, and what `sorted` promises about distinct keys. */
module Ordering {

  predicate StringLess(a: string, b: string) {
    b != [] && (a == [] || a[0] < b[0] || (a[0] == b[0] && StringLess(a[1..], b[1..])))
  }

  /** The texts agree up to `k`, where the first one ends or has the smaller character. */
  predicate LessAt(a: string, b: string, k: nat) {
    && k <= |a| && k < |b| && (k == |a| || a[k] < b[k])
    && forall j :: 0 <= j < k ==> a[j] == b[j]
  }

  lemma {:induction false} StringLessExactly(a: string, b: string)
    ensures StringLess(a, b) <==> exists k: nat :: LessAt(a, b, k)
  {
    if a == [] || b == [] || a[0] != b[0] {
      if StringLess(a, b) { assert LessAt(a, b, 0); }
    } else {
      StringLessExactly(a[1..], b[1..]);
      if k: nat :| LessAt(a[1..], b[1..], k) {
        assert forall j :: 0 < j <= k ==> a[j] == a[1..][j - 1] && b[j] == b[1..][j - 1];
        assert LessAt(a, b, k + 1);
      }
      if k: nat :| LessAt(a, b, k) {
        assert LessAt(a[1..], b[1..], k - 1);
      }
    }
  }

  lemma {:induction false} StringLessIsTotal(a: string, b: string)
    ensures a == b || StringLess(a, b) || StringLess(b, a)
  {
    if a != [] && b != [] && a[0] == b[0] {
      StringLessIsTotal(a[1..], b[1..]);
      assert a == [a[0]] + a[1..] && b == [b[0]] + b[1..];
    }
  }

  lemma {:induction false} StringLessIsTransitive(a: string, b: string, c: string)
    requires StringLess(a, b) && StringLess(b, c)
    ensures StringLess(a, c)
  {
    if a != [] && a[0] == b[0] == c[0] {
      StringLessIsTransitive(a[1..], b[1..], c[1..]);
    }
  }

  lemma {:induction false} StringLessIsIrreflexive(a: string)
    ensures !StringLess(a, a)
  {
    if a != [] {
      StringLessIsIrreflexive(a[1..]);
    }
  }

  ghost predicate StrictOrder<T(!new)>(less: (T, T) -> bool) {
    && (forall a :: !less(a, a))
    && (forall a, b, c :: less(a, b) && less(b, c) ==> less(a, c))
  }

  lemma {:induction false} StringLessIsStrict()
    ensures StrictOrder(StringLess)
  {
    forall a ensures !StringLess(a, a) { StringLessIsIrreflexive(a); }
    forall a, b, c | StringLess(a, b) && StringLess(b, c) ensures StringLess(a, c) { StringLessIsTransitive(a, b, c); }
  }

  /** Any two elements are ordered one way or the other. */
  ghost predicate Comparable<T>(xs: seq<T>, less: (T, T) -> bool) {
    forall i, j :: 0 <= i < j < |xs| ==> less(xs[i], xs[j]) || less(xs[j], xs[i])
  }

  ghost predicate Ascending<T>(xs: seq<T>, less: (T, T) -> bool) {
    forall i, j :: 0 <= i < j < |xs| ==> less(xs[i], xs[j])
  }

  /** Strictly ascending sequences with the same members are equal: sorting forgets the input order. */
  lemma {:induction false} AscendingIsUnique<T(!new)>(a: seq<T>, b: seq<T>, less: (T, T) -> bool)
    requires StrictOrder(less) && Ascending(a, less) && Ascending(b, less)
    requires forall x :: x in a <==> x in b
    ensures a == b
    decreases |a|
  {
    assert a != [] ==> a[0] in b;
    assert b != [] ==> b[0] in a;
    if a != [] && b != [] {
      assert a[0] == b[0] by {
        assert a[0] in b && b[0] in a;
        assert !less(a[0], b[0]) || !less(b[0], a[0]);
      }
      forall x ensures x in a[1..] <==> x in b[1..] {
        assert x in a <==> x == a[0] || x in a[1..];
        assert x in b <==> x == b[0] || x in b[1..];
        assert !less(a[0], a[0]);
      }
      AscendingIsUnique(a[1..], b[1..], less);
      assert a == [a[0]] + a[1..] && b == [b[0]] + b[1..];
    }
  }

  /** `sorted(xs)`, for pairwise different elements. */
  function Sorted<T>(xs: seq<T>, less: (T, T) -> bool): (ys: seq<T>) {
    if xs == [] then [] else Insert(xs[0], Sorted(xs[1..], less), less)
  }

  function Insert<T>(x: T, ys: seq<T>, less: (T, T) -> bool): (zs: seq<T>) {
    if ys == [] || less(x, ys[0]) then [x] + ys else [ys[0]] + Insert(x, ys[1..], less)
  }

  lemma {:induction false} InsertKeepsMembers<T(!new)>(x: T, ys: seq<T>, less: (T, T) -> bool)
    ensures multiset(Insert(x, ys, less)) == multiset(ys) + multiset{x}
    decreases |ys|
  {
    if ys != [] && !less(x, ys[0]) {
      InsertKeepsMembers(x, ys[1..], less);
      assert ys == [ys[0]] + ys[1..];
    }
  }

  lemma {:induction false} SortedKeepsLength<T(!new)>(xs: seq<T>, less: (T, T) -> bool)
    ensures |Sorted(xs, less)| == |xs|
  {
    if xs != [] {
      SortedKeepsLength(xs[1..], less);
      InsertLength(xs[0], Sorted(xs[1..], less), less);
    }
  }

  lemma {:induction false} InsertLength<T(!new)>(x: T, ys: seq<T>, less: (T, T) -> bool)
    ensures |Insert(x, ys, less)| == |ys| + 1
    decreases |ys|
  {
    if ys != [] { InsertLength(x, ys[1..], less); }
  }

  lemma {:induction false} AscendingTail<T(!new)>(first: T, tail: seq<T>, less: (T, T) -> bool)
    requires Ascending(tail, less) && forall y <- tail :: less(first, y)
    ensures Ascending([first] + tail, less)
  {
    var all := [first] + tail;
    forall i, j | 0 <= i < j < |all| ensures less(all[i], all[j]) {
      assert all[j] == tail[j - 1] && tail[j - 1] in tail;
      assert i > 0 ==> all[i] == tail[i - 1];
    }
  }

  lemma {:induction false} InsertKeeps<T(!new)>(x: T, ys: seq<T>, less: (T, T) -> bool)
    requires StrictOrder(less) && Ascending(ys, less)
    requires forall y <- ys :: less(x, y) || less(y, x)
    ensures Ascending(Insert(x, ys, less), less)
    ensures multiset(Insert(x, ys, less)) == multiset(ys) + multiset{x}
    decreases |ys|
  {
    InsertKeepsMembers(x, ys, less);
    if ys == [] || less(x, ys[0]) {
      forall y <- ys ensures less(x, y) {
        var j :| 0 <= j < |ys| && ys[j] == y;
        assert j > 0 ==> less(ys[0], ys[j]);
      }
      AscendingTail(x, ys, less);
    } else {
      var rest := ys[1..];
      var tail := Insert(x, rest, less);
      InsertKeeps(x, rest, less);
      forall y <- tail ensures less(ys[0], y) {
        assert y in multiset(tail);
        assert y == x || y in rest;
        if y in rest {
          var j :| 0 <= j < |rest| && rest[j] == y;
          assert ys[j + 1] == y;
        } else {
          assert ys[0] in ys;
        }
      }
      AscendingTail(ys[0], tail, less);
    }
  }

  lemma {:induction false} SortedSorts<T(!new)>(xs: seq<T>, less: (T, T) -> bool)
    requires StrictOrder(less) && Comparable(xs, less)
    ensures Ascending(Sorted(xs, less), less)
    ensures multiset(Sorted(xs, less)) == multiset(xs)
  {
    if xs != [] {
      SortedSorts(xs[1..], less);
      var tail := Sorted(xs[1..], less);
      forall y <- tail ensures less(xs[0], y) || less(y, xs[0]) {
        assert y in multiset(tail) && y in multiset(xs[1..]);
        var k :| 0 <= k < |xs[1..]| && xs[1..][k] == y;
        assert xs[k + 1] == y;
      }
      InsertKeeps(xs[0], tail, less);
      assert xs == [xs[0]] + xs[1..];
    }
  }

  // ---- Sorting the keys of a set ----

  ghost predicate Total<T(!new)>(less: (T, T) -> bool) {
    forall a, b :: a == b || less(a, b) || less(b, a)
  }

  /** `xs` lists the members of `s`, each once. */
  ghost predicate Lists<T(!new)>(xs: seq<T>, s: set<T>) {
    && (forall x :: x in xs <==> x in s)
    && (forall i, j :: 0 <= i < j < |xs| ==> xs[i] != xs[j])
  }

  ghost function AnyOrder<T(!new)>(s: set<T>): (xs: seq<T>)
    ensures Lists(xs, s)
  {
    if s == {} then []
    else
      var x :| x in s;
      var rest := AnyOrder(s - {x});
      assert forall y :: y in [x] + rest <==> y == x || y in rest;
      [x] + rest
  }

  /** The members of `s` in ascending order. */
  ghost function SortedKeys<T(!new)>(s: set<T>, less: (T, T) -> bool): seq<T> {
    Sorted(AnyOrder(s), less)
  }

  lemma {:induction false} SortedListing<T(!new)>(xs: seq<T>, s: set<T>, less: (T, T) -> bool)
    requires StrictOrder(less) && Total(less) && Lists(xs, s)
    ensures Ascending(Sorted(xs, less), less) && Lists(Sorted(xs, less), s)
  {
    SortedSorts(xs, less);
    var ys := Sorted(xs, less);
    forall x ensures x in ys <==> x in s {
      assert x in ys <==> x in multiset(ys);
      assert x in xs <==> x in multiset(xs);
    }
  }

  lemma {:induction false} SortingForgetsOrder<T(!new)>(xs: seq<T>, s: set<T>, less: (T, T) -> bool)
    requires StrictOrder(less) && Total(less) && Lists(xs, s)
    ensures Sorted(xs, less) == SortedKeys(s, less)
  {
    SortedListing(xs, s, less);
    SortedListing(AnyOrder(s), s, less);
    AscendingIsUnique(Sorted(xs, less), SortedKeys(s, less), less);
  }

  lemma {:induction false} ListingLength<T(!new)>(xs: seq<T>, s: set<T>)
    requires Lists(xs, s)
    ensures |xs| == |s|
    decreases |xs|
  {
    if xs == [] {
      assert s == {};
    } else {
      var n := |xs| - 1;
      assert xs[n] in xs;
      forall x ensures x in xs[..n] <==> x in s - {xs[n]} {
        assert x in xs <==> x in xs[..n] || x == xs[n];
      }
      ListingLength(xs[..n], s - {xs[n]});
    }
  }

  /** The records of a map in ascending key order: what `sorted(glob)` followed by reading each file yields. */
  ghost function InKeyOrder<K(!new), V>(m: map<K, V>, less: (K, K) -> bool): (records: seq<V>)
    requires StrictOrder(less) && Total(less)
    ensures |records| == |m|
  {
    SortedListing(AnyOrder(m.Keys), m.Keys, less);
    ListingLength(SortedKeys(m.Keys, less), m.Keys);
    var keys := SortedKeys(m.Keys, less);
    seq(|keys|, i requires 0 <= i < |keys| => m[keys[i]])
  }

  /** Keys that are only ever added determine the map from its records in key order. */
  lemma {:induction false} InKeyOrderTellsMap<K(!new), V(!new)>(m: map<K, V>, m': map<K, V>, less: (K, K) -> bool)
    requires StrictOrder(less) && Total(less) && m.Keys <= m'.Keys
    requires InKeyOrder(m, less) == InKeyOrder(m', less)
    ensures m == m'
  {
    hide StrictOrder, Total;
    SameSizeSameKeys(m.Keys, m'.Keys);
    SortedListing(AnyOrder(m.Keys), m.Keys, less);
    var keys := SortedKeys(m.Keys, less);
    forall k <- m ensures m[k] == m'[k] {
      assert k in keys;
      var i :| 0 <= i < |keys| && keys[i] == k;
      assert InKeyOrder(m, less)[i] == InKeyOrder(m', less)[i];
    }
  }

  lemma {:induction false} SameSizeSameKeys<K>(a: set<K>, b: set<K>)
    requires a <= b && |a| == |b|
    ensures a == b
  {
    assert b == a + (b - a);
  }

  method KeysInOrder<K(!new, ==)>(all: set<K>, less: (K, K) -> bool) returns (keys: seq<K>)
    requires StrictOrder(less) && Total(less)
    ensures keys == SortedKeys(all, less)
  {
    var found: seq<K> := [];
    var rest := all;
    while rest != {}
      invariant rest <= all && Lists(found, all - rest)
    {
      var k :| k in rest;
      found := found + [k];
      rest := rest - {k};
    }
    SortingForgetsOrder(found, all, less);
    keys := Sorted(found, less);
  }

  method ReadInKeyOrder<K(!new, ==), V>(m: map<K, V>, less: (K, K) -> bool) returns (records: seq<V>)
    requires StrictOrder(less) && Total(less)
    ensures records == InKeyOrder(m, less)
  {
    var keys := KeysInOrder(m.Keys, less);
    SortedListing(AnyOrder(m.Keys), m.Keys, less);
    records := [];
    for i := 0 to |keys|
      invariant |records| == i && forall j :: 0 <= j < i ==> keys[j] in m && records[j] == m[keys[j]]
    {
      assert keys[i] in m;
      records := records + [m[keys[i]]];
    }
  }
}
