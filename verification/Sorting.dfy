/** A stable sort by a real key, as the library sort the calibrators call. */
module Sorting {
  import opened RealSums

  function Insert<T>(sorted: seq<T>, x: T, key: T -> real): (r: seq<T>) {
    var k := |sorted| - 1;
    if sorted == [] || key(sorted[k]) <= key(x) then sorted + [x]
    else Insert(sorted[..k], x, key) + [sorted[k]]
  }

  function SortBy<T>(xs: seq<T>, key: T -> real): (r: seq<T>) {
    if xs == [] then [] else Insert(SortBy(xs[..|xs| - 1], key), xs[|xs| - 1], key)
  }

  ghost predicate OrderedBy<T>(xs: seq<T>, key: T -> real) {
    forall i, j :: 0 <= i <= j < |xs| ==> key(xs[i]) <= key(xs[j])
  }

  /** The elements with one key, in their order. */
  function WithKey<T>(xs: seq<T>, key: T -> real, t: real): (r: seq<T>) {
    if xs == [] then []
    else WithKey(xs[..|xs| - 1], key, t) + (if key(xs[|xs| - 1]) == t then [xs[|xs| - 1]] else [])
  }

  lemma {:induction false} InsertElements<T>(sorted: seq<T>, x: T, key: T -> real)
    ensures multiset(Insert(sorted, x, key)) == multiset(sorted) + multiset{x}
  {
    var k := |sorted| - 1;
    if sorted != [] && key(sorted[k]) > key(x) {
      InsertElements(sorted[..k], x, key);
      assert sorted == sorted[..k] + [sorted[k]];
    }
  }

  lemma {:induction false} InsertOrders<T>(sorted: seq<T>, x: T, key: T -> real, bound: real)
    requires OrderedBy(sorted, key) && key(x) <= bound
    requires forall i :: 0 <= i < |sorted| ==> key(sorted[i]) <= bound
    ensures OrderedBy(Insert(sorted, x, key), key)
    ensures forall i :: 0 <= i < |Insert(sorted, x, key)| ==> key(Insert(sorted, x, key)[i]) <= bound
  {
    var k := |sorted| - 1;
    if sorted != [] && key(sorted[k]) > key(x) {
      InsertOrders(sorted[..k], x, key, key(sorted[k]));
    }
  }

  lemma WithKeySnoc<T>(xs: seq<T>, x: T, key: T -> real, t: real)
    ensures WithKey(xs + [x], key, t) == WithKey(xs, key, t) + (if key(x) == t then [x] else [])
  {
    assert (xs + [x])[..|xs|] == xs;
  }

  lemma {:induction false} InsertStable<T>(sorted: seq<T>, x: T, key: T -> real, t: real)
    ensures WithKey(Insert(sorted, x, key), key, t) == WithKey(sorted, key, t) + (if key(x) == t then [x] else [])
  {
    hide WithKey;
    var k := |sorted| - 1;
    WithKeySnoc(sorted, x, key, t);
    if sorted != [] && key(sorted[k]) > key(x) {
      InsertStable(sorted[..k], x, key, t);
      WithKeySnoc(Insert(sorted[..k], x, key), sorted[k], key, t);
      WithKeySnoc(sorted[..k], sorted[k], key, t);
      assert sorted == sorted[..k] + [sorted[k]];
    }
  }

  lemma {:induction false} SortElements<T>(xs: seq<T>, key: T -> real)
    ensures multiset(SortBy(xs, key)) == multiset(xs)
  {
    hide Insert;
    if xs != [] {
      var n := |xs| - 1;
      SortElements(xs[..n], key);
      InsertElements(SortBy(xs[..n], key), xs[n], key);
      assert xs == xs[..n] + [xs[n]];
    }
  }

  lemma {:induction false} SortOrders<T>(xs: seq<T>, key: T -> real)
    ensures OrderedBy(SortBy(xs, key), key)
  {
    hide Insert;
    if xs != [] {
      var n := |xs| - 1;
      SortOrders(xs[..n], key);
      var sorted, x := SortBy(xs[..n], key), xs[n];
      InsertOrders(sorted, x, key, if sorted == [] then key(x) else Max(key(sorted[|sorted| - 1]), key(x)));
    }
  }

  lemma {:induction false} SortStable<T>(xs: seq<T>, key: T -> real, t: real)
    ensures WithKey(SortBy(xs, key), key, t) == WithKey(xs, key, t)
  {
    hide Insert;
    if xs != [] {
      var n := |xs| - 1;
      SortStable(xs[..n], key, t);
      InsertStable(SortBy(xs[..n], key), xs[n], key, t);
    }
  }

  lemma InsertLast<T>(sorted: seq<T>, x: T, key: T -> real)
    requires sorted != [] ==> key(sorted[|sorted| - 1]) <= key(x)
    ensures Insert(sorted, x, key) == sorted + [x]
  {}

  /** Sorting a sorted list changes nothing. */
  lemma {:induction false} SortSorted<T>(xs: seq<T>, key: T -> real)
    requires OrderedBy(xs, key)
    ensures SortBy(xs, key) == xs
  {
    hide Insert;
    if xs != [] {
      var n := |xs| - 1;
      SortSorted(xs[..n], key);
      if n > 0 { assert key(xs[n - 1]) <= key(xs[n]); }
      InsertLast(xs[..n], xs[n], key);
      assert xs == xs[..n] + [xs[n]];
    }
  }

  /** Two elements of one key keep their order among the elements of that key. */
  lemma {:induction false} PairKept<T>(xs: seq<T>, key: T -> real, t: real, b: nat, c: nat) returns (i: nat, j: nat)
    requires b < c < |xs| && key(xs[b]) == key(xs[c]) == t
    ensures i < j < |WithKey(xs, key, t)|
    ensures WithKey(xs, key, t)[i] == xs[b] && WithKey(xs, key, t)[j] == xs[c]
  {
    var n := |xs| - 1;
    if c < n {
      i, j := PairKept(xs[..n], key, t, b, c);
    } else {
      i := OneKept(xs[..n], key, t, b);
      j := |WithKey(xs[..n], key, t)|;
    }
  }

  lemma {:induction false} OneKept<T>(xs: seq<T>, key: T -> real, t: real, b: nat) returns (i: nat)
    requires b < |xs| && key(xs[b]) == t
    ensures i < |WithKey(xs, key, t)| && WithKey(xs, key, t)[i] == xs[b]
  {
    var n := |xs| - 1;
    if b < n {
      i := OneKept(xs[..n], key, t, b);
    } else {
      i := |WithKey(xs[..n], key, t)|;
    }
  }

  /** And the other way: a pair among the elements of one key stands in that order in the list. */
  lemma {:induction false} PairFound<T>(xs: seq<T>, key: T -> real, t: real, i: nat, j: nat) returns (b: nat, c: nat)
    requires i < j < |WithKey(xs, key, t)|
    ensures b < c < |xs| && key(xs[b]) == key(xs[c]) == t
    ensures WithKey(xs, key, t)[i] == xs[b] && WithKey(xs, key, t)[j] == xs[c]
    decreases |xs|
  {
    var n := |xs| - 1;
    if j < |WithKey(xs[..n], key, t)| {
      b, c := PairFound(xs[..n], key, t, i, j);
    } else {
      b := OneFound(xs[..n], key, t, i);
      c := n;
    }
  }

  lemma {:induction false} OneFound<T>(xs: seq<T>, key: T -> real, t: real, i: nat) returns (b: nat)
    requires i < |WithKey(xs, key, t)|
    ensures b < |xs| && key(xs[b]) == t && WithKey(xs, key, t)[i] == xs[b]
    decreases |xs|
  {
    var n := |xs| - 1;
    if i < |WithKey(xs[..n], key, t)| {
      b := OneFound(xs[..n], key, t, i);
    } else {
      b := n;
    }
  }

  // ----- One order -----

  lemma LastIsLargest<T>(a: seq<T>, b: seq<T>, key: T -> real)
    requires OrderedBy(a, key) && multiset(a) == multiset(b) && a != [] && b != []
    ensures key(b[|b| - 1]) <= key(a[|a| - 1])
  {
    var x := b[|b| - 1];
    assert x in multiset(a);
    var k :| 0 <= k < |a| && a[k] == x;
  }

  ghost predicate SameKeys<T>(a: seq<T>, b: seq<T>, key: T -> real) {
    |a| == |b| && forall i :: 0 <= i < |a| ==> key(a[i]) == key(b[i])
  }

  /** Dropping one of the largest elements leaves the keys before the last as they were. */
  lemma DropLargest<T>(b: seq<T>, key: T -> real, i: nat)
    requires OrderedBy(b, key) && i < |b| && key(b[|b| - 1]) <= key(b[i])
    ensures OrderedBy(b[..i] + b[i + 1..], key) && SameKeys(b[..i] + b[i + 1..], b[..|b| - 1], key)
  {
    var rest := b[..i] + b[i + 1..];
    forall j | 0 <= j < |rest| ensures key(rest[j]) == key(b[j]) {
      if j >= i {
        assert rest[j] == b[j + 1];
        assert key(b[i]) <= key(b[j]) <= key(b[j + 1]) <= key(b[|b| - 1]);
      }
    }
  }

  lemma SameKeysSnoc<T>(a: seq<T>, rest: seq<T>, b: seq<T>, key: T -> real)
    requires a != [] && b != [] && key(a[|a| - 1]) == key(b[|b| - 1])
    requires SameKeys(a[..|a| - 1], rest, key) && SameKeys(rest, b[..|b| - 1], key)
    ensures SameKeys(a, b, key)
  {
    var n := |a| - 1;
    forall i | 0 <= i < n ensures key(a[i]) == key(b[i]) {
      assert key(a[..n][i]) == key(rest[i]) == key(b[..n][i]);
    }
  }

  lemma PrefixOrdered<T>(a: seq<T>, key: T -> real, n: nat)
    requires OrderedBy(a, key) && n <= |a|
    ensures OrderedBy(a[..n], key)
  {}

  /** Two sorted arrangements of the same elements show the same keys. */
  lemma {:induction false} SortedKeysAgree<T>(a: seq<T>, b: seq<T>, key: T -> real)
    requires OrderedBy(a, key) && OrderedBy(b, key) && multiset(a) == multiset(b)
    ensures SameKeys(a, b, key)
  {
    hide OrderedBy, SameKeys;
    assert |multiset(a)| == |a| && |multiset(b)| == |b|;
    if a == [] {
      NoKeys(a, b, key);
    } else {
      var n := |a| - 1;
      var i := FindLast(a, b);
      LastIsLargest(a, b, key);
      LastIsLargest(b, a, key);
      DropLargest(b, key, i);
      PrefixOrdered(a, key, n);
      SortedKeysAgree(a[..n], b[..i] + b[i + 1..], key);
      SameKeysSnoc(a, b[..i] + b[i + 1..], b, key);
    }
  }

  lemma NoKeys<T>(a: seq<T>, b: seq<T>, key: T -> real)
    requires a == [] && b == []
    ensures SameKeys(a, b, key)
  {}

  lemma StrictlyBelow<T>(a: seq<T>, key: T -> real, i: nat, j: nat)
    requires OrderedBy(a, key) && (forall k :: 0 < k < |a| ==> key(a[k - 1]) != key(a[k]))
    requires i < j < |a|
    ensures key(a[i]) < key(a[j])
  {
    assert key(a[i]) <= key(a[j - 1]) <= key(a[j]);
  }

  /** With distinct keys the sorted arrangement is unique. */
  lemma SortedUnique<T>(a: seq<T>, b: seq<T>, key: T -> real)
    requires OrderedBy(a, key) && OrderedBy(b, key) && multiset(a) == multiset(b)
    requires forall i :: 0 < i < |a| ==> key(a[i - 1]) != key(a[i])
    ensures a == b
  {
    SortedKeysAgree(a, b, key);
    forall i, j | 0 <= i < j < |a| ensures key(a[i]) < key(a[j]) {
      StrictlyBelow(a, key, i, j);
    }
    forall i | 0 <= i < |a| ensures a[i] == b[i] {
      assert b[i] in multiset(a);
      var j :| 0 <= j < |a| && a[j] == b[i];
      assert i == j;
    }
  }
}
