/** Finite sums of reals, and the few facts about them the numerical kernels need. */
module RealSums {

  function Abs(x: real): (r: real) { if x < 0.0 then -x else x }

  function Max(x: real, y: real): (r: real) { if x < y then y else x }

  function Min(a: nat, b: nat): (r: nat) { if a < b then a else b }

  /** Multiplication under a name, so that a proof may hide it and reason by its laws alone. */
  function Times(x: real, y: real): (r: real) { x * y }

  function Square(x: real): (r: real) { x * x }

  /** Division under a name, for the same reason. */
  function Ratio(x: real, y: real): (r: real)
    requires y != 0.0
  {
    x / y
  }

  lemma ProductPositive(a: real, b: real)
    requires a > 0.0 && b > 0.0
    ensures Times(a, b) > 0.0
  {}

  lemma TimesMonotone(k: real, p: real, q: real)
    requires k > 0.0 && p <= q
    ensures Times(k, p) <= Times(k, q)
    ensures p < q ==> Times(k, p) < Times(k, q)
    ensures Times(k, 0.0) == 0.0 && Times(k, 1.0) == k
  {
    if p < q { ProductPositive(k, q - p); }
  }

  lemma ProductNonNegative(a: real, b: real)
    requires a >= 0.0 && b >= 0.0
    ensures Times(a, b) >= 0.0
  {}

  lemma SquareSign(x: real)
    ensures Square(x) >= 0.0
    ensures x != 0.0 ==> Square(x) > 0.0
  {
    if x > 0.0 { ProductPositive(x, x); } else if x < 0.0 { ProductPositive(-x, -x); }
  }

  lemma ZeroProduct(x: real)
    ensures Times(x, 0.0) == 0.0
  {}

  lemma UnitProduct(x: real)
    ensures Times(1.0, x) == x
  {}

  lemma TimesDistributes(a: real, b: real, t: real)
    ensures Times(a + b, t) == Times(a, t) + Times(b, t)
    ensures Times(0.0, t) == 0.0
  {}

  lemma TimesOverSum(m: real, a: real, b: real)
    ensures Times(m, a + b) == Times(m, a) + Times(m, b)
    ensures Times(m, 0.0) == 0.0
  {}

  lemma SquareOfSum(d: real, e: real)
    ensures Square(d + e) == Square(d) + 2.0 * Times(d, e) + Square(e)
  {
    assert (d + e) * (d + e) == d * d + 2.0 * (d * e) + e * e;
  }

  lemma RatioCancels(x: real, y: real)
    requires y > 0.0
    ensures Times(Ratio(x, y), y) == x
  {}

  /** Multiplying by a positive factor keeps order and equality, both ways. */
  lemma FactorOrder(x: real, y: real, b: real)
    requires b > 0.0
    ensures x <= y <==> Times(x, b) <= Times(y, b)
    ensures x == y <==> Times(x, b) == Times(y, b)
  {
    hide Times;
    TimesDistributes(y, x - y, b);
    TimesDistributes(x, y - x, b);
    assert y + (x - y) == x && x + (y - x) == y;
    if x > y { ProductPositive(x - y, b); }
    if x < y { ProductPositive(y - x, b); }
  }

  lemma RatioPlus(x: real, y: real, z: real)
    requires z > 0.0
    ensures Ratio(x + y, z) == Ratio(x, z) + Ratio(y, z)
  {}

  function Sum(s: seq<real>): (r: real) {
    if s == [] then 0.0 else Sum(s[..|s| - 1]) + s[|s| - 1]
  }

  lemma SumSnoc(s: seq<real>, x: real)
    ensures Sum(s + [x]) == Sum(s) + x
  {
    assert (s + [x])[..|s|] == s;
  }

  lemma {:induction false} SumConcat(a: seq<real>, b: seq<real>)
    ensures Sum(a + b) == Sum(a) + Sum(b)
  {
    if b == [] {
      assert a + b == a;
    } else {
      SumConcat(a, b[..|b| - 1]);
      assert (a + b)[..|a + b| - 1] == a + b[..|b| - 1];
    }
  }

  /** A pointwise linear combination sums to the same combination of the sums. */
  lemma {:induction false} SumLinear(a: seq<real>, b: seq<real>, c: seq<real>, k: real, l: real)
    requires |a| == |b| == |c|
    requires forall i :: 0 <= i < |c| ==> c[i] == k * a[i] + l * b[i]
    ensures Sum(c) == k * Sum(a) + l * Sum(b)
  {
    if c != [] {
      var n := |c| - 1;
      SumLinear(a[..n], b[..n], c[..n], k, l);
    }
  }

  lemma {:induction false} SumScale(a: seq<real>, c: seq<real>, k: real)
    requires |a| == |c|
    requires forall i :: 0 <= i < |c| ==> c[i] == k * a[i]
    ensures Sum(c) == k * Sum(a)
  {
    SumLinear(a, a, c, k, 0.0);
  }

  lemma {:induction false} SumMonotone(a: seq<real>, b: seq<real>)
    requires |a| == |b|
    requires forall i :: 0 <= i < |a| ==> a[i] <= b[i]
    ensures Sum(a) <= Sum(b)
  {
    if a != [] {
      SumMonotone(a[..|a| - 1], b[..|b| - 1]);
    }
  }

  lemma {:induction false} SumNonNegative(a: seq<real>)
    requires forall i :: 0 <= i < |a| ==> a[i] >= 0.0
    ensures Sum(a) >= 0.0
  {
    if a != [] {
      SumNonNegative(a[..|a| - 1]);
    }
  }

  lemma {:induction false} SumPositive(a: seq<real>)
    requires a != []
    requires forall i :: 0 <= i < |a| ==> a[i] > 0.0
    ensures Sum(a) > 0.0
  {
    SumNonNegative(a[..|a| - 1]);
  }

  lemma {:induction false} SumUpdate(s: seq<real>, i: nat, v: real)
    requires i < |s|
    ensures Sum(s[i := v]) == Sum(s) - s[i] + v
  {
    var n := |s| - 1;
    if i == n {
      assert s[i := v][..n] == s[..n];
    } else {
      SumUpdate(s[..n], i, v);
      assert s[i := v][..n] == s[..n][i := v];
    }
  }

  /** Where the last element of one arrangement sits in another, and what is left without it. */
  lemma FindLast<T>(a: seq<T>, b: seq<T>) returns (i: nat)
    requires a != []
    requires multiset(a) == multiset(b)
    ensures i < |b| && b[i] == a[|a| - 1]
    ensures b == b[..i] + [b[i]] + b[i + 1..]
    ensures multiset(a[..|a| - 1]) == multiset(b[..i] + b[i + 1..])
  {
    var n := |a| - 1;
    var x := a[n];
    assert a == a[..n] + [x];
    assert x in multiset(b);
    i :| 0 <= i < |b| && b[i] == x;
    assert b == b[..i] + [x] + b[i + 1..];
    calc {
      multiset(a[..n]);
      multiset(a[..n] + [x]) - multiset{x};
      multiset(b[..i] + [x] + b[i + 1..]) - multiset{x};
      multiset(b[..i]) + multiset(b[i + 1..]);
    }
  }

  /** A sum depends only on the multiset of its terms. */
  lemma {:induction false} SumPermutation(a: seq<real>, b: seq<real>)
    requires multiset(a) == multiset(b)
    ensures Sum(a) == Sum(b)
  {
    if a == [] {
      assert |multiset(b)| == 0;
    } else {
      var i := FindLast(a, b);
      var front, back := b[..i], b[i + 1..];
      SumPermutation(a[..|a| - 1], front + back);
      SumConcat(front, back);
      SumConcat(front + [b[i]], back);
      SumSnoc(front, b[i]);
    }
  }

  function SumSquares(ws: seq<real>): (r: real) {
    if ws == [] then 0.0 else SumSquares(ws[..|ws| - 1]) + Square(ws[|ws| - 1])
  }

  lemma {:induction false} SumSquaresConcat(a: seq<real>, b: seq<real>)
    ensures SumSquares(a + b) == SumSquares(a) + SumSquares(b)
  {
    hide Square;
    if b == [] {
      assert a + b == a;
    } else {
      SumSquaresConcat(a, b[..|b| - 1]);
      assert (a + b)[..|a + b| - 1] == a + b[..|b| - 1];
    }
  }

  lemma {:induction false} SquaresPermutation(xs: seq<real>, ys: seq<real>)
    requires multiset(xs) == multiset(ys)
    ensures SumSquares(xs) == SumSquares(ys)
  {
    if xs == [] {
      assert |multiset(ys)| == 0;
    } else {
      var i := FindLast(xs, ys);
      var n, x, front, back := |xs| - 1, ys[i], ys[..i], ys[i + 1..];
      SquaresPermutation(xs[..n], front + back);
      SumSquaresConcat(front, back);
      SumSquaresConcat(front + [x], back);
      assert (front + [x])[..|front|] == front;
    }
  }
}
