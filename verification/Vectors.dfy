/** Real vectors as sequences of one length. */
module Vectors {
  import opened RealSums

  type Vector = seq<real>

  function Dot(a: Vector, b: Vector): (r: real)
    requires |a| == |b|
  {
    if a == [] then 0.0 else Dot(a[..|a| - 1], b[..|b| - 1]) + Times(a[|a| - 1], b[|b| - 1])
  }

  function Zeros(n: nat): (v: Vector)
    ensures |v| == n && forall i :: 0 <= i < n ==> v[i] == 0.0
  {
    seq(n, i => 0.0)
  }

  function AddScaled(a: Vector, r: real, x: Vector): (v: Vector)
    requires |a| == |x|
    ensures |v| == |a| && forall i :: 0 <= i < |a| ==> v[i] == a[i] + Times(r, x[i])
  {
    seq(|a|, i requires 0 <= i < |a| => a[i] + Times(r, x[i]))
  }

  function Minus(d: Vector, c: Vector): (v: Vector)
    requires |d| == |c|
    ensures |v| == |c| && forall i :: 0 <= i < |c| ==> v[i] == d[i] - c[i]
  {
    seq(|c|, i requires 0 <= i < |c| => d[i] - c[i])
  }

  lemma {:induction false} DotZeros(v: Vector)
    ensures Dot(Zeros(|v|), v) == 0.0
  {
    hide Times;
    if v != [] {
      var n := |v| - 1;
      DotZeros(v[..n]);
      assert Zeros(|v|)[..n] == Zeros(n);
      TimesDistributes(0.0, 0.0, v[n]);
    }
  }

  lemma {:induction false} DotAddScaled(a: Vector, r: real, x: Vector, v: Vector)
    requires |a| == |x| == |v|
    ensures Dot(AddScaled(a, r, x), v) == Dot(a, v) + Times(r, Dot(x, v))
  {
    hide Times;
    if v == [] {
      ZeroProduct(r);
    } else {
      var n := |v| - 1;
      DotAddScaled(a[..n], r, x[..n], v[..n]);
      assert AddScaled(a, r, x)[..n] == AddScaled(a[..n], r, x[..n]);
      ScaledTermAdds(a[n], r, x[n], v[n], Dot(x[..n], v[..n]));
    }
  }

  lemma ScaledTermAdds(a: real, r: real, x: real, v: real, d: real)
    ensures Times(a + Times(r, x), v) == Times(a, v) + Times(r, Times(x, v))
    ensures Times(r, d + Times(x, v)) == Times(r, d) + Times(r, Times(x, v))
  {}

  lemma {:induction false} DotMinus(x: Vector, d: Vector, c: Vector)
    requires |x| == |d| == |c|
    ensures Dot(x, Minus(d, c)) == Dot(x, d) - Dot(x, c)
  {
    hide Times;
    if x != [] {
      var n := |x| - 1;
      DotMinus(x[..n], d[..n], c[..n]);
      assert Minus(d, c)[..n] == Minus(d[..n], c[..n]);
      TermMinus(x[n], d[n], c[n]);
    }
  }

  lemma TermMinus(x: real, d: real, c: real)
    ensures Times(x, d - c) == Times(x, d) - Times(x, c)
  {}

  /** A dot product whose every term is bounded below is bounded below. */
  lemma {:induction false} DotAtLeast(g: Vector, v: Vector, reach: Vector, k: real)
    requires |g| == |v| == |reach|
    requires forall i :: 0 <= i < |g| ==> Times(g[i], v[i]) >= -Times(k, reach[i])
    ensures Dot(g, v) >= -Times(k, Sum(reach))
  {
    hide Times;
    if g == [] {
      ZeroProduct(k);
    } else {
      var n := |g| - 1;
      DotAtLeast(g[..n], v[..n], reach[..n], k);
      TimesOverSum(k, Sum(reach[..n]), reach[n]);
    }
  }

  /** If no term is positive, the dot product is below each of its terms. */
  lemma {:induction false} DotBelowTerms(g: Vector, v: Vector, i: nat)
    requires |g| == |v|
    requires forall k :: 0 <= k < |g| ==> Times(g[k], v[k]) <= 0.0
    ensures Dot(g, v) <= 0.0
    ensures i < |g| ==> Dot(g, v) <= Times(g[i], v[i])
  {
    hide Times;
    if g != [] {
      var n := |g| - 1;
      DotBelowTerms(g[..n], v[..n], i);
    }
  }
}
