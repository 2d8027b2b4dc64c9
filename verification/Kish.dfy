/** Kish effective sample size, computed from weights scaled by their maximum. */
module Kish {
  import opened RealSums
  import opened Results

  datatype WeightError = InvalidObservationWeight

  ghost predicate AllPositive(ws: seq<real>) { forall i :: 0 <= i < |ws| ==> ws[i] > 0.0 }

  function Largest(ws: seq<real>): (r: real) {
    if ws == [] then 0.0 else Max(Largest(ws[..|ws| - 1]), ws[|ws| - 1])
  }

  lemma {:induction false} LargestBounds(ws: seq<real>)
    requires AllPositive(ws)
    ensures forall i :: 0 <= i < |ws| ==> ws[i] <= Largest(ws)
    ensures Largest(ws) >= 0.0
    ensures ws != [] ==> Largest(ws) > 0.0 && Largest(ws) in ws
  {
    if ws != [] { LargestBounds(ws[..|ws| - 1]); }
  }

  lemma {:induction false} LargestConcat(a: seq<real>, b: seq<real>)
    requires AllPositive(a) && AllPositive(b)
    ensures Largest(a + b) == Max(Largest(a), Largest(b))
  {
    if b == [] {
      LargestBounds(a);
      assert a + b == a;
    } else {
      LargestConcat(a, b[..|b| - 1]);
      assert (a + b)[..|a + b| - 1] == a + b[..|b| - 1];
    }
  }

  /** The effective sample size `(sum w)^2 / sum w^2`. */
  function Effective(ws: seq<real>): (e: real)
    requires ws != [] && AllPositive(ws)
  {
    SquaresPositive(ws);
    Ratio(Square(Sum(ws)), SumSquares(ws))
  }

  lemma {:induction false} SquaresPositive(ws: seq<real>)
    requires AllPositive(ws)
    ensures SumSquares(ws) >= 0.0
    ensures ws != [] ==> SumSquares(ws) > 0.0
  {
    if ws != [] {
      SquaresPositive(ws[..|ws| - 1]);
      ProductPositive(ws[|ws| - 1], ws[|ws| - 1]);
    }
  }

  /** Cauchy-Schwarz: the square of a sum is at most the count times the sum of squares. */
  lemma {:induction false} CauchySchwarz(ws: seq<real>)
    ensures Square(Sum(ws)) <= Times(|ws| as real, SumSquares(ws))
  {
    hide Square, Times;
    if ws == [] {
      ZeroCase();
    } else {
      var init, w := ws[..|ws| - 1], ws[|ws| - 1];
      CauchySchwarz(init);
      CauchyStep(|init|, Sum(init), SumSquares(init), w);
    }
  }

  lemma ZeroCase()
    ensures Square(0.0) == 0.0 && Times(0.0, 0.0) == 0.0
  {}

  lemma CauchyStep(n: nat, s: real, q: real, w: real)
    requires Square(s) <= Times(n as real, q)
    requires n == 0 ==> s == 0.0 && q == 0.0
    ensures Square(s + w) <= Times((n + 1) as real, q + Square(w))
  {
    var k := n as real;
    assert (s + w) * (s + w) == s * s + 2.0 * (s * w) + w * w;
    assert (k + 1.0) * (q + w * w) == k * q + q + k * (w * w) + w * w;
    if n > 0 {
      CrossTerm(k, s, q, w);
    } else {
      assert s * w == 0.0;
    }
  }

  lemma CrossTerm(k: real, s: real, q: real, w: real)
    requires k > 0.0 && Square(s) <= Times(k, q)
    ensures 2.0 * (s * w) <= q + k * (w * w)
  {
    SquareSign(s - k * w);
    assert Square(s - k * w) == s * s - 2.0 * (k * (s * w)) + k * (k * (w * w));
    var gap := 2.0 * (s * w) - q - k * (w * w);
    assert Times(k, gap) == 2.0 * (k * (s * w)) - k * q - k * (k * (w * w));
    if gap > 0.0 { ProductPositive(k, gap); }
  }

  lemma {:induction false} SquareOfSumDominates(ws: seq<real>)
    requires AllPositive(ws)
    ensures SumSquares(ws) <= Square(Sum(ws))
  {
    hide Square, Times;
    if ws == [] {
      ZeroCase();
    } else {
      var init, w := ws[..|ws| - 1], ws[|ws| - 1];
      SquareOfSumDominates(init);
      SumNonNegative(init);
      SquareOfSum(Sum(init), w);
      ProductNonNegative(Sum(init), w);
    }
  }

  /** The effective sample size lies between one and the number of weights. */
  lemma EffectiveBounds(ws: seq<real>)
    requires ws != [] && AllPositive(ws)
    ensures 1.0 <= Effective(ws) <= |ws| as real
  {
    hide Square, SumSquares;
    SquaresPositive(ws);
    CauchySchwarz(ws);
    SquareOfSumDominates(ws);
    RatioBounds(Square(Sum(ws)), SumSquares(ws), |ws| as real);
  }

  lemma RatioBounds(a: real, b: real, k: real)
    requires 0.0 < b <= a <= Times(k, b)
    ensures 1.0 <= Ratio(a, b) <= k
  {
    hide Times, Ratio;
    RatioCancels(a, b);
    UnitProduct(b);
    FactorOrder(1.0, Ratio(a, b), b);
    FactorOrder(Ratio(a, b), k, b);
  }

  /** Dividing every weight by the same scale cancels out. */
  lemma {:induction false} ScaledSums(ws: seq<real>, ns: seq<real>, scale: real)
    requires |ns| == |ws| && scale > 0.0
    requires forall i :: 0 <= i < |ws| ==> ns[i] == Ratio(ws[i], scale)
    ensures Times(Sum(ns), scale) == Sum(ws)
    ensures Times(SumSquares(ns), Square(scale)) == SumSquares(ws)
  {
    hide Square, Times, Ratio;
    if ws == [] {
      TimesDistributes(0.0, 0.0, scale);
      TimesDistributes(0.0, 0.0, Square(scale));
    } else {
      var n := |ws| - 1;
      ScaledSums(ws[..n], ns[..n], scale);
      TimesDistributes(Sum(ns[..n]), ns[n], scale);
      TimesDistributes(SumSquares(ns[..n]), Square(ns[n]), Square(scale));
      ScaledTerm(ws[n], scale);
    }
  }

  lemma ScaledTerm(w: real, scale: real)
    requires scale > 0.0
    ensures Times(Ratio(w, scale), scale) == w
    ensures Times(Square(Ratio(w, scale)), Square(scale)) == Square(w)
  {
    var q := w / scale;
    assert q * scale == w;
    assert (q * q) * (scale * scale) == (q * scale) * (q * scale);
  }

  lemma ScaledRatio(s: real, q: real, scale: real, total: real, squares: real)
    requires scale > 0.0 && q > 0.0
    requires Times(s, scale) == total && Times(q, Square(scale)) == squares
    ensures squares > 0.0
    ensures Ratio(Square(s), q) == Ratio(Square(total), squares)
  {
    ProductPositive(scale, scale);
    ProductPositive(q, Square(scale));
    assert total * total == (s * s) * (scale * scale);
    var e := (s * s) / q;
    assert e * q == s * s;
    var e' := (total * total) / squares;
    assert e' * squares == total * total;
    assert (e - e') * squares == 0.0;
  }

  /** The scaled computation returns the effective sample size of every nonempty list of positive weights. */
  method EffectiveSampleSize(ws: seq<real>, observations: nat) returns (r: Result<real, WeightError>)
    ensures r.Ok? <==> observations == |ws| > 0 && AllPositive(ws)
    ensures r.Ok? ==> r.value == Effective(ws) && 1.0 <= r.value <= |ws| as real
  {
    hide Square, Ratio, Times, Effective;
    if observations == 0 {
      return Err(InvalidObservationWeight);
    }
    if |ws| != observations || exists i :: 0 <= i < |ws| && ws[i] <= 0.0 {
      return Err(InvalidObservationWeight);
    }
    var scale := Largest(ws);
    LargestBounds(ws);
    var sum, sumSquares := 0.0, 0.0;
    var sumCompensation, squaresCompensation := 0.0, 0.0;
    var ns: seq<real> := [];
    for i := 0 to |ws|
      invariant |ns| == i
      invariant forall k :: 0 <= k < i ==> ns[k] == Ratio(ws[k], scale)
      invariant sum == Sum(ns) && sumSquares == SumSquares(ns)
      invariant sumCompensation == squaresCompensation == 0.0
    {
      var normalized := Ratio(ws[i], scale);
      var s := CompensatedAdd(sum, sumCompensation, normalized);
      sum, sumCompensation := s.0, s.1;
      var q := CompensatedAdd(sumSquares, squaresCompensation, Square(normalized));
      sumSquares, squaresCompensation := q.0, q.1;
      assert (ns + [normalized])[..i] == ns;
      ns := ns + [normalized];
    }
    ScaledSums(ws, ns, scale);
    ScaledSquaresPositive(ws, ns, scale);
    ScaledRatio(sum, sumSquares, scale, Sum(ws), SumSquares(ws));
    EffectiveIs(ws);
    EffectiveBounds(ws);
    var effective := Ratio(Square(sum), sumSquares);
    var upper := observations as real;
    var tolerance := upper * TOLERANCE;
    assert effective <= upper + tolerance;
    if effective <= 0.0 || effective > upper + tolerance {
      return Err(InvalidObservationWeight);
    }
    return Ok(if effective < upper then effective else upper);
  }

  lemma EffectiveIs(ws: seq<real>)
    requires ws != [] && AllPositive(ws)
    ensures SumSquares(ws) > 0.0
    ensures Effective(ws) == Ratio(Square(Sum(ws)), SumSquares(ws))
  {
    SquaresPositive(ws);
  }

  lemma ScaledSquaresPositive(ws: seq<real>, ns: seq<real>, scale: real)
    requires |ns| == |ws| > 0 && scale > 0.0 && AllPositive(ws)
    requires forall i :: 0 <= i < |ws| ==> ns[i] == Ratio(ws[i], scale)
    ensures SumSquares(ns) > 0.0
  {
    forall i | 0 <= i < |ns| ensures ns[i] > 0.0 {
      assert ws[i] / scale > 0.0;
    }
    SquaresPositive(ns);
  }

  /** 128 machine epsilons. */
  const TOLERANCE: real := 1.0 / 35184372088832.0

  /** Kahan's compensated addition; exactly, the compensation stays zero. */
  function CompensatedAdd(sum: real, compensation: real, value: real): (r: (real, real))
    ensures compensation == 0.0 ==> r == (sum + value, 0.0)
  {
    var adjusted := value - compensation;
    var next := sum + adjusted;
    (next, (next - sum) - adjusted)
  }
}
