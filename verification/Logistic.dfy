/** The convex objective behind Platt and beta calibration. */
module Logistic {
  import opened RealSums
  import opened Vectors

  /** The link functions, which exact arithmetic cannot name. */
  datatype Link = Link(softplus: real -> real, sigmoid: real -> real)

  /** `sigmoid` is a subgradient of `softplus`, as the derivative of a convex function is. */
  ghost predicate Convex(link: Link) {
    forall a, b :: link.softplus(b) >= link.softplus(a) + Times(link.sigmoid(a), b - a)
  }

  datatype Row = Row(features: Vector, outcome: real, weight: real)

  /** Every row has as many features as there are coefficients. */
  ghost predicate Shaped(rows: seq<Row>, n: nat) {
    forall k :: 0 <= k < |rows| ==> |rows[k].features| == n
  }

  ghost predicate PositiveWeights(rows: seq<Row>) { forall k :: 0 <= k < |rows| ==> rows[k].weight > 0.0 }

  function TotalWeight(rows: seq<Row>): (w: real) {
    if rows == [] then 0.0 else TotalWeight(rows[..|rows| - 1]) + rows[|rows| - 1].weight
  }

  // ----- Objective and gradient -----

  function RowLoss(link: Link, row: Row, c: Vector): (r: real)
    requires |row.features| == |c|
  {
    var linear := Dot(row.features, c);
    Times(row.weight, link.softplus(linear) - Times(row.outcome, linear))
  }

  function Loss(link: Link, rows: seq<Row>, c: Vector): (r: real)
    requires Shaped(rows, |c|)
  {
    if rows == [] then 0.0
    else Loss(link, rows[..|rows| - 1], c) + RowLoss(link, rows[|rows| - 1], c)
  }

  function Residual(link: Link, row: Row, c: Vector): (r: real)
    requires |row.features| == |c|
  {
    Times(row.weight, link.sigmoid(Dot(row.features, c)) - row.outcome)
  }

  /** The gradient of the loss, gathered row by row. */
  function Pull(link: Link, rows: seq<Row>, c: Vector): (v: Vector)
    requires Shaped(rows, |c|)
    ensures |v| == |c|
  {
    if rows == [] then Zeros(|c|)
    else
      var row := rows[|rows| - 1];
      AddScaled(Pull(link, rows[..|rows| - 1], c), Residual(link, row, c), row.features)
  }

  /** All coefficients but the intercept, which comes last and is never penalised. */
  function Slopes(c: Vector): (v: Vector) { if c == [] then [] else c[..|c| - 1] }

  function Ridge(v: Vector, penalty: real): (r: real) {
    if v == [] then 0.0 else Ridge(v[..|v| - 1], penalty) + Times(0.5 * penalty, Square(v[|v| - 1]))
  }

  function PenaltyGradient(c: Vector, penalty: real): (v: Vector)
    ensures |v| == |c|
    ensures forall i :: 0 <= i < |c| ==> v[i] == if i + 1 == |c| then 0.0 else Times(penalty, c[i])
  {
    seq(|c|, i requires 0 <= i < |c| => if i + 1 == |c| then 0.0 else Times(penalty, c[i]))
  }

  function Objective(link: Link, rows: seq<Row>, c: Vector, penalty: real): (r: real)
    requires Shaped(rows, |c|) && TotalWeight(rows) > 0.0
  {
    Times(Ratio(1.0, TotalWeight(rows)), Loss(link, rows, c)) + Ridge(Slopes(c), penalty)
  }

  function Gradient(link: Link, rows: seq<Row>, c: Vector, penalty: real): (v: Vector)
    requires Shaped(rows, |c|) && TotalWeight(rows) > 0.0
    ensures |v| == |c|
  {
    AddScaled(PenaltyGradient(c, penalty), Ratio(1.0, TotalWeight(rows)), Pull(link, rows, c))
  }

  // ----- The computed gradient is a subgradient of the computed objective -----

  lemma RowTangent(link: Link, row: Row, c: Vector, d: Vector)
    requires Convex(link) && |row.features| == |c| == |d| && row.weight > 0.0
    ensures RowLoss(link, row, d)
            >= RowLoss(link, row, c) + Times(Residual(link, row, c), Dot(row.features, Minus(d, c)))
  {
    hide Dot, Times;
    var a, b := Dot(row.features, c), Dot(row.features, d);
    DotMinus(row.features, d, c);
    assert link.softplus(b) >= link.softplus(a) + Times(link.sigmoid(a), b - a);
    WeightedTangent(row.weight, row.outcome, link.softplus(a), link.softplus(b), link.sigmoid(a), a, b);
  }

  lemma WeightedTangent(w: real, y: real, pa: real, pb: real, s: real, a: real, b: real)
    requires w > 0.0 && pb >= pa + Times(s, b - a)
    ensures Times(w, pb - Times(y, b)) >= Times(w, pa - Times(y, a)) + Times(Times(w, s - y), b - a)
  {
    var gap := pb - pa - s * (b - a);
    ProductNonNegative(w, gap);
    assert Times(w, gap) == w * pb - w * pa - w * s * (b - a);
    assert w * (pb - y * b) == w * pb - w * y * b;
    assert w * (pa - y * a) == w * pa - w * y * a;
    assert (w * (s - y)) * (b - a) == w * s * (b - a) - w * y * b + w * y * a;
  }

  lemma {:induction false} LossTangent(link: Link, rows: seq<Row>, c: Vector, d: Vector)
    requires Convex(link) && |c| == |d| && Shaped(rows, |c|) && PositiveWeights(rows)
    ensures Loss(link, rows, d) >= Loss(link, rows, c) + Dot(Pull(link, rows, c), Minus(d, c))
  {
    hide Dot, Times, RowLoss, Residual, Convex;
    if rows == [] {
      DotZeros(Minus(d, c));
    } else {
      var k := |rows| - 1;
      LossTangent(link, rows[..k], c, d);
      RowTangent(link, rows[k], c, d);
      DotAddScaled(Pull(link, rows[..k], c), Residual(link, rows[k], c), rows[k].features, Minus(d, c));
    }
  }

  lemma SquareTangent(penalty: real, c: real, d: real)
    requires penalty >= 0.0
    ensures Times(0.5 * penalty, Square(d)) >= Times(0.5 * penalty, Square(c)) + Times(Times(penalty, c), d - c)
  {
    SquareSign(d - c);
    ProductNonNegative(0.5 * penalty, Square(d - c));
    assert 0.5 * penalty * (d * d) - 0.5 * penalty * (c * c) - penalty * c * (d - c)
        == 0.5 * penalty * ((d - c) * (d - c));
  }

  lemma {:induction false} RidgeTangent(c: Vector, d: Vector, g: Vector, penalty: real)
    requires |c| == |d| == |g| && penalty >= 0.0 && forall i :: 0 <= i < |c| ==> g[i] == Times(penalty, c[i])
    ensures Ridge(d, penalty) >= Ridge(c, penalty) + Dot(g, Minus(d, c))
  {
    hide Times, Square;
    if c != [] {
      var n := |c| - 1;
      RidgeTangent(c[..n], d[..n], g[..n], penalty);
      SquareTangent(penalty, c[n], d[n]);
      assert Minus(d, c)[..n] == Minus(d[..n], c[..n]);
    }
  }

  lemma PenaltyTangent(c: Vector, d: Vector, penalty: real)
    requires |c| == |d| && penalty >= 0.0
    ensures Ridge(Slopes(d), penalty)
            >= Ridge(Slopes(c), penalty) + Dot(PenaltyGradient(c, penalty), Minus(d, c))
  {
    hide Times, Square, Ridge;
    if c != [] {
      var n := |c| - 1;
      var g := PenaltyGradient(c, penalty);
      RidgeTangent(c[..n], d[..n], g[..n], penalty);
      assert Minus(d, c)[..n] == Minus(d[..n], c[..n]);
      TimesDistributes(0.0, 0.0, d[n] - c[n]);
    }
  }

  /** The tangent at `c` lies below the objective everywhere. */
  lemma ObjectiveTangent(link: Link, rows: seq<Row>, c: Vector, d: Vector, penalty: real)
    requires Convex(link) && |c| == |d| && Shaped(rows, |c|) && PositiveWeights(rows) && TotalWeight(rows) > 0.0
    requires penalty >= 0.0
    ensures Objective(link, rows, d, penalty)
            >= Objective(link, rows, c, penalty) + Dot(Gradient(link, rows, c, penalty), Minus(d, c))
  {
    hide Dot, Times, Ratio, Convex, Loss, Pull, Ridge;
    var k, p, q := Ratio(1.0, TotalWeight(rows)), Pull(link, rows, c), PenaltyGradient(c, penalty);
    LossTangent(link, rows, c, d);
    PenaltyTangent(c, d, penalty);
    DotAddScaled(q, k, p, Minus(d, c));
    InversePositive(TotalWeight(rows));
    TimesMonotone(k, Loss(link, rows, c) + Dot(p, Minus(d, c)), Loss(link, rows, d));
    TimesOverSum(k, Loss(link, rows, c), Dot(p, Minus(d, c)));
  }

  lemma InversePositive(w: real)
    requires w > 0.0
    ensures Ratio(1.0, w) > 0.0
  {}

  // ----- Projection onto the monotone cone -----

  /** The first `prefix` coefficients are kept nonnegative. */
  ghost predicate Feasible(c: Vector, prefix: nat) { forall i :: 0 <= i < |c| && i < prefix ==> c[i] >= 0.0 }

  function Clip(x: real, constrained: bool): (r: real) { if constrained then Max(x, 0.0) else x }

  function Candidate(c: Vector, g: Vector, prefix: nat, step: real): (v: Vector)
    requires |c| == |g|
    ensures |v| == |c| && Feasible(v, prefix)
    ensures forall i :: 0 <= i < |c| ==> v[i] == Clip(c[i] - Times(step, g[i]), i < prefix)
  {
    seq(|c|, i requires 0 <= i < |c| => Clip(c[i] - Times(step, g[i]), i < prefix))
  }

  function Gap(c: real, g: real, constrained: bool): (r: real) { Abs(c - Clip(c - g, constrained)) }

  /** The largest projected displacement over the first `n` coordinates. */
  function Norm(c: Vector, g: Vector, prefix: nat, n: nat): (r: real)
    requires |c| == |g| && n <= |c|
  {
    if n == 0 then 0.0 else Max(Norm(c, g, prefix, n - 1), Gap(c[n - 1], g[n - 1], n - 1 < prefix))
  }

  lemma {:induction false} NormCovers(c: Vector, g: Vector, prefix: nat, n: nat)
    requires |c| == |g| && n <= |c|
    ensures Norm(c, g, prefix, n) >= 0.0
    ensures forall i :: 0 <= i < n ==> Gap(c[i], g[i], i < prefix) <= Norm(c, g, prefix, n)
  {
    hide Gap;
    if n > 0 { NormCovers(c, g, prefix, n - 1); }
  }

  lemma {:induction false} NormAttained(c: Vector, g: Vector, prefix: nat, n: nat) returns (i: nat)
    requires |c| == |g| && n <= |c| && Norm(c, g, prefix, n) > 0.0
    ensures i < n && Gap(c[i], g[i], i < prefix) == Norm(c, g, prefix, n)
  {
    hide Gap;
    if Gap(c[n - 1], g[n - 1], n - 1 < prefix) == Norm(c, g, prefix, n) {
      i := n - 1;
    } else {
      i := NormAttained(c, g, prefix, n - 1);
    }
  }

  /** The first-order condition on the cone: no slope along free coordinates, none pointing inward at a bound. */
  ghost predicate Stationary(c: Vector, g: Vector, prefix: nat)
    requires |c| == |g|
  {
    forall i :: 0 <= i < |c| ==> if i < prefix then g[i] >= 0.0 && (g[i] == 0.0 || c[i] == 0.0) else g[i] == 0.0
  }

  /** The projected norm vanishes exactly at the points that satisfy the first-order condition. */
  lemma NormZeroIffStationary(c: Vector, g: Vector, prefix: nat)
    requires |c| == |g| && Feasible(c, prefix)
    ensures Norm(c, g, prefix, |c|) == 0.0 <==> Stationary(c, g, prefix)
  {
    hide Norm, Gap;
    NormCovers(c, g, prefix, |c|);
    if Norm(c, g, prefix, |c|) > 0.0 {
      var i := NormAttained(c, g, prefix, |c|);
    }
    forall i | 0 <= i < |c|
      ensures Gap(c[i], g[i], i < prefix) <= 0.0 <==>
                if i < prefix then g[i] >= 0.0 && (g[i] == 0.0 || c[i] == 0.0) else g[i] == 0.0
    {
      GapZeroIff(c[i], g[i], i < prefix);
    }
  }

  lemma GapZeroIff(c: real, g: real, constrained: bool)
    requires constrained ==> c >= 0.0
    ensures Gap(c, g, constrained) <= 0.0 <==>
              if constrained then g >= 0.0 && (g == 0.0 || c == 0.0) else g == 0.0
  {}

  /** One coordinate: a projected step never climbs, and falls wherever the projected gradient is not zero. */
  lemma DescendsAt(c: real, g: real, step: real, constrained: bool)
    requires step > 0.0 && (constrained ==> c >= 0.0)
    ensures Times(g, Clip(c - Times(step, g), constrained) - c) <= 0.0
    ensures Gap(c, g, constrained) > 0.0 ==> Times(g, Clip(c - Times(step, g), constrained) - c) < 0.0
  {
    hide Times, Square;
    if constrained && c - Times(step, g) < 0.0 {
      PositiveFactor(step, g);
      ProductNonNegative(g, c);
      if c > 0.0 { ProductPositive(g, c); }
      NegatedFactor(g, c);
    } else {
      SquareSign(g);
      ProductNonNegative(step, Square(g));
      if g != 0.0 { ProductPositive(step, Square(g)); }
      NegatedFactor(g, Times(step, g));
      ProductRegroups(g, step);
    }
  }

  lemma PositiveFactor(step: real, g: real)
    requires step > 0.0 && Times(step, g) > 0.0
    ensures g > 0.0
  {
    if g <= 0.0 { ProductNonNegative(step, -g); }
  }

  lemma NegatedFactor(g: real, x: real)
    ensures Times(g, -x) == -Times(g, x)
  {}

  lemma ProductRegroups(g: real, step: real)
    ensures Times(g, Times(step, g)) == Times(step, Square(g))
  {}

  /** The displacement of a projected step never points uphill. */
  lemma StepDescends(c: Vector, g: Vector, prefix: nat, step: real)
    requires |c| == |g| && step > 0.0 && Feasible(c, prefix)
    ensures Dot(g, Minus(Candidate(c, g, prefix, step), c)) <= 0.0
    ensures Norm(c, g, prefix, |c|) > 0.0 ==> Dot(g, Minus(Candidate(c, g, prefix, step), c)) < 0.0
  {
    hide Dot, Times, Gap, Norm, Candidate, Minus, Feasible;
    var move := Minus(Candidate(c, g, prefix, step), c);
    forall i | 0 <= i < |c| ensures Times(g[i], move[i]) <= 0.0 {
      MoveDescends(c, g, prefix, step, i);
    }
    DotBelowTerms(g, move, 0);
    if Norm(c, g, prefix, |c|) > 0.0 {
      var i := NormAttained(c, g, prefix, |c|);
      MoveDescends(c, g, prefix, step, i);
      DotBelowTerms(g, move, i);
    }
  }

  lemma MoveDescends(c: Vector, g: Vector, prefix: nat, step: real, i: nat)
    requires |c| == |g| && step > 0.0 && Feasible(c, prefix) && i < |c|
    ensures var move := Minus(Candidate(c, g, prefix, step), c);
            && Times(g[i], move[i]) <= 0.0
            && (Gap(c[i], g[i], i < prefix) > 0.0 ==> Times(g[i], move[i]) < 0.0)
  {
    hide Times, Gap, Clip;
    DescendsAt(c[i], g[i], step, i < prefix);
  }

  // ----- How far a stopping point is from the best -----

  /** What the tolerance multiplies: distance to the rival, plus the size of the gradient. */
  function Reach(c: Vector, d: Vector, g: Vector): (r: Vector)
    requires |c| == |d| == |g|
    ensures |r| == |c| && forall i :: 0 <= i < |c| ==> r[i] == Abs(d[i] - c[i]) + Abs(g[i])
  {
    seq(|c|, i requires 0 <= i < |c| => Abs(d[i] - c[i]) + Abs(g[i]))
  }

  lemma SlackClipped(c: real, g: real, d: real, tolerance: real)
    requires 0.0 <= c <= tolerance && g > c && d >= 0.0
    ensures Times(g, d - c) >= -Times(tolerance, Abs(d - c) + Abs(g))
  {
    ProductNonNegative(g, d);
    ProductNonNegative(tolerance - c, g);
    ProductNonNegative(tolerance, Abs(d - c));
    assert g * (d - c) == g * d - c * g;
    assert tolerance * (Abs(d - c) + g) == tolerance * Abs(d - c) + tolerance * g;
  }

  lemma SlackFree(g: real, move: real, tolerance: real)
    requires Abs(g) <= tolerance
    ensures Times(g, move) >= -Times(tolerance, Abs(move) + Abs(g))
  {
    ProductNonNegative(tolerance, Abs(g));
    ProductNonNegative(tolerance - Abs(g), Abs(move));
    assert tolerance * (Abs(move) + Abs(g)) == tolerance * Abs(move) + tolerance * Abs(g);
    assert Abs(g) * Abs(move) == g * move || Abs(g) * Abs(move) == -(g * move);
  }

  lemma SlackAt(c: real, g: real, d: real, tolerance: real, constrained: bool)
    requires Gap(c, g, constrained) <= tolerance && (constrained ==> c >= 0.0 && d >= 0.0)
    ensures Times(g, d - c) >= -Times(tolerance, Abs(d - c) + Abs(g))
  {
    hide Times;
    if constrained && c - g < 0.0 {
      SlackClipped(c, g, d, tolerance);
    } else {
      SlackFree(g, d - c, tolerance);
    }
  }

  lemma SlackDot(c: Vector, d: Vector, g: Vector, prefix: nat, tolerance: real)
    requires |c| == |d| == |g| && Feasible(c, prefix) && Feasible(d, prefix) && Norm(c, g, prefix, |c|) <= tolerance
    ensures Dot(g, Minus(d, c)) >= -Times(tolerance, Sum(Reach(c, d, g)))
  {
    hide Dot, Times, Norm, Gap, Abs, Sum;
    NormCovers(c, g, prefix, |c|);
    var move, reach := Minus(d, c), Reach(c, d, g);
    forall i | 0 <= i < |c| ensures Times(g[i], move[i]) >= -Times(tolerance, reach[i]) {
      SlackAt(c[i], g[i], d[i], tolerance, i < prefix);
    }
    DotAtLeast(g, move, reach, tolerance);
  }

  /** A feasible point within tolerance beats every feasible rival up to tolerance times reach; a zero
      projected gradient is a global minimum over the cone. */
  lemma StoppingPointNearOptimal(link: Link, rows: seq<Row>, c: Vector, d: Vector, penalty: real, prefix: nat,
                                 tolerance: real)
    requires Convex(link) && |c| == |d| && Shaped(rows, |c|) && PositiveWeights(rows) && TotalWeight(rows) > 0.0
    requires penalty >= 0.0 && Feasible(c, prefix) && Feasible(d, prefix)
    requires Norm(c, Gradient(link, rows, c, penalty), prefix, |c|) <= tolerance
    ensures Objective(link, rows, c, penalty) <= Objective(link, rows, d, penalty)
              + Times(tolerance, Sum(Reach(c, d, Gradient(link, rows, c, penalty))))
  {
    hide Dot, Times, Convex, Norm, Objective, Gradient, Sum;
    ObjectiveTangent(link, rows, c, d, penalty);
    SlackDot(c, d, Gradient(link, rows, c, penalty), prefix, tolerance);
  }
}
