/** How many halvings the line search can need: the objective's curvature is bounded by its data. */
module LineSearch {
  import opened RealSums
  import opened Results
  import opened Vectors
  import opened Logistic
  import opened LogisticFit

  /** `softplus` bends by at most a quarter, as its second derivative does. */
  ghost predicate Smooth(link: Link) {
    forall a, b :: link.softplus(b)
                   <= link.softplus(a) + Times(link.sigmoid(a), b - a) + 0.125 * Square(b - a)
  }

  /** Weighted squared feature lengths. */
  function Spread(rows: seq<Row>): (s: real) {
    if rows == [] then 0.0
    else Spread(rows[..|rows| - 1]) + Times(rows[|rows| - 1].weight, SumSquares(rows[|rows| - 1].features))
  }

  /** An upper bound on the curvature of the objective, read off the rows and the penalty. */
  function Curvature(rows: seq<Row>, penalty: real): (l: real)
    requires TotalWeight(rows) > 0.0
  {
    Times(Ratio(1.0, TotalWeight(rows)), 0.25 * Spread(rows)) + penalty
  }

  // ----- Cauchy-Schwarz for vectors -----

  lemma SquareOrder(s: real, t: real)
    requires 0.0 <= s < t
    ensures Square(s) < Square(t)
  {
    ProductPositive(t - s, t + s);
    assert Square(t) - Square(s) == Times(t - s, t + s);
  }

  lemma SquareTimes(x: real, y: real)
    ensures Square(Times(x, y)) == Times(Square(x), Square(y))
  {
    assert (x * y) * (x * y) == (x * x) * (y * y);
  }

  /** Twice a product is at most the mixed sum its factors bound. */
  lemma MixedTerm(d: real, a: real, b: real, x: real, v: real)
    requires a >= 0.0 && b >= 0.0 && Square(d) <= Times(a, b)
    ensures 2.0 * Times(d, Times(x, v)) <= Times(a, Square(v)) + Times(Square(x), b)
  {
    hide Times, Square;
    var p, q := Times(a, Square(v)), Times(Square(x), b);
    SquareSign(x);
    SquareSign(v);
    ProductNonNegative(a, Square(v));
    ProductNonNegative(Square(x), b);
    var t := 2.0 * Times(d, Times(x, v));
    if p + q < t {
      SquareOrder(p + q, t);
      DoubledSquare(Times(d, Times(x, v)));
      SquareTimes(d, Times(x, v));
      SquareTimes(x, v);
      MeanSquare(p, q);
      FourFactors(a, b, Square(x), Square(v));
      ProductNonNegative(Square(x), Square(v));
      ProductOrder(Times(Square(x), Square(v)), Square(d), Times(a, b));
    }
  }

  lemma DoubledSquare(x: real)
    ensures Square(2.0 * x) == 4.0 * Square(x)
  {}

  lemma MeanSquare(p: real, q: real)
    ensures 4.0 * Times(p, q) <= Square(p + q)
  {
    SquareSign(p - q);
    assert (p + q) * (p + q) == (p - q) * (p - q) + 4.0 * (p * q);
  }

  lemma FourFactors(a: real, b: real, x: real, v: real)
    ensures Times(Times(a, v), Times(x, b)) == Times(Times(x, v), Times(a, b))
  {
    assert (a * v) * (x * b) == (x * v) * (a * b);
  }

  lemma ProductOrder(k: real, x: real, y: real)
    requires k >= 0.0 && x <= y
    ensures Times(x, k) <= Times(k, y)
  {
    ProductNonNegative(k, y - x);
    assert k * (y - x) == k * y - k * x;
  }

  lemma {:induction false} DotCauchySchwarz(x: Vector, v: Vector)
    requires |x| == |v|
    ensures SumSquares(x) >= 0.0 && SumSquares(v) >= 0.0
    ensures Square(Dot(x, v)) <= Times(SumSquares(x), SumSquares(v))
  {
    hide Times, Square;
    if x == [] {
      ZeroSquare();
    } else {
      var n := |x| - 1;
      var a, b, d := SumSquares(x[..n]), SumSquares(v[..n]), Dot(x[..n], v[..n]);
      DotCauchySchwarz(x[..n], v[..n]);
      SquareSign(x[n]);
      SquareSign(v[n]);
      MixedTerm(d, a, b, x[n], v[n]);
      SquareOfSum(d, Times(x[n], v[n]));
      SquareTimes(x[n], v[n]);
      ProductOfSums(a, Square(x[n]), b, Square(v[n]));
    }
  }

  lemma ZeroSquare()
    ensures Square(0.0) == 0.0 && Times(0.0, 0.0) == 0.0
  {}

  lemma ProductOfSums(a: real, x: real, b: real, v: real)
    ensures Times(a + x, b + v) == Times(a, b) + Times(a, v) + Times(x, b) + Times(x, v)
  {
    assert (a + x) * (b + v) == a * b + a * v + x * b + x * v;
  }

  // ----- The objective lies below its parabola -----

  lemma RowSmooth(link: Link, row: Row, c: Vector, d: Vector)
    requires Smooth(link) && |row.features| == |c| == |d| && row.weight > 0.0
    ensures RowLoss(link, row, d)
            <= RowLoss(link, row, c) + Times(Residual(link, row, c), Dot(row.features, Minus(d, c)))
               + 0.125 * Times(Times(row.weight, SumSquares(row.features)), SumSquares(Minus(d, c)))
  {
    hide Dot, Times, Square, SumSquares;
    var a, b, move := Dot(row.features, c), Dot(row.features, d), Minus(d, c);
    DotMinus(row.features, d, c);
    DotCauchySchwarz(row.features, move);
    assert link.softplus(b) <= link.softplus(a) + Times(link.sigmoid(a), b - a) + 0.125 * Square(b - a);
    WeightedParabola(row.weight, row.outcome, link.softplus(a), link.softplus(b), link.sigmoid(a), a, b,
                     SumSquares(row.features), SumSquares(move));
  }

  lemma WeightedParabola(w: real, y: real, pa: real, pb: real, s: real, a: real, b: real, x: real, q: real)
    requires w > 0.0 && pb <= pa + Times(s, b - a) + 0.125 * Square(b - a) && Square(b - a) <= Times(x, q)
    ensures Times(w, pb - Times(y, b)) <= Times(w, pa - Times(y, a)) + Times(Times(w, s - y), b - a)
                                          + 0.125 * Times(Times(w, x), q)
  {
    var gap := pa + s * (b - a) + 0.125 * (x * q) - pb;
    ProductNonNegative(w, gap);
    assert Times(w, gap) == w * pa + w * s * (b - a) + 0.125 * (w * x * q) - w * pb;
    assert w * (pb - y * b) == w * pb - w * y * b;
    assert w * (pa - y * a) == w * pa - w * y * a;
    assert (w * (s - y)) * (b - a) == w * s * (b - a) - w * y * b + w * y * a;
  }

  lemma {:induction false} LossSmooth(link: Link, rows: seq<Row>, c: Vector, d: Vector)
    requires Smooth(link) && |c| == |d| && Shaped(rows, |c|) && PositiveWeights(rows)
    ensures Loss(link, rows, d) <= Loss(link, rows, c) + Dot(Pull(link, rows, c), Minus(d, c))
                                   + 0.125 * Times(Spread(rows), SumSquares(Minus(d, c)))
  {
    hide Dot, Times, RowLoss, Residual, Smooth, SumSquares;
    var move := Minus(d, c);
    if rows == [] {
      DotZeros(move);
      TimesDistributes(0.0, 0.0, SumSquares(move));
    } else {
      var k := |rows| - 1;
      LossSmooth(link, rows[..k], c, d);
      RowSmooth(link, rows[k], c, d);
      DotAddScaled(Pull(link, rows[..k], c), Residual(link, rows[k], c), rows[k].features, move);
      TimesDistributes(Spread(rows[..k]), Times(rows[k].weight, SumSquares(rows[k].features)), SumSquares(move));
    }
  }

  lemma SquareExpands(penalty: real, c: real, d: real)
    ensures Times(0.5 * penalty, Square(d))
            == Times(0.5 * penalty, Square(c)) + Times(Times(penalty, c), d - c) + Times(0.5 * penalty, Square(d - c))
  {
    assert 0.5 * penalty * (d * d) - 0.5 * penalty * (c * c) - penalty * c * (d - c)
        == 0.5 * penalty * ((d - c) * (d - c));
  }

  lemma {:induction false} RidgeSmooth(c: Vector, d: Vector, g: Vector, penalty: real)
    requires |c| == |d| == |g| && forall i :: 0 <= i < |c| ==> g[i] == Times(penalty, c[i])
    ensures Ridge(d, penalty)
            == Ridge(c, penalty) + Dot(g, Minus(d, c)) + Times(0.5 * penalty, SumSquares(Minus(d, c)))
  {
    hide Times, Square;
    if c == [] {
      ZeroProduct(0.5 * penalty);
    } else {
      var n := |c| - 1;
      RidgeSmooth(c[..n], d[..n], g[..n], penalty);
      SquareExpands(penalty, c[n], d[n]);
      assert Minus(d, c)[..n] == Minus(d[..n], c[..n]);
      TimesOverSum(0.5 * penalty, SumSquares(Minus(d[..n], c[..n])), Square(d[n] - c[n]));
    }
  }

  lemma PenaltySmooth(c: Vector, d: Vector, penalty: real)
    requires |c| == |d| && penalty >= 0.0
    ensures Ridge(Slopes(d), penalty) <= Ridge(Slopes(c), penalty) + Dot(PenaltyGradient(c, penalty), Minus(d, c))
                                         + Times(0.5 * penalty, SumSquares(Minus(d, c)))
  {
    hide Times, Square, Ridge;
    if c == [] {
      ZeroProduct(0.5 * penalty);
    } else {
      var n := |c| - 1;
      var g := PenaltyGradient(c, penalty);
      RidgeSmooth(c[..n], d[..n], g[..n], penalty);
      assert Minus(d, c)[..n] == Minus(d[..n], c[..n]);
      TimesDistributes(0.0, 0.0, d[n] - c[n]);
      var q, last := SumSquares(Minus(d[..n], c[..n])), Square(d[n] - c[n]);
      SquareSign(d[n] - c[n]);
      ProductNonNegative(0.5 * penalty, last);
      TimesOverSum(0.5 * penalty, q, last);
    }
  }

  /** The objective never exceeds its tangent by more than half the curvature bound times the squared step. */
  lemma ObjectiveSmooth(link: Link, rows: seq<Row>, c: Vector, d: Vector, penalty: real)
    requires Smooth(link) && |c| == |d| && Shaped(rows, |c|) && PositiveWeights(rows) && TotalWeight(rows) > 0.0
    requires penalty >= 0.0
    ensures Objective(link, rows, d, penalty)
            <= Objective(link, rows, c, penalty) + Dot(Gradient(link, rows, c, penalty), Minus(d, c))
               + 0.5 * Times(Curvature(rows, penalty), SumSquares(Minus(d, c)))
  {
    hide Dot, Times, Ratio, Smooth, Loss, Pull, Ridge, SumSquares, Spread;
    var k, p, move := Ratio(1.0, TotalWeight(rows)), Pull(link, rows, c), Minus(d, c);
    LossSmooth(link, rows, c, d);
    PenaltySmooth(c, d, penalty);
    DotAddScaled(PenaltyGradient(c, penalty), k, p, move);
    InversePositive(TotalWeight(rows));
    ScaledParabola(k, Loss(link, rows, d), Loss(link, rows, c), Dot(p, move), Spread(rows), SumSquares(move), penalty);
  }

  lemma ScaledParabola(k: real, after: real, before: real, slope: real, s: real, q: real, penalty: real)
    requires k > 0.0 && after <= before + slope + 0.125 * Times(s, q)
    ensures Times(k, after) + Times(0.5 * penalty, q)
            <= Times(k, before) + Times(k, slope) + 0.5 * Times(Times(k, 0.25 * s) + penalty, q)
  {
    var gap := before + slope + 0.125 * (s * q) - after;
    ProductNonNegative(k, gap);
    assert Times(k, gap) == k * before + k * slope + 0.125 * (k * s * q) - k * after;
    assert 0.5 * ((k * (0.25 * s) + penalty) * q) == 0.125 * (k * s * q) + 0.5 * penalty * q;
  }

  // ----- A short enough step is accepted -----

  lemma MoveAgainstGradient(c: real, g: real, step: real, constrained: bool)
    requires step > 0.0 && (constrained ==> c >= 0.0)
    ensures var move := Clip(c - Times(step, g), constrained) - c;
            Times(step, Times(g, move)) + Square(move) <= 0.0
  {
    var x := c - step * g;
    if constrained && x < 0.0 {
      ProductNonNegative(c, step * g - c);
      assert step * (g * (0.0 - c)) + (0.0 - c) * (0.0 - c) == -(c * (step * g - c));
    } else {
      assert step * (g * (x - c)) + (x - c) * (x - c) == 0.0;
    }
  }

  lemma {:induction false} DotAgainst(g: Vector, move: Vector, step: real)
    requires |g| == |move|
    requires forall i :: 0 <= i < |g| ==> Times(step, Times(g[i], move[i])) + Square(move[i]) <= 0.0
    ensures Times(step, Dot(g, move)) + SumSquares(move) <= 0.0
  {
    hide Times, Square;
    if g == [] {
      ZeroProduct(step);
    } else {
      var n := |g| - 1;
      DotAgainst(g[..n], move[..n], step);
      TimesOverSum(step, Dot(g[..n], move[..n]), Times(g[n], move[n]));
    }
  }

  /** The squared length of a projected step is at most the step times what the slope promises. */
  lemma StepAgainstGradient(c: Vector, g: Vector, prefix: nat, step: real)
    requires |c| == |g| && step > 0.0 && Feasible(c, prefix)
    ensures var move := Minus(Candidate(c, g, prefix, step), c);
            Times(step, Dot(g, move)) + SumSquares(move) <= 0.0
  {
    hide Dot, Times, Square, Candidate, Minus, Feasible, SumSquares;
    var move := Minus(Candidate(c, g, prefix, step), c);
    forall i | 0 <= i < |c| ensures Times(step, Times(g[i], move[i])) + Square(move[i]) <= 0.0 {
      MoveAt(c, g, prefix, step, i);
    }
    DotAgainst(g, move, step);
  }

  lemma MoveAt(c: Vector, g: Vector, prefix: nat, step: real, i: nat)
    requires |c| == |g| && step > 0.0 && Feasible(c, prefix) && i < |c|
    ensures var move := Minus(Candidate(c, g, prefix, step), c);
            Times(step, Times(g[i], move[i])) + Square(move[i]) <= 0.0
  {
    hide Times, Square, Clip;
    MoveAgainstGradient(c[i], g[i], step, i < prefix);
  }

  lemma AcceptedArithmetic(after: real, before: real, slope: real, q: real, l: real, step: real)
    requires step > 0.0 && l >= 0.0 && q >= 0.0 && Times(step, l) <= 1.9998 && Times(step, slope) + q <= 0.0
    requires after <= before + slope + 0.5 * Times(l, q)
    ensures after <= before + 0.0001 * slope
  {
    var fall := -slope;
    assert fall >= 0.0 by {
      if slope > 0.0 { ProductPositive(step, slope); }
    }
    ProductNonNegative(l, step * fall - q);
    assert l * (step * fall - q) == (step * l) * fall - l * q;
    ProductNonNegative(1.9998 - step * l, fall);
  }

  lemma {:induction false} SpreadNonNegative(rows: seq<Row>)
    requires PositiveWeights(rows)
    ensures Spread(rows) >= 0.0
  {
    hide Times, SumSquares;
    if rows != [] {
      var k := |rows| - 1;
      SpreadNonNegative(rows[..k]);
      SquaresNonNegative(rows[k].features);
      ProductNonNegative(rows[k].weight, SumSquares(rows[k].features));
    }
  }

  lemma {:induction false} SquaresNonNegative(v: Vector)
    ensures SumSquares(v) >= 0.0
  {
    hide Square;
    if v != [] {
      SquaresNonNegative(v[..|v| - 1]);
      SquareSign(v[|v| - 1]);
    }
  }

  lemma CurvatureNonNegative(rows: seq<Row>, penalty: real)
    requires PositiveWeights(rows) && TotalWeight(rows) > 0.0 && penalty >= 0.0
    ensures Curvature(rows, penalty) >= 0.0
  {
    hide Times, Ratio, Spread;
    SpreadNonNegative(rows);
    InversePositive(TotalWeight(rows));
    ProductNonNegative(Ratio(1.0, TotalWeight(rows)), 0.25 * Spread(rows));
  }

  /** Once the step times the curvature bound is below two, less the acceptance fraction, the proposal suffices. */
  lemma ShortStepSuffices(link: Link, rows: seq<Row>, c: Vector, prefix: nat, penalty: real, k: nat)
    requires Smooth(link) && Shaped(rows, |c|) && PositiveWeights(rows) && TotalWeight(rows) > 0.0
    requires penalty >= 0.0 && Feasible(c, prefix) && Times(Halved(k), Curvature(rows, penalty)) <= 1.9998
    ensures Suffices(link, rows, c, prefix, penalty, k)
  {
    hide Dot, Times, Objective, Gradient, Curvature, Halved, Smooth, SumSquares, Candidate, Minus;
    var g, step := Gradient(link, rows, c, penalty), Halved(k);
    var v := Proposal(link, rows, c, prefix, penalty, k);
    var move := Minus(v, c);
    ObjectiveSmooth(link, rows, c, v, penalty);
    StepAgainstGradient(c, g, prefix, step);
    SquaresNonNegative(move);
    CurvatureNonNegative(rows, penalty);
    AcceptedArithmetic(Objective(link, rows, v, penalty), Objective(link, rows, c, penalty), Dot(g, move),
                       SumSquares(move), Curvature(rows, penalty), step);
  }

  lemma {:induction false} ChosenExists(link: Link, rows: seq<Row>, c: Vector, prefix: nat, config: FitConfig, j: nat,
                                        k: nat)
    requires Shaped(rows, |c|) && TotalWeight(rows) > 0.0 && j <= k < config.maximumBacktracking
    requires Suffices(link, rows, c, prefix, config.penalty, k)
    ensures var r := Chosen(link, rows, c, prefix, config, j); r.Some? && Feasible(r.value, prefix)
    decreases k - j
  {
    hide Suffices, Proposal;
    if !Suffices(link, rows, c, prefix, config.penalty, j) {
      ChosenExists(link, rows, c, prefix, config, j + 1, k);
    }
  }

  /** With enough halvings allowed no line search runs dry, so every iterate exists and stays feasible. */
  lemma {:induction false} IteratesExist(link: Link, rows: seq<Row>, initial: Vector, prefix: nat, config: FitConfig,
                                         k: nat, n: nat)
    requires Smooth(link) && Shaped(rows, |initial|) && PositiveWeights(rows) && TotalWeight(rows) > 0.0
    requires ValidConfig(config) && Feasible(initial, prefix) && k < config.maximumBacktracking
    requires Times(Halved(k), Curvature(rows, config.penalty)) <= 1.9998
    ensures var r := Iterate(link, rows, initial, prefix, config, n); r.Some? && Feasible(r.value, prefix)
    decreases n
  {
    hide Smooth, Times, Curvature, Halved, Chosen, Suffices, Shaped, PositiveWeights;
    if n > 0 {
      IteratesExist(link, rows, initial, prefix, config, k, n - 1);
      var c := Iterate(link, rows, initial, prefix, config, n - 1).value;
      ShortStepSuffices(link, rows, c, prefix, config.penalty, k);
      ChosenExists(link, rows, c, prefix, config, 0, k);
    }
  }
}
