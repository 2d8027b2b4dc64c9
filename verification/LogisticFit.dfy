/** Projected gradient descent with backtracking, as both parametric calibrators run it. */
module LogisticFit {
  import opened RealSums
  import opened Results
  import opened Vectors
  import opened Logistic
  import Checked

  datatype FitConfig = FitConfig(maximumIterations: nat, maximumBacktracking: nat, tolerance: real, penalty: real)

  datatype FitError = InvalidFitConfig | WorkCapacity | InvalidObservationWeight | NonConverged

  datatype Fit = Fit(coefficients: Vector, iterations: nat, objective: real, norm: real, evaluations: nat)

  const MAXIMUM_WORK: nat := 16_000_000_000

  predicate ValidConfig(c: FitConfig) {
    && 0 < c.maximumIterations <= 100_000
    && 0 < c.maximumBacktracking <= 128
    && 0.0 < c.tolerance <= 0.01
    && 0.0 <= c.penalty <= 1.0
  }

  predicate Affordable(c: FitConfig, observations: nat) {
    c.maximumIterations * observations * c.maximumBacktracking <= MAXIMUM_WORK
  }

  // ----- Evaluating the objective and its gradient -----

  method LogisticObjective(link: Link, rows: seq<Row>, c: Vector, penalty: real) returns (r: Result<real, FitError>)
    requires Shaped(rows, |c|)
    ensures r == if TotalWeight(rows) <= 0.0 then Err(InvalidObservationWeight)
                 else Ok(Objective(link, rows, c, penalty))
  {
    hide Times, Dot, Square, Ratio;
    var weightSum := TotalWeight(rows);
    if weightSum <= 0.0 {
      return Err(InvalidObservationWeight);
    }
    var total := 0.0;
    for k := 0 to |rows|
      invariant total == Loss(link, rows[..k], c)
    {
      assert rows[..k + 1][..k] == rows[..k];
      var linear := Dot(rows[k].features, c);
      total := total + Times(rows[k].weight, link.softplus(linear) - Times(rows[k].outcome, linear));
    }
    assert rows[..|rows|] == rows;
    RatioIsTimes(total, weightSum);
    total := Ratio(total, weightSum);
    var slopes := Slopes(c);
    ghost var mean := total;
    for i := 0 to |slopes|
      invariant total == mean + Ridge(slopes[..i], penalty)
    {
      assert slopes[..i + 1][..i] == slopes[..i];
      total := total + Times(0.5 * penalty, Square(slopes[i]));
    }
    assert slopes[..|slopes|] == slopes;
    return Ok(total);
  }

  lemma RatioIsTimes(x: real, w: real)
    requires w > 0.0
    ensures Ratio(x, w) == Times(Ratio(1.0, w), x)
  {}

  method LogisticGradient(link: Link, rows: seq<Row>, c: Vector, penalty: real) returns (r: Result<Vector, FitError>)
    requires Shaped(rows, |c|)
    ensures r == if TotalWeight(rows) <= 0.0 then Err(InvalidObservationWeight)
                 else Ok(Gradient(link, rows, c, penalty))
  {
    hide Times, Dot, Ratio;
    var weightSum := TotalWeight(rows);
    if weightSum <= 0.0 {
      return Err(InvalidObservationWeight);
    }
    var gradient := Zeros(|c|);
    for k := 0 to |rows|
      invariant gradient == Pull(link, rows[..k], c)
    {
      assert rows[..k + 1][..k] == rows[..k];
      var residual := Times(rows[k].weight, link.sigmoid(Dot(rows[k].features, c)) - rows[k].outcome);
      gradient := AddRow(gradient, residual, rows[k].features);
    }
    assert rows[..|rows|] == rows;
    ghost var pull := gradient;
    for i := 0 to |c|
      invariant |gradient| == |c|
      invariant forall j :: i <= j < |c| ==> gradient[j] == pull[j]
      invariant forall j :: 0 <= j < i ==> gradient[j] == Gradient(link, rows, c, penalty)[j]
    {
      RatioIsTimes(gradient[i], weightSum);
      gradient := gradient[i := Ratio(gradient[i], weightSum) + if i + 1 == |c| then 0.0 else Times(penalty, c[i])];
    }
    assert gradient == Gradient(link, rows, c, penalty);
    return Ok(gradient);
  }

  method AddRow(gradient: Vector, residual: real, features: Vector) returns (v: Vector)
    requires |gradient| == |features|
    ensures v == AddScaled(gradient, residual, features)
  {
    hide Times;
    v := gradient;
    for i := 0 to |features|
      invariant |v| == |gradient|
      invariant forall j :: 0 <= j < i ==> v[j] == AddScaled(gradient, residual, features)[j]
      invariant forall j :: i <= j < |v| ==> v[j] == gradient[j]
    {
      v := v[i := Times(residual, features[i]) + v[i]];
    }
  }

  // ----- The descent -----

  function Halved(k: nat): (step: real)
    ensures step > 0.0
  {
    if k == 0 then 1.0 else Halved(k - 1) * 0.5
  }

  /** The point the `k`-th halving of the step proposes from `c`. */
  function Proposal(link: Link, rows: seq<Row>, c: Vector, prefix: nat, penalty: real, k: nat): (v: Vector)
    requires Shaped(rows, |c|) && TotalWeight(rows) > 0.0
    ensures |v| == |c| && Feasible(v, prefix)
  {
    Candidate(c, Gradient(link, rows, c, penalty), prefix, Halved(k))
  }

  /** It falls by at least a ten-thousandth of what the slope promises. */
  predicate Suffices(link: Link, rows: seq<Row>, c: Vector, prefix: nat, penalty: real, k: nat)
    requires Shaped(rows, |c|) && TotalWeight(rows) > 0.0
  {
    var v := Proposal(link, rows, c, prefix, penalty, k);
    Objective(link, rows, v, penalty)
    <= Objective(link, rows, c, penalty) + 0.0001 * Dot(Gradient(link, rows, c, penalty), Minus(v, c))
  }

  /** The first proposal that suffices, from halving `k` up to the limit. */
  function Chosen(link: Link, rows: seq<Row>, c: Vector, prefix: nat, config: FitConfig, k: nat): (r: Option<Vector>)
    requires Shaped(rows, |c|) && TotalWeight(rows) > 0.0 && k <= config.maximumBacktracking
    ensures r.Some? ==> |r.value| == |c|
    decreases config.maximumBacktracking - k
  {
    if k == config.maximumBacktracking then None
    else if Suffices(link, rows, c, prefix, config.penalty, k)
    then Some(Proposal(link, rows, c, prefix, config.penalty, k))
    else Chosen(link, rows, c, prefix, config, k + 1)
  }

  /** Where `n` steps of descent lead, unless a line search runs dry before. */
  function Iterate(link: Link, rows: seq<Row>, initial: Vector, prefix: nat, config: FitConfig, n: nat)
    : (r: Option<Vector>)
    requires Shaped(rows, |initial|) && TotalWeight(rows) > 0.0
    ensures r.Some? ==> |r.value| == |initial|
  {
    if n == 0 then Some(initial)
    else
      match Iterate(link, rows, initial, prefix, config, n - 1)
      case None => None
      case Some(c) => Chosen(link, rows, c, prefix, config, 0)
  }

  /** The `n`-th point exists and is stationary up to the tolerance. */
  predicate StopsAt(link: Link, rows: seq<Row>, initial: Vector, prefix: nat, config: FitConfig, n: nat)
    requires Shaped(rows, |initial|) && TotalWeight(rows) > 0.0
  {
    var point := Iterate(link, rows, initial, prefix, config, n);
    point.Some?
    && Norm(point.value, Gradient(link, rows, point.value, config.penalty), prefix, |initial|) <= config.tolerance
  }

  /** What a returned fit is, and what it guarantees about where it started. */
  ghost predicate Converged(link: Link, rows: seq<Row>, initial: Vector, prefix: nat, config: FitConfig, fit: Fit)
    requires Shaped(rows, |initial|) && TotalWeight(rows) > 0.0
  {
    && |fit.coefficients| == |initial|
    && fit.iterations < config.maximumIterations
    && Iterate(link, rows, initial, prefix, config, fit.iterations) == Some(fit.coefficients)
    && (forall n :: 0 <= n < fit.iterations ==> !StopsAt(link, rows, initial, prefix, config, n))
    && fit.evaluations <= 1 + fit.iterations * config.maximumBacktracking
    && fit.objective == Objective(link, rows, fit.coefficients, config.penalty)
    && fit.norm == Norm(fit.coefficients, Gradient(link, rows, fit.coefficients, config.penalty), prefix, |initial|)
    && fit.norm <= config.tolerance
    && (Feasible(initial, prefix) ==>
          && Feasible(fit.coefficients, prefix)
          && fit.objective <= Objective(link, rows, initial, config.penalty)
          && (fit.iterations > 0 ==> fit.objective < Objective(link, rows, initial, config.penalty)))
  }

  /** A proposal that suffices is strictly better than the point it starts from. */
  lemma SufficesImproves(link: Link, rows: seq<Row>, c: Vector, prefix: nat, penalty: real, k: nat)
    requires Shaped(rows, |c|) && TotalWeight(rows) > 0.0 && Feasible(c, prefix)
    requires Norm(c, Gradient(link, rows, c, penalty), prefix, |c|) > 0.0
    requires Suffices(link, rows, c, prefix, penalty, k)
    ensures Objective(link, rows, Proposal(link, rows, c, prefix, penalty, k), penalty)
            < Objective(link, rows, c, penalty)
  {
    hide Times, Dot, Objective, Norm, Gradient;
    StepDescends(c, Gradient(link, rows, c, penalty), prefix, Halved(k));
  }

  /** The line search returns the first proposal that suffices, if the limit allows one. */
  method Backtrack(link: Link, rows: seq<Row>, c: Vector, objective: real, gradient: Vector, prefix: nat,
                   config: FitConfig, evaluations: nat)
    returns (accepted: Option<(Vector, real)>, spent: nat)
    requires Shaped(rows, |c|) && TotalWeight(rows) > 0.0
    requires gradient == Gradient(link, rows, c, config.penalty)
    requires objective == Objective(link, rows, c, config.penalty)
    requires Norm(c, gradient, prefix, |c|) > 0.0
    requires evaluations + config.maximumBacktracking <= U64_MAX
    ensures evaluations <= spent <= evaluations + config.maximumBacktracking
    ensures accepted.None? <==> Chosen(link, rows, c, prefix, config, 0).None?
    ensures accepted.Some? ==>
              var (v, value) := accepted.value;
              && Chosen(link, rows, c, prefix, config, 0) == Some(v)
              && value == Objective(link, rows, v, config.penalty)
              && Feasible(v, prefix)
              && (Feasible(c, prefix) ==> value < objective)
  {
    hide Times, Dot, Objective, Norm, Clip, Gradient;
    var step := 1.0;
    accepted, spent := None, evaluations;
    for k := 0 to config.maximumBacktracking
      invariant step == Halved(k) && spent == evaluations + k
      invariant Chosen(link, rows, c, prefix, config, k) == Chosen(link, rows, c, prefix, config, 0)
    {
      var candidate := Candidate(c, gradient, prefix, step);
      var value := LogisticObjective(link, rows, candidate, config.penalty);
      spent := spent + 1;
      var slope := Dot(gradient, Minus(candidate, c));
      if value.value <= objective + 0.0001 * slope {
        assert Suffices(link, rows, c, prefix, config.penalty, k);
        if Feasible(c, prefix) { SufficesImproves(link, rows, c, prefix, config.penalty, k); }
        accepted := Some((candidate, value.value));
        return;
      }
      step := step * 0.5;
    }
  }

  /** The descent returns the first point that meets the tolerance, and gives up exactly when none does in time. */
  method FitLogistic(link: Link, rows: seq<Row>, initial: Vector, prefix: nat, config: FitConfig)
    returns (r: Result<Fit, FitError>)
    requires Shaped(rows, |initial|)
    ensures r == Err(InvalidFitConfig) <==> !ValidConfig(config)
    ensures r == Err(WorkCapacity) <==> ValidConfig(config) && !Affordable(config, |rows|)
    ensures r == Err(InvalidObservationWeight) <==>
              ValidConfig(config) && Affordable(config, |rows|) && TotalWeight(rows) <= 0.0
    ensures r == Err(NonConverged) ==>
              TotalWeight(rows) > 0.0
              && forall n :: 0 <= n < config.maximumIterations ==> !StopsAt(link, rows, initial, prefix, config, n)
    ensures r.Ok? ==> TotalWeight(rows) > 0.0 && Converged(link, rows, initial, prefix, config, r.value)
  {
    hide Times, Dot, Objective, Gradient, Norm, Chosen;
    if !ValidConfig(config) {
      return Err(InvalidFitConfig);
    }
    if !Affordable(config, |rows|) {
      return Err(WorkCapacity);
    }
    var first := LogisticObjective(link, rows, initial, config.penalty);
    if first.Err? {
      return Err(first.error);
    }
    var c, objective, evaluations := initial, first.value, 1;
    for iteration := 0 to config.maximumIterations
      invariant |c| == |initial| && objective == Objective(link, rows, c, config.penalty)
      invariant Iterate(link, rows, initial, prefix, config, iteration) == Some(c)
      invariant forall n :: 0 <= n < iteration ==> !StopsAt(link, rows, initial, prefix, config, n)
      invariant evaluations <= 1 + iteration * config.maximumBacktracking
      invariant Feasible(initial, prefix) ==>
                  && Feasible(c, prefix)
                  && objective <= first.value
                  && (iteration > 0 ==> objective < first.value)
    {
      var gradient := LogisticGradient(link, rows, c, config.penalty);
      var norm := Norm(c, gradient.value, prefix, |c|);
      if norm <= config.tolerance {
        return Ok(Fit(c, iteration, objective, norm, evaluations));
      }
      CounterFits(iteration, config.maximumIterations, config.maximumBacktracking);
      var accepted, spent := Backtrack(link, rows, c, objective, gradient.value, prefix, config, evaluations);
      if accepted.None? {
        NothingAfter(link, rows, initial, prefix, config, iteration, config.maximumIterations);
        return Err(NonConverged);
      }
      c, objective, evaluations := accepted.value.0, accepted.value.1, spent;
    }
    return Err(NonConverged);
  }

  /** Once a line search runs dry there are no further points. */
  lemma {:induction false} NothingAfter(link: Link, rows: seq<Row>, initial: Vector, prefix: nat, config: FitConfig,
                                        k: nat, n: nat)
    requires Shaped(rows, |initial|) && TotalWeight(rows) > 0.0 && k < n
    requires Iterate(link, rows, initial, prefix, config, k + 1).None?
    ensures forall m :: k < m <= n ==> Iterate(link, rows, initial, prefix, config, m).None?
  {
    hide Chosen;
    if k + 1 < n { NothingAfter(link, rows, initial, prefix, config, k, n - 1); }
  }

  /** The evaluation counter is nowhere near its width. */
  lemma CounterFits(iteration: nat, iterations: nat, steps: nat)
    requires iteration < iterations <= 100_000 && steps <= 128
    ensures 1 + iteration * steps + steps <= U64_MAX
    ensures (iteration + 1) * steps == iteration * steps + steps
  {
    Checked.MulMonotone(iteration, iteration, steps, 128);
  }

  /** Whatever the descent returns is near-optimal over the monotone cone. */
  lemma FitNearOptimal(link: Link, rows: seq<Row>, initial: Vector, prefix: nat, config: FitConfig, fit: Fit,
                       rival: Vector)
    requires Convex(link) && Shaped(rows, |initial|) && PositiveWeights(rows) && TotalWeight(rows) > 0.0
    requires ValidConfig(config) && Feasible(initial, prefix)
    requires Converged(link, rows, initial, prefix, config, fit)
    requires |rival| == |initial| && Feasible(rival, prefix)
    ensures var gradient := Gradient(link, rows, fit.coefficients, config.penalty);
            fit.objective <= Objective(link, rows, rival, config.penalty)
                             + Times(config.tolerance, Sum(Reach(fit.coefficients, rival, gradient)))
  {
    hide Times, Objective, Gradient, Norm, Sum;
    StoppingPointNearOptimal(link, rows, fit.coefficients, rival, config.penalty, prefix, config.tolerance);
  }
}
