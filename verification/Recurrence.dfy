/**
 One step of the bounded run-length recurrence: predict, split into restart and
 growth, drop the run that would exceed the bound, renormalise.

 Probabilities are carried in place of their logarithms, in exact arithmetic, so
 a log-sum-exp is a sum and the normalisation check compares with one.
 */
module Recurrence {
  import opened RealSums
  import opened Results
  import opened NormalInverseGamma
  import opened Histories

  datatype BocpdError =
    | NonMonotonicObservation
    | CapacityExceeded
    | NumericalFailure
    | ProbabilityUnderflow

  datatype Config = Config(prior: Nig, hazard: real, maxRunLength: nat, changepointWindow: nat) {
    predicate Valid() {
      && prior.Valid()
      && 0.0 < hazard < 1.0
      && 1 <= maxRunLength <= MAXIMUM_RUN_LENGTH
      && 1 <= changepointWindow <= maxRunLength
    }
  }

  const MAXIMUM_RUN_LENGTH: nat := 65_536

  /**
   The foreign numerics: the Student-t predictive density (absent when it is not
   finite) and the smallest probability the log form keeps.
   */
  datatype Numerics = Numerics(density: (Nig, real) -> Option<real>, floor: real) {
    ghost predicate Valid() {
      && floor > 0.0
      && forall s: Nig, x: real :: density(s, x).Some? ==> density(s, x).value > 0.0
    }
  }

  /** The run-length posterior, the statistic of each run, and the mass last dropped. */
  datatype Filter = Filter(posterior: seq<real>, statistics: seq<Nig>, discardedTail: real)

  function Initial(c: Config): (f: Filter) { Filter([1.0], [c.prior], 0.0) }

  ghost predicate WellFormed(f: Filter) {
    && |f.posterior| == |f.statistics| > 0
    && forall i :: 0 <= i < |f.statistics| ==> f.statistics[i].Valid()
  }

  predicate Predictable(n: Numerics, statistics: seq<Nig>, x: real) {
    forall i :: 0 <= i < |statistics| ==> n.density(statistics[i], x).Some?
  }

  function Predictions(n: Numerics, statistics: seq<Nig>, x: real): (d: seq<real>)
    requires Predictable(n, statistics, x)
    ensures |d| == |statistics|
  {
    seq(|statistics|, i requires 0 <= i < |statistics| => n.density(statistics[i], x).value)
  }

  /** The first `n` joint terms `posterior * predictive * factor`. */
  function Terms(p: seq<real>, d: seq<real>, factor: real, n: nat): (t: seq<real>)
    requires n <= |p| == |d|
    ensures |t| == n
  {
    seq(n, i requires 0 <= i < n => Times(p[i], Times(d[i], factor)))
  }

  /** Restart mass first, then the growth of every run the bound lets survive. */
  function RetainedJoint(c: Config, p: seq<real>, d: seq<real>): (j: seq<real>)
    requires |p| == |d| > 0
    ensures |j| == Min(|p|, c.maxRunLength) + 1
  {
    [Sum(Terms(p, d, c.hazard, |p|))] + Terms(p, d, 1.0 - c.hazard, Min(|p|, c.maxRunLength))
  }

  function DiscardedGrowth(c: Config, p: seq<real>, d: seq<real>): (g: Option<real>)
    requires |p| == |d|
  {
    if |p| > c.maxRunLength
    then Some(Times(p[c.maxRunLength], Times(d[c.maxRunLength], 1.0 - c.hazard)))
    else None
  }

  function Normalized(joint: seq<real>, evidence: real): (p: seq<real>)
    requires evidence > 0.0
    ensures |p| == |joint|
  {
    seq(|joint|, i requires 0 <= i < |joint| => Ratio(joint[i], evidence))
  }

  function NextStatistics(c: Config, statistics: seq<Nig>, x: real): (s: seq<Nig>)
    requires c.prior.Valid()
    requires forall i :: 0 <= i < |statistics| ==> statistics[i].Valid()
    ensures |s| == Min(|statistics|, c.maxRunLength) + 1
    ensures forall i :: 0 <= i < |s| ==> s[i].Valid()
  {
    var kept := Min(|statistics|, c.maxRunLength);
    [c.prior] + seq(kept, i requires 0 <= i < kept => Updated(statistics[i], x))
  }

  function Advance(c: Config, n: Numerics, f: Filter, x: real): (r: Result<Filter, BocpdError>)
    requires c.Valid() && WellFormed(f)
  {
    if !Predictable(n, f.statistics, x) then Err(NumericalFailure)
    else
      var d := Predictions(n, f.statistics, x);
      var joint := RetainedJoint(c, f.posterior, d);
      var retained := Sum(joint);
      if retained <= 0.0 then Err(ProbabilityUnderflow)
      else
        var discarded := DiscardedGrowth(c, f.posterior, d);
        var full := if discarded.Some? then retained + discarded.value else retained;
        if full <= 0.0 then Err(ProbabilityUnderflow)
        else
          var tail := if discarded.Some? then Ratio(discarded.value, full) else 0.0;
          var next := Normalized(joint, retained);
          if discarded.Some? && tail > 1.0 then Err(NumericalFailure)
          else if discarded.Some? && tail < n.floor then Err(ProbabilityUnderflow)
          else if exists i :: 0 <= i < |next| && next[i] < n.floor then Err(ProbabilityUnderflow)
          else if Sum(next) != 1.0 then Err(NumericalFailure)
          else Ok(Filter(next, NextStatistics(c, f.statistics, x), tail))
  }

  // ----- What one successful step means -----

  function ModelOf(c: Config, n: Numerics): (m: Model) {
    Model(c.prior, c.hazard, c.maxRunLength,
          (s, x) => if n.density(s, x).Some? then n.density(s, x).value else 0.0)
  }

  /** Run length `r` carries the statistic of exactly the last `r` observations. */
  ghost predicate BatchStatistics(c: Config, statistics: seq<Nig>, xs: seq<real>)
    requires c.prior.Valid()
  {
    && |statistics| == Min(|xs|, c.maxRunLength) + 1
    && forall r :: 0 <= r < |statistics| ==> statistics[r] == RunStatistic(c.prior, xs, r)
  }

  function HistoriesOf(c: Config, xs: seq<real>): (hs: seq<History>)
    ensures OfLength(hs, |xs|)
    ensures forall h :: h in hs ==> RunLength(h) <= Min(|xs|, c.maxRunLength)
  {
    AllHistoriesLength(|xs|, c.maxRunLength);
    AllHistories(|xs|, c.maxRunLength)
  }

  function Evidence(c: Config, n: Numerics, xs: seq<real>): (w: real)
    requires c.Valid()
  {
    TotalMass(ModelOf(c, n), xs, HistoriesOf(c, xs))
  }

  function HistoryMass(c: Config, n: Numerics, xs: seq<real>, r: nat): (w: real)
    requires c.Valid()
  {
    Mass(ModelOf(c, n), xs, HistoriesOf(c, xs), r)
  }

  /** The posterior is the brute-force sum over histories, normalised once. */
  ghost predicate MatchesHistories(c: Config, n: Numerics, posterior: seq<real>, xs: seq<real>)
    requires c.Valid()
  {
    && |posterior| == Min(|xs|, c.maxRunLength) + 1
    && Evidence(c, n, xs) > 0.0
    && forall r :: 0 <= r < |posterior| ==> posterior[r] == HistoryMass(c, n, xs, r) / Evidence(c, n, xs)
  }

  ghost predicate Describes(c: Config, n: Numerics, f: Filter, xs: seq<real>)
    requires c.Valid()
  {
    && WellFormed(f)
    && BatchStatistics(c, f.statistics, xs)
    && MatchesHistories(c, n, f.posterior, xs)
    && Sum(f.posterior) == 1.0
    && (forall i :: 0 <= i < |f.posterior| ==> f.posterior[i] > 0.0)
  }

  lemma InitialDescribes(c: Config, n: Numerics)
    requires c.Valid()
    ensures Describes(c, n, Initial(c), [])
  {
    var m := ModelOf(c, n);
    var hs := HistoriesOf(c, []);
    assert hs == [[]];
    assert TotalMass(m, [], hs) == TotalMass(m, [], hs[..0]) + Weight(m, [], hs[0]) == 1.0;
    assert Mass(m, [], hs, 0) == Mass(m, [], hs[..0], 0) + Weight(m, [], hs[0]) == 1.0;
    assert RunStatistic(c.prior, [], 0) == c.prior;
    assert [1.0][..0] == [];
  }

  lemma StatisticsStep(c: Config, statistics: seq<Nig>, xs: seq<real>, x: real)
    requires c.Valid() && BatchStatistics(c, statistics, xs)
    ensures BatchStatistics(c, NextStatistics(c, statistics, x), xs + [x])
  {
    hide Updated;
    var next, ys := NextStatistics(c, statistics, x), xs + [x];
    forall r | 0 <= r < |next| ensures next[r] == RunStatistic(c.prior, ys, r) {
      var window := ys[|ys| - r..];
      if r == 0 {
        assert window == [];
      } else {
        assert window[..r - 1] == xs[|xs| - (r - 1)..];
        assert next[r] == Updated(RunStatistic(c.prior, xs, r - 1), x);
        assert Batch(c.prior, window) == Updated(Batch(c.prior, window[..r - 1]), x);
      }
    }
  }

  /** Each joint term is the old history mass pushed through one transition, over the old evidence. */
  lemma TermIsMass(c: Config, n: Numerics, f: Filter, xs: seq<real>, x: real, r: nat, grow: bool)
    requires c.Valid() && Describes(c, n, f, xs) && Predictable(n, f.statistics, x) && r < |f.posterior|
    ensures var d := Predictions(n, f.statistics, x);
            Times(Times(f.posterior[r], Times(d[r], if grow then 1.0 - c.hazard else c.hazard)), Evidence(c, n, xs))
            == Times(HistoryMass(c, n, xs, r), Transition(ModelOf(c, n), xs, r, x, grow))
  {
    hide Mass, TotalMass, HistoryMass, Evidence, RunStatistic;
    var d := Predictions(n, f.statistics, x);
    assert d[r] == Predictive(ModelOf(c, n), xs, r, x);
    RatioTimes(f.posterior[r], HistoryMass(c, n, xs, r), Evidence(c, n, xs),
               Times(d[r], if grow then 1.0 - c.hazard else c.hazard));
  }

  lemma RatioTimes(p: real, a: real, z: real, t: real)
    requires z > 0.0 && p == a / z
    ensures Times(Times(p, t), z) == Times(a, t)
  {
    assert p * z == a;
    assert p * t * z == (p * z) * t;
  }

  lemma HistoriesStep(c: Config, xs: seq<real>, x: real)
    ensures HistoriesOf(c, xs + [x]) == Extend(HistoriesOf(c, xs), c.maxRunLength)
  {}

  /** Joint entry `r`, scaled by the old evidence, is the new history mass at `r`. */
  lemma JointIsMass(c: Config, n: Numerics, f: Filter, xs: seq<real>, x: real, r: nat)
    requires c.Valid() && Describes(c, n, f, xs) && Predictable(n, f.statistics, x)
    requires r <= Min(|f.posterior|, c.maxRunLength)
    ensures var joint := RetainedJoint(c, f.posterior, Predictions(n, f.statistics, x));
            Times(joint[r], Evidence(c, n, xs)) == HistoryMass(c, n, xs + [x], r)
  {
    hide Mass, TotalMass, Times, Transition, Evidence, RunStatistic, Extend;
    var m, hs, d := ModelOf(c, n), HistoriesOf(c, xs), Predictions(n, f.statistics, x);
    HistoriesStep(c, xs, x);
    if r == 0 {
      var size := |f.posterior|;
      var terms, masses := Terms(f.posterior, d, c.hazard, size), RestartMasses(m, xs, x, hs, size);
      forall i | 0 <= i < size ensures masses[i] == Times(terms[i], Evidence(c, n, xs)) {
        TermIsMass(c, n, f, xs, x, i, false);
      }
      SumTimes(terms, masses, Evidence(c, n, xs));
      ResetMass(m, xs, x, hs, size);
    } else {
      TermIsMass(c, n, f, xs, x, r - 1, true);
      GrowMass(m, xs, x, hs, r - 1);
    }
  }

  lemma SumTimes(a: seq<real>, b: seq<real>, z: real)
    requires |a| == |b| && forall i :: 0 <= i < |a| ==> b[i] == Times(a[i], z)
    ensures Sum(b) == Times(Sum(a), z)
  {
    SumScale(a, b, z);
  }

  lemma RatioOfScaled(j: real, e: real, z: real)
    requires z > 0.0 && e > 0.0
    ensures Times(e, z) > 0.0
    ensures j / e == Times(j, z) / Times(e, z)
  {
    var q := j / e;
    assert q * e == j;
    ProductPositive(e, z);
    assert q * (e * z) == j * z;
  }

  /** Normalising after every step is the same as normalising the history sum once. */
  lemma PosteriorStep(c: Config, n: Numerics, f: Filter, xs: seq<real>, x: real, joint: seq<real>)
    requires c.Valid() && Describes(c, n, f, xs) && Predictable(n, f.statistics, x)
    requires joint == RetainedJoint(c, f.posterior, Predictions(n, f.statistics, x)) && Sum(joint) > 0.0
    ensures MatchesHistories(c, n, Normalized(joint, Sum(joint)), xs + [x])
  {
    hide Mass, TotalMass, Times, RetainedJoint, Evidence, HistoryMass;
    var ys, z := xs + [x], Evidence(c, n, xs);
    var masses := seq(|joint|, r requires 0 <= r < |joint| => HistoryMass(c, n, ys, r));
    forall r | 0 <= r < |joint| ensures masses[r] == Times(joint[r], z) {
      JointIsMass(c, n, f, xs, x, r);
    }
    SumTimes(joint, masses, z);
    EvidenceIsSum(c, n, ys, masses);
    RatioOfScaled(1.0, Sum(joint), z);
    forall r | 0 <= r < |joint| ensures joint[r] / Sum(joint) == HistoryMass(c, n, ys, r) / Evidence(c, n, ys) {
      RatioOfScaled(joint[r], Sum(joint), z);
    }
  }

  lemma EvidenceIsSum(c: Config, n: Numerics, xs: seq<real>, masses: seq<real>)
    requires c.Valid()
    requires |masses| == Min(|xs|, c.maxRunLength) + 1
    requires forall r :: 0 <= r < |masses| ==> masses[r] == HistoryMass(c, n, xs, r)
    ensures Evidence(c, n, xs) == Sum(masses)
  {
    TotalIsSumOfMasses(ModelOf(c, n), xs, HistoriesOf(c, xs), |masses|, masses);
  }

  lemma NormalizedSums(joint: seq<real>)
    requires Sum(joint) > 0.0
    ensures Sum(Normalized(joint, Sum(joint))) == 1.0
  {
    var e := Sum(joint);
    var p := Normalized(joint, e);
    forall i | 0 <= i < |p| ensures p[i] == (1.0 / e) * joint[i] {}
    SumScale(joint, p, 1.0 / e);
  }

  /** A successful step keeps the filter equal to the brute-force sum and its batch statistics. */
  lemma AdvanceDescribes(c: Config, n: Numerics, f: Filter, xs: seq<real>, x: real)
    requires c.Valid() && n.Valid() && Describes(c, n, f, xs)
    requires Advance(c, n, f, x).Ok?
    ensures Describes(c, n, Advance(c, n, f, x).value, xs + [x])
  {
    hide MatchesHistories, BatchStatistics, RetainedJoint, NextStatistics;
    var joint := RetainedJoint(c, f.posterior, Predictions(n, f.statistics, x));
    PosteriorStep(c, n, f, xs, x, joint);
    StatisticsStep(c, f.statistics, xs, x);
  }

  // ----- Truncation -----

  /** The whole predicted mass, before it is split into restart and growth. */
  function Predicted(p: seq<real>, d: seq<real>): (e: real)
    requires |p| == |d|
  {
    Sum(Terms(p, d, 1.0, |p|))
  }

  lemma ScaledTerms(p: seq<real>, d: seq<real>, factor: real, n: nat)
    requires n <= |p| == |d|
    ensures Sum(Terms(p, d, factor, n)) == Times(factor, Sum(Terms(p, d, 1.0, n)))
  {
    var one, scaled := Terms(p, d, 1.0, n), Terms(p, d, factor, n);
    forall i | 0 <= i < n ensures scaled[i] == factor * one[i] {
      assert p[i] * (d[i] * factor) == factor * (p[i] * (d[i] * 1.0));
    }
    SumScale(one, scaled, factor);
  }

  lemma PredictedPositive(n: Numerics, f: Filter, x: real)
    requires n.Valid() && WellFormed(f) && Predictable(n, f.statistics, x)
    requires forall i :: 0 <= i < |f.posterior| ==> f.posterior[i] > 0.0
    ensures Predicted(f.posterior, Predictions(n, f.statistics, x)) > 0.0
    ensures forall i :: 0 <= i < |f.posterior| ==>
              Times(f.posterior[i], Times(Predictions(n, f.statistics, x)[i], 1.0)) > 0.0
  {
    var p, d := f.posterior, Predictions(n, f.statistics, x);
    forall i | 0 <= i < |p| ensures Times(p[i], Times(d[i], 1.0)) > 0.0 {
      assert d[i] > 0.0;
      TimesMonotone(d[i], 1.0, 1.0);
      ProductPositive(p[i], d[i]);
    }
    SumPositive(Terms(p, d, 1.0, |p|));
  }

  /** Restart, retained growth and dropped growth account for the whole predicted mass. */
  lemma EvidenceSplit(c: Config, p: seq<real>, d: seq<real>)
    requires c.Valid() && 0 < |p| == |d| <= c.maxRunLength + 1
    ensures var joint, g := RetainedJoint(c, p, d), DiscardedGrowth(c, p, d);
            && joint[0] == Times(c.hazard, Predicted(p, d))
            && Sum(joint) + (if g.Some? then g.value else 0.0) == Predicted(p, d)
  {
    hide Times;
    var joint, k, s := RetainedJoint(c, p, d), Min(|p|, c.maxRunLength), 1.0 - c.hazard;
    ScaledTerms(p, d, c.hazard, |p|);
    ScaledTerms(p, d, s, k);
    SumConcat([joint[0]], Terms(p, d, s, k));
    assert [joint[0]][..0] == [];
    var all := Terms(p, d, 1.0, |p|);
    if |p| > c.maxRunLength {
      assert all[..k] == Terms(p, d, 1.0, k);
      TimesScale(p[k], d[k], s);
      HazardSplits(c.hazard, Sum(all[..k]), all[k]);
    } else {
      HazardSplits(c.hazard, Sum(all), 0.0);
    }
  }

  lemma HazardSplits(h: real, a: real, b: real)
    ensures Times(h, a + b) + Times(1.0 - h, a) + Times(1.0 - h, b) == a + b
    ensures Times(1.0 - h, 0.0) == 0.0
  {}

  lemma TimesScale(p: real, d: real, s: real)
    ensures Times(p, Times(d, s)) == Times(s, Times(p, Times(d, 1.0)))
  {
    assert p * (d * s) == s * (p * (d * 1.0));
  }

  /** After every step the restart probability, net of what truncation dropped, is exactly the hazard. */
  lemma TruncationIdentity(c: Config, n: Numerics, f: Filter, xs: seq<real>, x: real)
    requires c.Valid() && n.Valid() && Describes(c, n, f, xs)
    requires Advance(c, n, f, x).Ok?
    ensures var g := Advance(c, n, f, x).value;
            && 0.0 <= g.discardedTail < 1.0
            && Times(g.posterior[0], 1.0 - g.discardedTail) == c.hazard
            && (|xs| < c.maxRunLength ==> g.discardedTail == 0.0)
  {
    hide MatchesHistories, BatchStatistics, NextStatistics, RetainedJoint, DiscardedGrowth, Predicted, Predictable;
    var p, d := f.posterior, Predictions(n, f.statistics, x);
    SizeOfFilter(c, n, f, xs);
    DiscardedOnlyAtBound(c, p, d);
    PredictedPositive(n, f, x);
    EvidenceSplit(c, p, d);
    TruncationAlgebra(c.hazard, Predicted(p, d), Sum(RetainedJoint(c, p, d)));
  }

  lemma SizeOfFilter(c: Config, n: Numerics, f: Filter, xs: seq<real>)
    requires c.Valid() && Describes(c, n, f, xs)
    ensures |f.posterior| == Min(|xs|, c.maxRunLength) + 1
  {}

  lemma DiscardedOnlyAtBound(c: Config, p: seq<real>, d: seq<real>)
    requires |p| == |d|
    ensures DiscardedGrowth(c, p, d).Some? <==> |p| > c.maxRunLength
  {}

  lemma TruncationAlgebra(h: real, e: real, retained: real)
    requires 0.0 < h && 0.0 < e && 0.0 < retained
    ensures (h * e / retained) * (1.0 - (e - retained) / e) == h
  {
    var t, q := (e - retained) / e, h * e / retained;
    assert t * e == e - retained;
    assert q * retained == h * e;
    assert q * (1.0 - t) * e == q * (e - t * e) == h * e;
    assert (q * (1.0 - t) - h) * e == 0.0;
  }

  /** Every normalised probability, and the discarded tail if any, is at or above the floor. */
  predicate AboveFloor(c: Config, n: Numerics, f: Filter, x: real)
    requires c.Valid() && WellFormed(f) && Predictable(n, f.statistics, x)
  {
    var d := Predictions(n, f.statistics, x);
    var joint, g := RetainedJoint(c, f.posterior, d), DiscardedGrowth(c, f.posterior, d);
    && Sum(joint) > 0.0
    && (forall r :: 0 <= r < |joint| ==> Ratio(joint[r], Sum(joint)) >= n.floor)
    && (g.Some? ==> Sum(joint) + g.value > 0.0 && Ratio(g.value, Sum(joint) + g.value) >= n.floor)
  }

  /**
   In exact arithmetic only two things stop an update: a density that does not
   exist, and a probability below the floor. Each has its own error.
   */
  lemma AdvanceFailsExactly(c: Config, n: Numerics, f: Filter, xs: seq<real>, x: real)
    requires c.Valid() && n.Valid() && Describes(c, n, f, xs)
    ensures Advance(c, n, f, x) == Err(NumericalFailure) <==> !Predictable(n, f.statistics, x)
    ensures Advance(c, n, f, x) == Err(ProbabilityUnderflow) <==>
              Predictable(n, f.statistics, x) && !AboveFloor(c, n, f, x)
    ensures Advance(c, n, f, x).Ok? <==> Predictable(n, f.statistics, x) && AboveFloor(c, n, f, x)
  {
    hide MatchesHistories, BatchStatistics, NextStatistics, Predictable, RetainedJoint, DiscardedGrowth, Sum, Ratio;
    if Predictable(n, f.statistics, x) {
      var d := Predictions(n, f.statistics, x);
      var joint, g := RetainedJoint(c, f.posterior, d), DiscardedGrowth(c, f.posterior, d);
      SizeOfFilter(c, n, f, xs);
      PredictedPositive(n, f, x);
      RetainedPositive(c, f.posterior, d);
      NormalizedSums(joint);
      if g.Some? {
        TailAtMostOne(g.value, Sum(joint));
      }
      var next := Normalized(joint, Sum(joint));
      assert forall r :: 0 <= r < |joint| ==> next[r] == Ratio(joint[r], Sum(joint));
    }
  }

  lemma RetainedPositive(c: Config, p: seq<real>, d: seq<real>)
    requires c.Valid() && 0 < |p| == |d| <= c.maxRunLength + 1 && Predicted(p, d) > 0.0
    requires forall i :: 0 <= i < |p| ==> Times(p[i], Times(d[i], 1.0)) > 0.0
    ensures Sum(RetainedJoint(c, p, d)) > 0.0
    ensures DiscardedGrowth(c, p, d).Some? ==> DiscardedGrowth(c, p, d).value > 0.0
  {
    hide Times, Predicted;
    var joint, k := RetainedJoint(c, p, d), Min(|p|, c.maxRunLength);
    EvidenceSplit(c, p, d);
    GrowthPositive(c, p, d, k);
    SumConcat([joint[0]], Terms(p, d, 1.0 - c.hazard, k));
    assert [joint[0]][..0] == [];
    ProductPositive(c.hazard, Predicted(p, d));
  }

  lemma GrowthPositive(c: Config, p: seq<real>, d: seq<real>, k: nat)
    requires c.Valid() && k <= |p| == |d|
    requires forall i :: 0 <= i < |p| ==> Times(p[i], Times(d[i], 1.0)) > 0.0
    ensures Sum(Terms(p, d, 1.0 - c.hazard, k)) >= 0.0
    ensures DiscardedGrowth(c, p, d).Some? ==> DiscardedGrowth(c, p, d).value > 0.0
  {
    hide Times;
    forall i | 0 <= i < |p| ensures Times(p[i], Times(d[i], 1.0 - c.hazard)) > 0.0 {
      TimesScale(p[i], d[i], 1.0 - c.hazard);
      ProductPositive(1.0 - c.hazard, Times(p[i], Times(d[i], 1.0)));
    }
    SumNonNegative(Terms(p, d, 1.0 - c.hazard, k));
  }

  lemma TailAtMostOne(g: real, retained: real)
    requires g > 0.0 && retained > 0.0
    ensures Ratio(g, retained + g) <= 1.0
  {}

  // ----- Whole runs -----

  /** Feed a whole list of values to a fresh filter. */
  function Run(c: Config, n: Numerics, xs: seq<real>): (r: Result<Filter, BocpdError>)
    requires c.Valid() && n.Valid()
    ensures r.Ok? ==> Describes(c, n, r.value, xs)
  {
    if xs == [] then
      InitialDescribes(c, n);
      Ok(Initial(c))
    else
      var k := |xs| - 1;
      assert xs[..k] + [xs[k]] == xs;
      var before := Run(c, n, xs[..k]);
      if before.Err? then before
      else
        var after := Advance(c, n, before.value, xs[k]);
        assert after.Ok? ==> Describes(c, n, after.value, xs) by {
          if after.Ok? { AdvanceDescribes(c, n, before.value, xs[..k], xs[k]); }
        }
        after
  }

  /**
   After any run of successful updates: entry `r` of the posterior is the total
   weight of the admissible histories ending in run length `r`, over the total
   weight of all of them; the entries sum to one; and run length `r` holds the
   prior updated on exactly the last `r` values.
   */
  lemma RunRefinesHistories(c: Config, n: Numerics, xs: seq<real>, r: nat)
    requires c.Valid() && n.Valid() && Run(c, n, xs).Ok?
    requires r <= Min(|xs|, c.maxRunLength)
    ensures var f, m := Run(c, n, xs).value, ModelOf(c, n);
            var hs := AllHistories(|xs|, c.maxRunLength);
            && |f.posterior| == |f.statistics| == Min(|xs|, c.maxRunLength) + 1
            && OfLength(hs, |xs|)
            && TotalMass(m, xs, hs) > 0.0
            && f.posterior[r] == Mass(m, xs, hs, r) / TotalMass(m, xs, hs)
            && Sum(f.posterior) == 1.0
            && f.statistics[r] == Batch(c.prior, xs[|xs| - r..])
  {
    hide Run, Mass, TotalMass, AllHistories, Batch;
    var f := Run(c, n, xs).value;
    assert HistoriesOf(c, xs) == AllHistories(|xs|, c.maxRunLength);
    assert f.posterior[r] == HistoryMass(c, n, xs, r) / Evidence(c, n, xs);
    assert f.statistics[r] == RunStatistic(c.prior, xs, r);
  }
}
