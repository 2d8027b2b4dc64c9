/** The changepoint detector itself: a bounded causal state that an update replaces or leaves alone. */
module Bocpd {
  import opened RealSums
  import opened Results
  import opened NormalInverseGamma
  import opened Histories
  import opened Recurrence

  datatype QualityState = Trusted | Degraded | Unavailable

  datatype Observation = Observation(id: nat, eventTime: int, asKnownAt: int, value: real, quality: QualityState)

  /** The observation follows the previous one in identity, event time and knowledge time. */
  predicate Follows(previous: Option<Observation>, next: Observation) {
    previous.Some? ==>
      && next.id > previous.value.id
      && next.eventTime > previous.value.eventTime
      && next.asKnownAt >= previous.value.asKnownAt
  }

  datatype Output = Output(
    changepointProbability: real,
    resetProbability: real,
    expectedRunLength: real,
    posterior: seq<real>,
    discardedTail: real,
    observationCount: nat,
    resetCount: nat,
    lastObservation: Option<Observation>,
    quality: QualityState)

  function Weighted(p: seq<real>): (w: seq<real>) {
    seq(|p|, i requires 0 <= i < |p| => Times(p[i], i as real))
  }

  /** The posterior mass on run lengths up to the window. */
  function ChangepointProbability(c: Config, posterior: seq<real>): (p: real) {
    Sum(posterior[..Min(c.changepointWindow + 1, |posterior|)])
  }

  /** A changepoint is certain exactly while every run the filter keeps is within the window. */
  lemma ChangepointCertainEarly(c: Config, n: Numerics, f: Filter, xs: seq<real>)
    requires c.Valid() && Describes(c, n, f, xs)
    ensures 0.0 <= ChangepointProbability(c, f.posterior) <= 1.0
    ensures ChangepointProbability(c, f.posterior) == 1.0 <==>
              |xs| <= c.changepointWindow || c.changepointWindow == c.maxRunLength
  {
    hide MatchesHistories, BatchStatistics;
    var p := f.posterior;
    var k := Min(c.changepointWindow + 1, |p|);
    SizeOfFilter(c, n, f, xs);
    assert p == p[..k] + p[k..];
    SumConcat(p[..k], p[k..]);
    SumNonNegative(p[..k]);
    SumNonNegative(p[k..]);
    if k < |p| {
      SumPositive(p[k..]);
    } else {
      assert p[..k] == p;
    }
  }

  lemma ExpectedRunLengthBounds(p: seq<real>)
    requires p != [] && Sum(p) == 1.0 && forall i :: 0 <= i < |p| ==> p[i] > 0.0
    ensures 0.0 <= Sum(Weighted(p)) <= (|p| - 1) as real
  {
    hide Times;
    var top := (|p| - 1) as real;
    var scaled := seq(|p|, i requires 0 <= i < |p| => Times(p[i], top));
    forall i | 0 <= i < |p| ensures 0.0 <= Weighted(p)[i] <= scaled[i] {
      BetweenProducts(i as real, top, p[i]);
    }
    SumNonNegative(Weighted(p));
    SumTimes(p, scaled, top);
    SumMonotone(Weighted(p), scaled);
    BetweenProducts(0.0, top, 1.0);
  }

  lemma BetweenProducts(k: real, top: real, p: real)
    requires 0.0 <= k <= top && p >= 0.0
    ensures 0.0 <= Times(p, k) <= Times(p, top)
    ensures Times(1.0, top) == top
  {
    hide Times;
    ProductNonNegative(p, k);
    ProductNonNegative(p, top - k);
    TimesOverSum(p, k, top - k);
    UnitProduct(top);
  }

  lemma AdvanceStatistics(c: Config, n: Numerics, f: Filter, x: real)
    requires c.Valid() && WellFormed(f)
    ensures Advance(c, n, f, x).Ok? ==> Advance(c, n, f, x).value.statistics == NextStatistics(c, f.statistics, x)
  {}

  /** The output at a filter. */
  function OutputOf(c: Config, f: Filter, observations: nat, resets: nat, last: Option<Observation>,
                    quality: QualityState): (out: Output)
    requires |f.posterior| > 0
  {
    Output(ChangepointProbability(c, f.posterior), f.posterior[0], Sum(Weighted(f.posterior)), f.posterior,
           f.discardedTail, observations, resets, last, quality)
  }

  /** What every output satisfies: normalisation, truncation, the early window and the range of the run length. */
  predicate Lawful(c: Config, out: Output) {
    && |out.posterior| == Min(out.observationCount, c.maxRunLength) + 1
    && Sum(out.posterior) == 1.0
    && (out.observationCount > 0 ==> Times(out.resetProbability, 1.0 - out.discardedTail) == c.hazard)
    && (out.changepointProbability == 1.0 <==>
          out.observationCount <= c.changepointWindow || c.changepointWindow == c.maxRunLength)
    && 0.0 <= out.expectedRunLength <= Min(out.observationCount, c.maxRunLength) as real
  }

  lemma OutputLaws(c: Config, n: Numerics, f: Filter, xs: seq<real>, resets: nat, last: Option<Observation>,
                   quality: QualityState)
    requires c.Valid() && Describes(c, n, f, xs) && |f.posterior| > 0
    requires xs != [] ==> Times(f.posterior[0], 1.0 - f.discardedTail) == c.hazard
    ensures Lawful(c, OutputOf(c, f, |xs|, resets, last, quality))
  {
    hide Times, ChangepointProbability, Weighted, MatchesHistories, BatchStatistics, Sum;
    ChangepointCertainEarly(c, n, f, xs);
    SizeOfFilter(c, n, f, xs);
    ExpectedRunLengthBounds(f.posterior);
  }

  class Detector {
    const config: Config
    const numerics: Numerics
    var posterior: seq<real>
    var statistics: seq<Nig>
    var observationCount: nat
    var resetCount: nat
    var lastObservation: Option<Observation>
    var quality: QualityState
    var discardedTail: real
    /** The values accepted since the last reset. */
    ghost var seen: seq<real>

    ghost predicate Valid()
      reads this
    {
      && config.Valid()
      && numerics.Valid()
      && Describes(config, numerics, State(), seen)
      && observationCount == |seen| <= U64_MAX
      && resetCount <= U64_MAX
      && (lastObservation.None? <==> seen == [])
      && (lastObservation.Some? ==> lastObservation.value.value == seen[|seen| - 1])
      && 0.0 <= discardedTail < 1.0
      && (seen != [] ==> Times(posterior[0], 1.0 - discardedTail) == config.hazard)
    }

    function State(): (f: Filter)
      reads this
    {
      Filter(posterior, statistics, discardedTail)
    }

    constructor (c: Config, n: Numerics)
      requires c.Valid() && n.Valid()
      ensures Valid() && config == c && numerics == n
      ensures seen == [] && resetCount == 0 && State() == Initial(c)
    {
      config, numerics := c, n;
      posterior, statistics, discardedTail := [1.0], [c.prior], 0.0;
      observationCount, resetCount := 0, 0;
      lastObservation, quality := None, Unavailable;
      seen := [];
      new;
      InitialDescribes(c, n);
    }

    /** Where an observation leads, or why it is refused: out of order, then a full counter, then the recurrence. */
    ghost function Attempt(o: Observation): (r: Result<Filter, BocpdError>)
      requires Valid()
      reads this
    {
      hide Advance, MatchesHistories, BatchStatistics, Times, Sum;
      if !Follows(lastObservation, o) then Err(NonMonotonicObservation)
      else if observationCount == U64_MAX then Err(CapacityExceeded)
      else Advance(config, numerics, State(), o.value)
    }

    /**
     Either the whole state advances by one observation, exactly as the
     recurrence says, or nothing changes at all.
     */
    method Update(o: Observation) returns (r: Result<Output, BocpdError>)
      requires Valid()
      modifies this
      ensures Valid()
      ensures r.Err? <==> old(Attempt(o)).Err?
      ensures r.Err? ==> unchanged(this) && r.error == old(Attempt(o)).error
      ensures r.Ok? ==>
                && old(Attempt(o)) == Ok(State())
                && seen == old(seen) + [o.value]
                && lastObservation == Some(o)
                && quality == o.quality
                && resetCount == old(resetCount)
                && r.value == CurrentOutput()
    {
      hide Times, MatchesHistories, BatchStatistics, Advance, NextStatistics, ChangepointProbability;
      if !Follows(lastObservation, o) {
        return Err(NonMonotonicObservation);
      }
      if observationCount == U64_MAX {
        return Err(CapacityExceeded);
      }
      var next := Advance(config, numerics, State(), o.value);
      if next.Err? {
        return Err(next.error);
      }
      AdvanceDescribes(config, numerics, State(), seen, o.value);
      TruncationIdentity(config, numerics, State(), seen, o.value);
      AdvanceStatistics(config, numerics, State(), o.value);
      var nextStatistics := UpdateStatistics(o.value);
      posterior, statistics := next.value.posterior, nextStatistics;
      observationCount := observationCount + 1;
      lastObservation, quality := Some(o), o.quality;
      discardedTail := next.value.discardedTail;
      seen := seen + [o.value];
      return Ok(CurrentOutput());
    }

    /** A fresh run joins with the prior; every kept run absorbs the value; the longest one drops out. */
    method UpdateStatistics(value: real) returns (next: seq<Nig>)
      requires Valid()
      ensures next == NextStatistics(config, statistics, value)
    {
      hide Updated, MatchesHistories, BatchStatistics, Times;
      next := [config.prior];
      var kept := Min(|statistics|, config.maxRunLength);
      for i := 0 to kept
        invariant |next| == i + 1 && next[0] == config.prior
        invariant forall k :: 0 <= k < i ==> next[k + 1] == Updated(statistics[k], value)
      {
        next := next + [Updated(statistics[i], value)];
      }
      assert next == NextStatistics(config, statistics, value);
    }

    /** Forget everything but the reset counter. */
    method Reset() returns (r: Result<Output, BocpdError>)
      requires Valid()
      modifies this
      ensures Valid()
      ensures r.Err? ==> unchanged(this)
      ensures r.Ok? <==> old(resetCount) < U64_MAX
      ensures r.Ok? ==>
                && State() == Initial(config)
                && seen == []
                && lastObservation == None
                && quality == Unavailable
                && resetCount == old(resetCount) + 1
                && r.value == CurrentOutput()
    {
      hide Times, MatchesHistories, BatchStatistics, ChangepointProbability;
      if resetCount == U64_MAX {
        return Err(CapacityExceeded);
      }
      InitialDescribes(config, numerics);
      posterior, statistics, discardedTail := [1.0], [config.prior], 0.0;
      observationCount, resetCount := 0, resetCount + 1;
      lastObservation, quality := None, Unavailable;
      seen := [];
      return Ok(CurrentOutput());
    }

    function CurrentOutput(): (out: Output)
      requires Valid()
      reads this
      ensures Lawful(config, out)
    {
      hide Times, Lawful, OutputOf, MatchesHistories, BatchStatistics;
      OutputLaws(config, numerics, State(), seen, resetCount, lastObservation, quality);
      OutputOf(config, State(), observationCount, resetCount, lastObservation, quality)
    }
  }
}
