/** Choosing among the three calibrators: fit, score, rank, refit on everything, fall back. */
module Selection {
  import opened Results
  import Clusters
  import Support

  datatype Kind = Platt | Beta | Isotonic

  const KINDS: seq<Kind> := [Platt, Beta, Isotonic]

  function Rank(k: Kind): (n: nat)
    ensures n < 3 && KINDS[n] == k
  {
    match k case Platt => 0 case Beta => 1 case Isotonic => 2
  }

  /** The numerical work: fitting on the fit rows, scoring on the selector rows, refitting on all rows. */
  datatype Work<!M> =
    Work(fit: Kind -> Result<M, Cause>, score: M -> Result<real, Cause>, refit: Kind -> Result<M, Cause>)

  datatype Cause = OptimizerNonconvergence | NonfiniteArithmetic | UndefinedMetric | WorkCapacity | InvalidCandidate

  datatype Reason = BelowIsotonicMinimum | Failure(cause: Cause) | RefitFailure(cause: Cause)

  datatype Candidate = Eligible(kind: Kind, score: real) | Ineligible(kind: Kind, reason: Reason)

  datatype SelectionError = InvalidObservationWeight | InsufficientSupport | NoEligibleCandidate | InvalidCalibrator

  // ----- What each candidate deserves -----

  /** The candidate's standing before any refit. */
  function Standing<M>(w: Work<M>, isotonicAllowed: bool, k: Kind): (c: Candidate)
    ensures c.kind == k
  {
    if k == Isotonic && !isotonicAllowed then Ineligible(k, BelowIsotonicMinimum)
    else match w.fit(k)
      case Err(e) => Ineligible(k, Failure(e))
      case Ok(m) => match w.score(m)
        case Err(e) => Ineligible(k, Failure(e))
        case Ok(s) => Eligible(k, s)
  }

  /** Better score first, earlier kind among equals. */
  predicate Better(a: Candidate, b: Candidate)
    requires a.Eligible? && b.Eligible?
  {
    a.score < b.score || (a.score == b.score && Rank(a.kind) < Rank(b.kind))
  }

  predicate Preferred<M>(w: Work<M>, isotonicAllowed: bool, j: Kind, k: Kind) {
    var a, b := Standing(w, isotonicAllowed, j), Standing(w, isotonicAllowed, k);
    a.Eligible? && b.Eligible? && Better(a, b)
  }

  /** The kind the selection must return: it refits, and every better candidate does not. */
  ghost predicate Chosen<M>(w: Work<M>, isotonicAllowed: bool, k: Kind) {
    && Standing(w, isotonicAllowed, k).Eligible?
    && w.refit(k).Ok?
    && forall j :: Preferred(w, isotonicAllowed, j, k) ==> w.refit(j).Err?
  }

  /** What the report says of a kind once `chosen` won: better candidates are demoted, worse ones kept as they were. */
  ghost function Reported<M>(w: Work<M>, isotonicAllowed: bool, chosen: Kind, k: Kind): (c: Candidate) {
    if Preferred(w, isotonicAllowed, k, chosen) && w.refit(k).Err?
    then Ineligible(k, RefitFailure(w.refit(k).error)) else Standing(w, isotonicAllowed, k)
  }

  lemma BetterTotal(a: Candidate, b: Candidate)
    requires a.Eligible? && b.Eligible?
    ensures a.kind == b.kind || Better(a, b) || Better(b, a)
    ensures !(Better(a, b) && Better(b, a)) && !Better(a, a)
  {
    assert Rank(a.kind) == Rank(b.kind) ==> a.kind == b.kind;
  }

  lemma BetterTransitive(a: Candidate, b: Candidate, c: Candidate)
    requires a.Eligible? && b.Eligible? && c.Eligible? && Better(a, b) && Better(b, c)
    ensures Better(a, c)
  {}

  /** At most one kind can be chosen. */
  lemma ChosenUnique<M>(w: Work<M>, isotonicAllowed: bool, j: Kind, k: Kind)
    requires Chosen(w, isotonicAllowed, j) && Chosen(w, isotonicAllowed, k)
    ensures j == k
  {
    hide Better;
    BetterTotal(Standing(w, isotonicAllowed, j), Standing(w, isotonicAllowed, k));
    assert !Preferred(w, isotonicAllowed, j, k) && !Preferred(w, isotonicAllowed, k, j);
  }

  /** In the report, no candidate still eligible beats the chosen one, and every better one lost its refit. */
  lemma ChosenIsBestReported<M>(w: Work<M>, isotonicAllowed: bool, chosen: Kind, k: Kind)
    requires Chosen(w, isotonicAllowed, chosen)
    ensures Reported(w, isotonicAllowed, chosen, chosen) == Standing(w, isotonicAllowed, chosen)
    ensures var c, winner := Reported(w, isotonicAllowed, chosen, k), Standing(w, isotonicAllowed, chosen);
            c.Eligible? ==> c == Standing(w, isotonicAllowed, k) && !Better(c, winner)
    ensures Preferred(w, isotonicAllowed, k, chosen) ==>
              Reported(w, isotonicAllowed, chosen, k) == Ineligible(k, RefitFailure(w.refit(k).error))
  {
    hide Better;
    var winner := Standing(w, isotonicAllowed, chosen);
    BetterTotal(winner, winner);
    assert Preferred(w, isotonicAllowed, k, chosen) ==> w.refit(k).Err?;
  }

  ghost predicate AnyRefits<M>(w: Work<M>, isotonicAllowed: bool) {
    exists k :: Standing(w, isotonicAllowed, k).Eligible? && w.refit(k).Ok?
  }

  // ----- The ranked list -----

  ghost predicate Ranked(cs: seq<Candidate>) {
    && (forall i :: 0 <= i < |cs| ==> cs[i].Eligible?)
    && (forall i, j :: 0 <= i < j < |cs| ==> Better(cs[i], cs[j]))
  }

  function Place(cs: seq<Candidate>, c: Candidate): (r: seq<Candidate>)
    requires c.Eligible? && forall i :: 0 <= i < |cs| ==> cs[i].Eligible?
    ensures forall i :: 0 <= i < |r| ==> r[i].Eligible?
    ensures forall x :: x in r <==> x in cs || x == c
  {
    var n := |cs| - 1;
    if cs == [] || !Better(c, cs[n]) then cs + [c]
    else
      assert cs == cs[..n] + [cs[n]];
      Place(cs[..n], c) + [cs[n]]
  }

  lemma {:induction false} PlaceRanks(cs: seq<Candidate>, c: Candidate)
    requires Ranked(cs) && c.Eligible? && forall i :: 0 <= i < |cs| ==> cs[i].kind != c.kind
    ensures Ranked(Place(cs, c))
  {
    hide Better;
    var n := |cs| - 1;
    if cs == [] {
    } else if Better(c, cs[n]) {
      PlaceRanks(cs[..n], c);
      var front := Place(cs[..n], c);
      forall i | 0 <= i < |front| ensures Better(front[i], cs[n]) {
        assert front[i] in front;
        assert front[i] in cs[..n] || front[i] == c;
      }
    } else {
      BetterTotal(c, cs[n]);
      forall i | 0 <= i < |cs| ensures Better(cs[i], c) {
        if i < n { BetterTransitive(cs[i], cs[n], c); }
      }
    }
  }

  /** The standings of the first `n` kinds, and the eligible ones ranked. */
  ghost predicate Assessed<M>(w: Work<M>, isotonicAllowed: bool, n: nat, candidates: seq<Candidate>,
                              fitted: seq<Candidate>) {
    && |candidates| == n <= 3
    && (forall k :: Rank(k) < n ==> candidates[Rank(k)] == Standing(w, isotonicAllowed, k))
    && Ranked(fitted)
    && (forall c :: c in fitted ==> Rank(c.kind) < n && c == Standing(w, isotonicAllowed, c.kind))
    && (forall k :: Rank(k) < n && Standing(w, isotonicAllowed, k).Eligible? ==>
                      Standing(w, isotonicAllowed, k) in fitted)
  }

  /** Fit and score every kind in turn, keeping the eligible ones ranked. */
  method Assess<M>(w: Work<M>, isotonicAllowed: bool) returns (candidates: seq<Candidate>, fitted: seq<Candidate>)
    ensures Assessed(w, isotonicAllowed, 3, candidates, fitted)
  {
    hide Better, Place, Standing;
    candidates, fitted := [], [];
    for n := 0 to 3
      invariant Assessed(w, isotonicAllowed, n, candidates, fitted)
    {
      var c := Standing(w, isotonicAllowed, KINDS[n]);
      assert Rank(c.kind) == n;
      if c.Eligible? {
        forall i | 0 <= i < |fitted| ensures fitted[i].kind != c.kind {
          assert fitted[i] in fitted;
        }
        PlaceRanks(fitted, c);
        fitted := Place(fitted, c);
      }
      candidates := candidates + [c];
    }
  }

  /** The choice among the assessed candidates, its report, and when there is none. */
  method Choose<M>(w: Work<M>, isotonicAllowed: bool)
    returns (r: Result<(Kind, M), SelectionError>, candidates: seq<Candidate>)
    ensures r.Ok? <==> AnyRefits(w, isotonicAllowed)
    ensures r.Err? ==> r.error == NoEligibleCandidate
    ensures r.Ok? ==>
              && Chosen(w, isotonicAllowed, r.value.0)
              && Ok(r.value.1) == w.refit(r.value.0)
              && |candidates| == 3
              && forall k :: candidates[Rank(k)] == Reported(w, isotonicAllowed, r.value.0, k)
  {
    hide Standing, Better, Ranked;
    var fitted: seq<Candidate>;
    candidates, fitted := Assess(w, isotonicAllowed);
    ghost var standings := candidates;
    for n := 0 to |fitted|
      invariant |candidates| == 3
      invariant forall i :: 0 <= i < n ==> w.refit(fitted[i].kind).Err?
      invariant forall k :: candidates[Rank(k)] == Demoted(w, standings[Rank(k)], fitted[..n])
    {
      var kind := fitted[n].kind;
      match w.refit(kind)
      case Ok(m) =>
        SelectedIsChosen(w, isotonicAllowed, standings, fitted, n);
        return Ok((kind, m)), candidates;
      case Err(e) =>
        assert fitted[n] in fitted;
        assert fitted[..n + 1] == fitted[..n] + [fitted[n]];
        candidates := candidates[Rank(kind) := Ineligible(kind, RefitFailure(e))];
    }
    forall k | Standing(w, isotonicAllowed, k).Eligible? ensures w.refit(k).Err? {
      var i :| 0 <= i < |fitted| && fitted[i] == Standing(w, isotonicAllowed, k);
    }
    return Err(NoEligibleCandidate), candidates;
  }

  /** A standing, overwritten when it is among the candidates already tried. */
  ghost function Demoted<M>(w: Work<M>, c: Candidate, tried: seq<Candidate>): (d: Candidate) {
    if c in tried && w.refit(c.kind).Err? then Ineligible(c.kind, RefitFailure(w.refit(c.kind).error)) else c
  }

  /** In a ranked list, the better candidates are the ones before. */
  lemma BetterIsBefore(cs: seq<Candidate>, n: nat, c: Candidate)
    requires Ranked(cs) && n < |cs|
    ensures c in cs[..n] <==> c in cs && Better(c, cs[n])
  {
    hide Better;
    if c in cs {
      var i :| 0 <= i < |cs| && cs[i] == c;
      BetterTotal(c, cs[n]);
      if i > n { assert Better(cs[n], cs[i]); }
    }
  }

  lemma SelectedIsChosen<M>(w: Work<M>, isotonicAllowed: bool, standings: seq<Candidate>, fitted: seq<Candidate>,
                            n: nat)
    requires Assessed(w, isotonicAllowed, 3, standings, fitted) && n < |fitted|
    requires w.refit(fitted[n].kind).Ok? && forall i :: 0 <= i < n ==> w.refit(fitted[i].kind).Err?
    ensures Chosen(w, isotonicAllowed, fitted[n].kind)
    ensures forall k :: Demoted(w, standings[Rank(k)], fitted[..n]) == Reported(w, isotonicAllowed, fitted[n].kind, k)
  {
    hide Standing, Better, Ranked;
    var winner := fitted[n];
    assert winner in fitted;
    RankedEligible(fitted);
    forall k
      ensures Preferred(w, isotonicAllowed, k, winner.kind) <==> Standing(w, isotonicAllowed, k) in fitted[..n]
    {
      BetterIsBefore(fitted, n, Standing(w, isotonicAllowed, k));
    }
    forall k | Preferred(w, isotonicAllowed, k, winner.kind) ensures w.refit(k).Err? {
      var i :| 0 <= i < n && fitted[i] == Standing(w, isotonicAllowed, k);
    }
  }

  lemma RankedEligible(cs: seq<Candidate>)
    requires Ranked(cs)
    ensures forall c :: c in cs ==> c.Eligible?
  {}

  // ----- From rows to an artifact -----

  datatype SelectionConfig = SelectionConfig(minimumObservations: nat, minimumPositives: nat, minimumNegatives: nat,
                                             minimumEffective: real, isotonicMinimum: real)

  predicate Meets(s: Support.Support, config: SelectionConfig) {
    && s.observations >= config.minimumObservations
    && s.positives >= config.minimumPositives
    && s.negatives >= config.minimumNegatives
    && s.effective >= config.minimumEffective
  }

  /** Both row sets are valid and large enough. */
  ghost predicate Supported(config: SelectionConfig, fit: seq<Clusters.Row>, selector: seq<Clusters.Row>) {
    && Support.ValidRows(fit) && Support.ValidRows(selector)
    && Meets(Support.SummaryOf(fit), config) && Meets(Support.SummaryOf(selector), config)
  }

  ghost predicate IsotonicAllowed(config: SelectionConfig, fit: seq<Clusters.Row>)
    requires Support.ValidRows(fit)
  {
    Support.SummaryOf(fit).effective >= config.isotonicMinimum
  }

  /**
   The whole selection over fit, selector and complete rows: it succeeds exactly
   when both sets have support, some candidate fits, scores and refits, and no
   entity episode is in both sets.
   */
  method SelectRows<M>(w: Work<M>, config: SelectionConfig, fit: seq<Clusters.Row>, selector: seq<Clusters.Row>,
                       complete: seq<Clusters.Row>)
    returns (r: Result<(Kind, M), SelectionError>, candidates: seq<Candidate>)
    requires multiset(complete) == multiset(fit + selector)
    ensures r == Err(InvalidObservationWeight) <==> !(Support.ValidRows(fit) && Support.ValidRows(selector))
    ensures r == Err(InsufficientSupport) <==>
              Support.ValidRows(fit) && Support.ValidRows(selector) && !Supported(config, fit, selector)
    ensures r == Err(NoEligibleCandidate) <==>
              Supported(config, fit, selector) && !AnyRefits(w, IsotonicAllowed(config, fit))
    ensures r == Err(InvalidCalibrator) <==>
              Supported(config, fit, selector) && AnyRefits(w, IsotonicAllowed(config, fit))
              && !(Clusters.KeysOf(fit) !! Clusters.KeysOf(selector))
    ensures r.Ok? ==>
              && Supported(config, fit, selector)
              && Chosen(w, IsotonicAllowed(config, fit), r.value.0)
              && Ok(r.value.1) == w.refit(r.value.0)
              && |candidates| == 3
              && forall k :: candidates[Rank(k)] == Reported(w, IsotonicAllowed(config, fit), r.value.0, k)
  {
    hide Chosen, Reported, AnyRefits, Support.SummaryOf, Support.ValidRows, Support.Recombines;
    candidates := [];
    var fitSupport := Support.FromRows(fit);
    if fitSupport.Err? {
      return Err(InvalidObservationWeight), [];
    }
    var selectorSupport := Support.FromRows(selector);
    if selectorSupport.Err? {
      return Err(InvalidObservationWeight), [];
    }
    if !Meets(fitSupport.value, config) || !Meets(selectorSupport.value, config) {
      return Err(InsufficientSupport), [];
    }
    r, candidates := Choose(w, fitSupport.value.effective >= config.isotonicMinimum);
    if r.Err? {
      return;
    }
    var population := Support.FromRows(complete);
    Support.RecombinesIffDisjoint(fit, selector, complete);
    if !Support.Recombines(fitSupport.value, selectorSupport.value, population.value) {
      r := Err(InvalidCalibrator);
    }
  }
}
