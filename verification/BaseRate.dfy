/** Historical base rates: five count tables fitted in one pass, and the fallback that reads them. */
module BaseRate {
  import opened Results
  import Sorting
  import Checked

  datatype Outcome = Occurred | NotOccurred | Censored | Excluded

  datatype Series = Series(asset: string, horizon: nat)

  datatype Observation = Observation(id: nat, series: Series, origin: nat, knownAt: nat,
                                     regime: Option<string>, outcome: Outcome)

  /** What building an observation has already checked. */
  ghost predicate Built(o: Observation) { 0 < o.origin <= o.knownAt }

  datatype Counts = Counts(positive: nat, negative: nat, censored: nat, excluded: nat) {
    function Total(): (n: nat) { positive + negative }
  }

  const NONE := Counts(0, 0, 0, 0)

  function One(outcome: Outcome): (c: Counts) {
    match outcome
    case Occurred => Counts(1, 0, 0, 0)
    case NotOccurred => Counts(0, 1, 0, 0)
    case Censored => Counts(0, 0, 1, 0)
    case Excluded => Counts(0, 0, 0, 1)
  }

  function Plus(a: Counts, b: Counts): (c: Counts) {
    Counts(a.positive + b.positive, a.negative + b.negative, a.censored + b.censored, a.excluded + b.excluded)
  }

  lemma PlusLaws(a: Counts, b: Counts, c: Counts)
    ensures Plus(Plus(a, b), c) == Plus(Plus(a, c), b)
    ensures Plus(a, Plus(b, c)) == Plus(Plus(a, b), c)
    ensures Plus(a, NONE) == a
  {}

  ghost predicate AtMost(a: Counts, b: Counts) {
    a.positive <= b.positive && a.negative <= b.negative && a.censored <= b.censored && a.excluded <= b.excluded
  }

  // ----- Slices -----

  const HOURS_PER_WEEK: nat := 168

  /** Whole hours since the epoch. */
  function Hours(origin: nat): (n: nat) { origin / 1_000_000_000 / 3_600 }

  function HourOfWeek(origin: nat): (h: nat)
    ensures h < HOURS_PER_WEEK
  {
    (Hours(origin) + 3 * 24) % HOURS_PER_WEEK
  }

  const HOUR: nat := 3_600_000_000_000

  /** The clock of the week: midnight of the epoch's day is hour 72, hours follow each other, weeks repeat. */
  lemma HourCalendar(origin: nat)
    ensures origin < HOUR ==> HourOfWeek(origin) == 72
    ensures HourOfWeek(origin + HOUR) == (HourOfWeek(origin) + 1) % HOURS_PER_WEEK
    ensures HourOfWeek(origin + HOURS_PER_WEEK * HOUR) == HourOfWeek(origin)
  {
    hide Hours;
    FirstHour(origin);
    HoursSince(origin, 1);
    HoursSince(origin, HOURS_PER_WEEK);
    NextHour(Hours(origin) + 72);
  }

  lemma FirstHour(origin: nat)
    ensures origin < HOUR ==> Hours(origin) == 0
  {}

  lemma NextHour(n: nat)
    ensures (n + 1) % HOURS_PER_WEEK == (n % HOURS_PER_WEEK + 1) % HOURS_PER_WEEK
    ensures (n + HOURS_PER_WEEK) % HOURS_PER_WEEK == n % HOURS_PER_WEEK
  {}

  lemma HoursSince(origin: nat, k: nat)
    ensures Hours(origin + k * HOUR) == Hours(origin) + k
  {
    var seconds := origin / 1_000_000_000;
    DivShift(origin, k * 3_600, 1_000_000_000);
    DivShift(seconds, k, 3_600);
  }

  lemma DivShift(n: nat, k: nat, d: nat)
    requires d > 0
    ensures (n + k * d) / d == n / d + k
  {
    var q, r := n / d, n % d;
    assert n + k * d == (q + k) * d + r;
    DivOf(q + k, r, d);
  }

  lemma DivOf(q: nat, r: nat, d: nat)
    requires r < d
    ensures (q * d + r) / d == q
  {
    var n := q * d + r;
    var p := n / d;
    Checked.FloorDivBounds(n, d);
    if p < q { Checked.MulMonotone(p + 1, q, d, d); }
    if p > q { Checked.MulMonotone(q + 1, p, d, d); }
  }

  datatype Slice =
    | Whole(series: Series)
    | ByHour(series: Series, hour: nat)
    | ByRegime(series: Series, regime: string)
    | ByBoth(series: Series, hour: nat, regime: string)

  /** The five tables, by what they file an observation under. */
  datatype Table = Unconditional | Rolling(start: int) | Seasonal | Regimes | Combined

  function FiledUnder(t: Table, o: Observation): (k: Option<Slice>) {
    match t
    case Unconditional => Some(Whole(o.series))
    case Rolling(start) => if o.origin >= start then Some(Whole(o.series)) else None
    case Seasonal => Some(ByHour(o.series, HourOfWeek(o.origin)))
    case Regimes => if o.regime.Some? then Some(ByRegime(o.series, o.regime.value)) else None
    case Combined => if o.regime.Some? then Some(ByBoth(o.series, HourOfWeek(o.origin), o.regime.value)) else None
  }

  function At(m: map<Slice, Counts>, k: Slice): (c: Counts) { if k in m then m[k] else NONE }

  function AddCount(m: map<Slice, Counts>, k: Slice, outcome: Outcome): (r: map<Slice, Counts>) {
    m[k := Plus(At(m, k), One(outcome))]
  }

  function Filed(m: map<Slice, Counts>, t: Table, o: Observation): (r: map<Slice, Counts>) {
    match FiledUnder(t, o)
    case None => m
    case Some(k) => AddCount(m, k, o.outcome)
  }

  function CountBy(t: Table, observations: seq<Observation>): (m: map<Slice, Counts>) {
    if observations == [] then map[]
    else Filed(CountBy(t, observations[..|observations| - 1]), t, observations[|observations| - 1])
  }

  /** The observations a table files under one slice, counted directly. */
  function CountWhere(t: Table, observations: seq<Observation>, k: Slice): (c: Counts) {
    if observations == [] then NONE
    else
      var init, o := CountWhere(t, observations[..|observations| - 1], k), observations[|observations| - 1];
      if FiledUnder(t, o) == Some(k) then Plus(init, One(o.outcome)) else init
  }

  /** A table holds exactly the counts of the observations it files, and a slice exactly when it has one. */
  lemma {:induction false} TableExact(t: Table, observations: seq<Observation>, k: Slice)
    ensures At(CountBy(t, observations), k) == CountWhere(t, observations, k)
    ensures k in CountBy(t, observations) <==>
              exists i :: 0 <= i < |observations| && FiledUnder(t, observations[i]) == Some(k)
  {
    hide FiledUnder, One;
    if observations != [] {
      var n := |observations| - 1;
      TableExact(t, observations[..n], k);
    }
  }

  // ----- Fitting -----

  datatype Config = Config(minimumCount: nat, windowSeconds: nat, regimes: set<string>)

  datatype Model = Model(config: Config, rows: nat, unconditional: map<Slice, Counts>, rolling: map<Slice, Counts>,
                         seasonal: map<Slice, Counts>, regime: map<Slice, Counts>, combined: map<Slice, Counts>)

  datatype BaselineError =
    | InvalidFit
    | TimeOverflow
    | DuplicateObservation(id: nat)
    | OutcomeKnownAfterFitCutoff(id: nat)
    | OriginAfterFitCutoff(id: nat)
    | UndeclaredRegime(id: nat)
    | InvalidQuery
    | UnknownSeries

  const MAXIMUM_OBSERVATIONS: nat := 1_000_000
  const I64_MAX: nat := 0x7FFF_FFFF_FFFF_FFFF

  function Id(o: Observation): (r: real) { o.id as real }

  function FirstDuplicate(canonical: seq<Observation>): (r: Option<nat>) {
    if |canonical| < 2 then None
    else if canonical[0].id == canonical[1].id then Some(canonical[0].id)
    else FirstDuplicate(canonical[1..])
  }

  function Offence(o: Observation, cutoff: int, regimes: set<string>): (e: Option<BaselineError>) {
    if o.knownAt > cutoff then Some(OutcomeKnownAfterFitCutoff(o.id))
    else if o.origin > cutoff then Some(OriginAfterFitCutoff(o.id))
    else if o.regime.Some? && o.regime.value !in regimes then Some(UndeclaredRegime(o.id))
    else None
  }

  function FirstOffence(canonical: seq<Observation>, cutoff: int, regimes: set<string>): (e: Option<BaselineError>) {
    if canonical == [] then None
    else
      var first := Offence(canonical[0], cutoff, regimes);
      if first.Some? then first else FirstOffence(canonical[1..], cutoff, regimes)
  }

  function ModelOf(canonical: seq<Observation>, cutoff: int, config: Config): (m: Model) {
    Model(config, |canonical|, CountBy(Unconditional, canonical),
          CountBy(Rolling(cutoff - config.windowSeconds * 1_000_000_000), canonical),
          CountBy(Seasonal, canonical), CountBy(Regimes, canonical), CountBy(Combined, canonical))
  }

  /** What a fit must return. */
  function FitOf(observations: seq<Observation>, cutoff: int, config: Config): (r: Result<Model, BaselineError>) {
    var canonical := Sorting.SortBy(observations, Id);
    if observations == [] || |observations| > MAXIMUM_OBSERVATIONS || cutoff <= 0 then Err(InvalidFit)
    else if config.windowSeconds * 1_000_000_000 > I64_MAX then Err(TimeOverflow)
    else match FirstDuplicate(canonical)
      case Some(id) => Err(DuplicateObservation(id))
      case None =>
        match FirstOffence(canonical, cutoff, config.regimes)
        case Some(e) => Err(e)
        case None => Ok(ModelOf(canonical, cutoff, config))
  }

  method Fit(observations: seq<Observation>, cutoff: int, config: Config) returns (r: Result<Model, BaselineError>)
    ensures r == FitOf(observations, cutoff, config)
  {
    hide CountBy, Sorting.SortBy, FiledUnder;
    if observations == [] || |observations| > MAXIMUM_OBSERVATIONS || cutoff <= 0 {
      return Err(InvalidFit);
    }
    var window := config.windowSeconds * 1_000_000_000;
    if window > I64_MAX {
      return Err(TimeOverflow);
    }
    var canonical := Sorting.SortBy(observations, Id);
    var duplicate := FirstDuplicate(canonical);
    if duplicate.Some? {
      return Err(DuplicateObservation(duplicate.value));
    }
    var start := cutoff - window;
    var unconditional: map<Slice, Counts>, rolling: map<Slice, Counts> := map[], map[];
    var seasonal: map<Slice, Counts>, regime: map<Slice, Counts>, combined: map<Slice, Counts> := map[], map[], map[];
    NothingFiled(canonical);
    for i := 0 to |canonical|
      invariant FirstOffence(canonical, cutoff, config.regimes) == FirstOffence(canonical[i..], cutoff, config.regimes)
      invariant unconditional == CountBy(Unconditional, canonical[..i])
      invariant rolling == CountBy(Rolling(start), canonical[..i])
      invariant seasonal == CountBy(Seasonal, canonical[..i])
      invariant regime == CountBy(Regimes, canonical[..i])
      invariant combined == CountBy(Combined, canonical[..i])
    {
      var o := canonical[i];
      assert canonical[i..][0] == o && canonical[i..][1..] == canonical[i + 1..];
      if o.knownAt > cutoff {
        return Err(OutcomeKnownAfterFitCutoff(o.id));
      }
      if o.origin > cutoff {
        return Err(OriginAfterFitCutoff(o.id));
      }
      if o.regime.Some? && o.regime.value !in config.regimes {
        return Err(UndeclaredRegime(o.id));
      }
      OneMoreFiled(canonical, i, start);
      unconditional := AddCount(unconditional, Whole(o.series), o.outcome);
      if o.origin >= start {
        rolling := AddCount(rolling, Whole(o.series), o.outcome);
      }
      var hour := HourOfWeek(o.origin);
      seasonal := AddCount(seasonal, ByHour(o.series, hour), o.outcome);
      if o.regime.Some? {
        regime := AddCount(regime, ByRegime(o.series, o.regime.value), o.outcome);
        combined := AddCount(combined, ByBoth(o.series, hour, o.regime.value), o.outcome);
      }
    }
    assert canonical[..|canonical|] == canonical;
    return Ok(Model(config, |canonical|, unconditional, rolling, seasonal, regime, combined));
  }

  lemma NothingFiled(canonical: seq<Observation>)
    ensures forall t :: CountBy(t, canonical[..0]) == map[]
    ensures canonical[0..] == canonical
  {}

  lemma OneMoreFiled(canonical: seq<Observation>, i: nat, start: int)
    requires i < |canonical|
    ensures var o, was, now := canonical[i], canonical[..i], canonical[..i + 1];
            var hour := HourOfWeek(o.origin);
            && CountBy(Unconditional, now) == AddCount(CountBy(Unconditional, was), Whole(o.series), o.outcome)
            && CountBy(Rolling(start), now) == (if o.origin < start then CountBy(Rolling(start), was) else
                                                AddCount(CountBy(Rolling(start), was), Whole(o.series), o.outcome))
            && CountBy(Seasonal, now) == AddCount(CountBy(Seasonal, was), ByHour(o.series, hour), o.outcome)
            && CountBy(Regimes, now) == (if o.regime.None? then CountBy(Regimes, was) else
                                         AddCount(CountBy(Regimes, was), ByRegime(o.series, o.regime.value), o.outcome))
            && CountBy(Combined, now) ==
               (if o.regime.None? then CountBy(Combined, was) else
                AddCount(CountBy(Combined, was), ByBoth(o.series, hour, o.regime.value), o.outcome))
  {
    hide HourOfWeek, AddCount;
    assert canonical[..i + 1][..i] == canonical[..i];
  }

  // ----- The order observations arrive in does not matter -----

  lemma {:induction false} DuplicatesAgree(a: seq<Observation>, b: seq<Observation>)
    requires |a| == |b| && forall i :: 0 <= i < |a| ==> a[i].id == b[i].id
    ensures FirstDuplicate(a) == FirstDuplicate(b)
    ensures FirstDuplicate(a).None? ==> forall i :: 0 < i < |a| ==> a[i - 1].id != a[i].id
  {
    if |a| >= 2 && a[0].id != a[1].id {
      DuplicatesAgree(a[1..], b[1..]);
      if FirstDuplicate(a).None? {
        forall i | 0 < i < |a| ensures a[i - 1].id != a[i].id {
          if i > 1 { assert a[1..][i - 2].id != a[1..][i - 1].id; }
        }
      }
    }
  }

  /** Result and error depend only on the multiset of observations. */
  lemma FitOrderIndependent(a: seq<Observation>, b: seq<Observation>, cutoff: int, config: Config)
    requires multiset(a) == multiset(b)
    ensures FitOf(a, cutoff, config) == FitOf(b, cutoff, config)
  {
    hide ModelOf, FirstOffence, FirstDuplicate, Sorting.SortBy, Sorting.OrderedBy, Sorting.SameKeys;
    assert |multiset(a)| == |a| && |multiset(b)| == |b|;
    var x, y := Sorting.SortBy(a, Id), Sorting.SortBy(b, Id);
    Sorting.SortElements(a, Id);
    Sorting.SortElements(b, Id);
    Sorting.SortOrders(a, Id);
    Sorting.SortOrders(b, Id);
    Sorting.SortedKeysAgree(x, y, Id);
    SameIds(x, y);
    DuplicatesAgree(x, y);
    if FirstDuplicate(x).None? {
      assert forall i :: 0 < i < |x| ==> Id(x[i - 1]) != Id(x[i]);
      Sorting.SortedUnique(x, y, Id);
    }
  }

  lemma SameIds(x: seq<Observation>, y: seq<Observation>)
    requires Sorting.SameKeys(x, y, Id)
    ensures |x| == |y| && forall i :: 0 <= i < |x| ==> x[i].id == y[i].id
  {
    forall i | 0 <= i < |x| ensures x[i].id == y[i].id {
      assert Id(x[i]) == Id(y[i]);
    }
  }

  /** An observation is known no earlier than its origin, so the origin check never decides. */
  lemma OriginNeverOffends(o: Observation, cutoff: int, regimes: set<string>)
    requires Built(o)
    ensures !(Offence(o, cutoff, regimes).Some? && Offence(o, cutoff, regimes).value.OriginAfterFitCutoff?)
  {}

  // ----- How the tables fit together -----

  /** The hours of one series, or of one series and regime. */
  function HourSlice(series: Series, regime: Option<string>, hour: nat): (k: Slice) {
    if regime.Some? then ByBoth(series, hour, regime.value) else ByHour(series, hour)
  }

  function SumHours(m: map<Slice, Counts>, series: Series, regime: Option<string>, n: nat): (c: Counts) {
    if n == 0 then NONE
    else Plus(SumHours(m, series, regime, n - 1), At(m, HourSlice(series, regime, n - 1)))
  }

  /** Whether `k` is one of the first `n` hours summed. */
  predicate AmongHours(k: Slice, series: Series, regime: Option<string>, n: nat) {
    (k.ByHour? || k.ByBoth?) && k.hour < n && k == HourSlice(series, regime, k.hour)
  }

  lemma AmongOneMore(k: Slice, series: Series, regime: Option<string>, n: nat)
    requires n > 0
    ensures AmongHours(k, series, regime, n) <==>
              AmongHours(k, series, regime, n - 1) || k == HourSlice(series, regime, n - 1)
    ensures !(AmongHours(k, series, regime, n - 1) && k == HourSlice(series, regime, n - 1))
  {}

  lemma AddedAt(m: map<Slice, Counts>, k: Slice, outcome: Outcome, j: Slice)
    ensures At(AddCount(m, k, outcome), j) == if j == k then Plus(At(m, j), One(outcome)) else At(m, j)
  {}

  lemma {:induction false} SumHoursAdd(m: map<Slice, Counts>, series: Series, regime: Option<string>, n: nat, k: Slice,
                                       outcome: Outcome)
    ensures var was := SumHours(m, series, regime, n);
            SumHours(AddCount(m, k, outcome), series, regime, n)
            == if AmongHours(k, series, regime, n) then Plus(was, One(outcome)) else was
  {
    hide One, Plus, AddCount, At, HourSlice, AmongHours;
    if n == 0 {
      NotAmongNone(k, series, regime);
    } else {
      var j := HourSlice(series, regime, n - 1);
      SumHoursAdd(m, series, regime, n - 1, k, outcome);
      AddedAt(m, k, outcome, j);
      AmongOneMore(k, series, regime, n);
      PlusLaws(SumHours(m, series, regime, n - 1), At(m, j), One(outcome));
    }
  }

  lemma NotAmongNone(k: Slice, series: Series, regime: Option<string>)
    ensures !AmongHours(k, series, regime, 0)
  {}

  lemma {:induction false} EmptyHours(m: map<Slice, Counts>, series: Series, regime: Option<string>, n: nat)
    requires m == map[]
    ensures SumHours(m, series, regime, n) == NONE
  {
    hide HourSlice, Plus;
    if n > 0 {
      EmptyHours(m, series, regime, n - 1);
      PlusLaws(NONE, NONE, NONE);
    }
  }

  /** The 168 hours of a series add up to the series, outcome by outcome. */
  lemma {:induction false} HoursMakeSeries(observations: seq<Observation>, series: Series)
    ensures SumHours(CountBy(Seasonal, observations), series, None, HOURS_PER_WEEK)
            == At(CountBy(Unconditional, observations), Whole(series))
  {
    hide One, SumHours, HourOfWeek, At, Plus, AddCount;
    if observations == [] {
      EmptyHours(map[], series, None, HOURS_PER_WEEK);
      EmptyAt(Whole(series));
    } else {
      var n := |observations| - 1;
      var init, o := observations[..n], observations[n];
      var k := ByHour(o.series, HourOfWeek(o.origin));
      HoursMakeSeries(init, series);
      SumHoursAdd(CountBy(Seasonal, init), series, None, HOURS_PER_WEEK, k, o.outcome);
      AddedAt(CountBy(Unconditional, init), Whole(o.series), o.outcome, Whole(series));
      assert AmongHours(k, series, None, HOURS_PER_WEEK) <==> o.series == series;
    }
  }

  /** The 168 hours of a regime add up to the regime. */
  lemma {:induction false} HoursMakeRegime(observations: seq<Observation>, series: Series, regime: string)
    ensures SumHours(CountBy(Combined, observations), series, Some(regime), HOURS_PER_WEEK)
            == At(CountBy(Regimes, observations), ByRegime(series, regime))
  {
    hide One, SumHours, HourOfWeek, At, Plus, AddCount;
    if observations == [] {
      EmptyHours(map[], series, Some(regime), HOURS_PER_WEEK);
      EmptyAt(ByRegime(series, regime));
    } else {
      var n := |observations| - 1;
      var init, o := observations[..n], observations[n];
      HoursMakeRegime(init, series, regime);
      if o.regime.Some? {
        var k := ByBoth(o.series, HourOfWeek(o.origin), o.regime.value);
        SumHoursAdd(CountBy(Combined, init), series, Some(regime), HOURS_PER_WEEK, k, o.outcome);
        AddedAt(CountBy(Regimes, init), ByRegime(o.series, o.regime.value), o.outcome, ByRegime(series, regime));
        assert AmongHours(k, series, Some(regime), HOURS_PER_WEEK)
          <==> ByRegime(o.series, o.regime.value) == ByRegime(series, regime);
      }
    }
  }

  lemma EmptyAt(k: Slice)
    ensures At(map[], k) == NONE
  {}

  /** If every observation one table files under a slice, another files under a second slice, the second counts
      at least as much. */
  lemma {:induction false} WiderCountsMore(observations: seq<Observation>, t: Table, k: Slice, u: Table, j: Slice)
    requires forall i :: 0 <= i < |observations| ==>
               (FiledUnder(t, observations[i]) == Some(k) ==> FiledUnder(u, observations[i]) == Some(j))
    ensures AtMost(CountWhere(t, observations, k), CountWhere(u, observations, j))
  {
    hide FiledUnder;
    if observations != [] {
      WiderCountsMore(observations[..|observations| - 1], t, k, u, j);
    }
  }

  /** A narrower slice never counts more than a wider one. */
  lemma SlicesNest(observations: seq<Observation>, series: Series, hour: nat, regime: string, start: int)
    ensures var both := At(CountBy(Combined, observations), ByBoth(series, hour, regime));
            var hourly := At(CountBy(Seasonal, observations), ByHour(series, hour));
            var regimes := At(CountBy(Regimes, observations), ByRegime(series, regime));
            var whole := At(CountBy(Unconditional, observations), Whole(series));
            && AtMost(both, hourly) && AtMost(hourly, whole)
            && AtMost(both, regimes) && AtMost(regimes, whole)
            && AtMost(At(CountBy(Rolling(start), observations), Whole(series)), whole)
  {
    hide HourOfWeek, At, CountBy, CountWhere, AtMost;
    TableExact(Combined, observations, ByBoth(series, hour, regime));
    TableExact(Seasonal, observations, ByHour(series, hour));
    TableExact(Regimes, observations, ByRegime(series, regime));
    TableExact(Rolling(start), observations, Whole(series));
    TableExact(Unconditional, observations, Whole(series));
    WiderCountsMore(observations, Combined, ByBoth(series, hour, regime), Seasonal, ByHour(series, hour));
    WiderCountsMore(observations, Combined, ByBoth(series, hour, regime), Regimes, ByRegime(series, regime));
    WiderCountsMore(observations, Seasonal, ByHour(series, hour), Unconditional, Whole(series));
    WiderCountsMore(observations, Regimes, ByRegime(series, regime), Unconditional, Whole(series));
    WiderCountsMore(observations, Rolling(start), Whole(series), Unconditional, Whole(series));
  }

  // ----- Reading an estimate -----

  datatype Query = Query(series: Series, origin: Option<nat>, regime: Option<string>)

  datatype Kind = UnconditionalKind | TimeOfWeek | RegimeKind | RegimeAndTimeOfWeek

  datatype Reading = Reading(counts: Counts, kind: Kind, fallbackLevel: nat)

  /** The strata a query asks for, most specific first. */
  function Strata(m: Model, q: Query): (s: seq<(Kind, Option<Counts>)>) {
    (if q.regime.Some? && q.origin.Some?
     then [(RegimeAndTimeOfWeek, Find(m.combined, ByBoth(q.series, HourOfWeek(q.origin.value), q.regime.value)))]
     else [])
    + (if q.regime.Some? then [(RegimeKind, Find(m.regime, ByRegime(q.series, q.regime.value)))] else [])
    + (if q.origin.Some? then [(TimeOfWeek, Find(m.seasonal, ByHour(q.series, HourOfWeek(q.origin.value))))] else [])
  }

  function Find(m: map<Slice, Counts>, k: Slice): (c: Option<Counts>) { if k in m then Some(m[k]) else None }

  predicate Supported(c: Option<Counts>, minimum: nat) { c.Some? && c.value.Total() >= minimum }

  /** The nested fallback as written: combined, then regime, then hour, then everything. */
  function Estimate(m: Model, q: Query): (r: Result<Reading, BaselineError>) {
    if q.regime.Some? && q.regime.value !in m.config.regimes then Err(InvalidQuery)
    else if Whole(q.series) !in m.unconditional then Err(UnknownSeries)
    else if q.origin == Some(0) then Err(InvalidQuery)
    else
      var minimum := m.config.minimumCount;
      var both := if q.regime.Some? && q.origin.Some?
                  then Find(m.combined, ByBoth(q.series, HourOfWeek(q.origin.value), q.regime.value)) else None;
      if Supported(both, minimum) then Ok(Reading(both.value, RegimeAndTimeOfWeek, 0))
      else
        var level := if q.regime.Some? && q.origin.Some? then 1 else 0;
        var regime := if q.regime.Some? then Find(m.regime, ByRegime(q.series, q.regime.value)) else None;
        if Supported(regime, minimum) then Ok(Reading(regime.value, RegimeKind, level))
        else
          var level := level + if q.regime.Some? then 1 else 0;
          var hourly := if q.origin.Some? then Find(m.seasonal, ByHour(q.series, HourOfWeek(q.origin.value))) else None;
          if Supported(hourly, minimum) then Ok(Reading(hourly.value, TimeOfWeek, level))
          else
            var level := level + if q.origin.Some? then 1 else 0;
            Ok(Reading(m.unconditional[Whole(q.series)], UnconditionalKind, level))
  }

  /** The fallback level counts the requested strata that lacked support; the reading is the first that did not. */
  lemma FallbackIsFirstSupported(m: Model, q: Query)
    requires Estimate(m, q).Ok?
    ensures var r, strata, minimum := Estimate(m, q).value, Strata(m, q), m.config.minimumCount;
            && r.fallbackLevel <= |strata|
            && (forall i :: 0 <= i < r.fallbackLevel ==> !Supported(strata[i].1, minimum))
            && (if r.fallbackLevel < |strata|
                then strata[r.fallbackLevel] == (r.kind, Some(r.counts)) && r.counts.Total() >= minimum
                else r.kind == UnconditionalKind && r.counts == m.unconditional[Whole(q.series)])
  {
    hide HourOfWeek, Find;
  }

  /** Where a kind of estimate looks. */
  function Source(kind: Kind, q: Query): (s: (Table, Slice)) {
    var hour := if q.origin.Some? then HourOfWeek(q.origin.value) else 0;
    var regime := if q.regime.Some? then q.regime.value else "";
    match kind
    case RegimeAndTimeOfWeek => (Combined, ByBoth(q.series, hour, regime))
    case RegimeKind => (Regimes, ByRegime(q.series, regime))
    case TimeOfWeek => (Seasonal, ByHour(q.series, hour))
    case UnconditionalKind => (Unconditional, Whole(q.series))
  }

  /** The table of a model that a kind of estimate looks at. */
  function TableFor(m: Model, kind: Kind): (t: map<Slice, Counts>) {
    match kind
    case RegimeAndTimeOfWeek => m.combined
    case RegimeKind => m.regime
    case TimeOfWeek => m.seasonal
    case UnconditionalKind => m.unconditional
  }

  /** An estimate is the entry of the slice it names, with support unless it fell back to the whole series. */
  lemma EstimateReads(m: Model, q: Query)
    requires Estimate(m, q).Ok?
    ensures var r := Estimate(m, q).value;
            && Find(TableFor(m, r.kind), Source(r.kind, q).1) == Some(r.counts)
            && (r.kind == UnconditionalKind || r.counts.Total() >= m.config.minimumCount)
  {
    hide HourOfWeek;
  }

  /** In a model of these observations, a slice counts at most what its series does. */
  lemma SourceWithinSeries(observations: seq<Observation>, kind: Kind, q: Query)
    ensures var (table, slice) := Source(kind, q);
            AtMost(CountWhere(table, observations, slice), CountWhere(Unconditional, observations, Whole(q.series)))
  {
    hide HourOfWeek, CountBy, CountWhere, At;
    var hour := if q.origin.Some? then HourOfWeek(q.origin.value) else 0;
    var regime := if q.regime.Some? then q.regime.value else "";
    var (table, slice) := Source(kind, q);
    TableExact(table, observations, slice);
    TableExact(Unconditional, observations, Whole(q.series));
    SlicesNest(observations, q.series, hour, regime, 0);
  }

  /** On a fitted model an estimate reads exactly the observations of the slice it names, some of the series'. */
  lemma EstimateCounts(observations: seq<Observation>, cutoff: int, config: Config, q: Query)
    requires FitOf(observations, cutoff, config).Ok?
    requires Estimate(FitOf(observations, cutoff, config).value, q).Ok?
    ensures var r := Estimate(FitOf(observations, cutoff, config).value, q).value;
            var canonical := Sorting.SortBy(observations, Id);
            var (table, slice) := Source(r.kind, q);
            && r.counts == CountWhere(table, canonical, slice)
            && AtMost(r.counts, CountWhere(Unconditional, canonical, Whole(q.series)))
            && (r.kind == UnconditionalKind || r.counts.Total() >= config.minimumCount)
  {
    hide HourOfWeek, CountBy, CountWhere, FirstDuplicate, FirstOffence, Estimate, AtMost, Sorting.SortBy;
    var canonical := Sorting.SortBy(observations, Id);
    var r := Estimate(FitOf(observations, cutoff, config).value, q).value;
    var (table, slice) := Source(r.kind, q);
    EstimateReads(FitOf(observations, cutoff, config).value, q);
    TableExact(table, canonical, slice);
    SourceWithinSeries(canonical, r.kind, q);
  }
}
