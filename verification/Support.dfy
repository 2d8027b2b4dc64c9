/** The weighted support behind a calibration artifact: its summary, its self-check and its recombination. */
module Support {
  import opened RealSums
  import opened Results
  import opened Clusters
  import opened Kish

  datatype Support = Support(observations: nat, independentClusters: nat, positives: nat, negatives: nat,
                             totalWeight: real, positiveWeight: real, weightScale: real, squaredWeights: real,
                             clusterScale: real, squaredClusters: real, effective: real)

  ghost predicate ValidRows(rows: seq<Row>) { rows != [] && forall i :: 0 <= i < |rows| ==> rows[i].weight > 0.0 }

  /** The sum of squares after division by the largest weight. */
  function Scaled(ws: seq<real>): (q: real)
    requires ws != [] && AllPositive(ws)
  {
    LargestBounds(ws);
    ProductPositive(Largest(ws), Largest(ws));
    Ratio(SumSquares(ws), Square(Largest(ws)))
  }

  function WeightsOf(rows: seq<Row>): (ws: seq<real>)
    ensures |ws| == |rows| && forall i :: 0 <= i < |rows| ==> ws[i] == rows[i].weight
  {
    seq(|rows|, i requires 0 <= i < |rows| => rows[i].weight)
  }

  ghost function SummaryOf(rows: seq<Row>): (s: Support)
    requires ValidRows(rows)
  {
    ClusterValuesPositive(rows);
    var t := Gather(rows);
    GatherCounts(rows);
    var vs := Values(t.clusters);
    Support(t.observations, |t.clusters|, t.positives, t.observations - t.positives, t.weight, t.positiveWeight,
            t.scale, Scaled(WeightsOf(rows)), Largest(vs), Scaled(vs), Effective(vs))
  }

  // ----- What the totals are -----

  lemma {:induction false} GatherCounts(rows: seq<Row>)
    ensures var t := Gather(rows); t.observations == |rows| && t.positives <= |rows| && |t.clusters| <= |rows|
  {
    if rows != [] {
      var n := |rows| - 1;
      GatherCounts(rows[..n]);
      AbsorbKeys(Gather(rows[..n]), rows[n]);
      var was, now := Gather(rows[..n]).clusters, Gather(rows).clusters;
      assert |now| == |now.Keys| && |was| == |was.Keys|;
    }
  }

  lemma {:induction false} GatherSums(rows: seq<Row>)
    ensures var t, ws := Gather(rows), WeightsOf(rows);
            t.weight == Sum(ws) && t.squares == SumSquares(ws) && t.scale == Largest(ws)
  {
    hide Square, Added;
    if rows != [] {
      var n := |rows| - 1;
      GatherSums(rows[..n]);
      assert WeightsOf(rows)[..n] == WeightsOf(rows[..n]);
    }
  }

  lemma {:induction false} PositivesAgree(rows: seq<Row>)
    requires forall i :: 0 <= i < |rows| ==> rows[i].weight > 0.0
    ensures var t := Gather(rows);
            && 0.0 <= t.positiveWeight <= t.weight
            && (t.positives == 0 <==> t.positiveWeight == 0.0)
  {
    hide Square, Added;
    if rows != [] { PositivesAgree(rows[..|rows| - 1]); }
  }

  lemma {:induction false} ClusterHolds(rows: seq<Row>, i: nat)
    requires forall j :: 0 <= j < |rows| ==> rows[j].weight > 0.0
    ensures forall k :: k in Gather(rows).clusters ==> Gather(rows).clusters[k] > 0.0
    ensures i < |rows| ==> rows[i].cluster in Gather(rows).clusters
                           && rows[i].weight <= Gather(rows).clusters[rows[i].cluster]
  {
    hide Square;
    if rows != [] { ClusterHolds(rows[..|rows| - 1], i); }
  }

  lemma {:induction false} ReadAt(m: map<Key, real>, ks: seq<Key>, i: nat)
    requires i < |ks|
    ensures Read(m, ks)[i] == Get(m, ks[i])
  {
    if i < |ks| - 1 { ReadAt(m, ks[..|ks| - 1], i); }
  }

  lemma ValueListed(m: map<Key, real>, k: Key)
    requires k in m
    ensures m[k] in Values(m)
  {
    var ks := Listing(m.Keys);
    assert k in multiset(ks);
    var i: nat :| i < |ks| && ks[i] == k;
    ReadAt(m, ks, i);
    assert Values(m)[i] == m[k];
  }

  lemma ListedIsValue(m: map<Key, real>, i: nat)
    requires i < |m|
    ensures exists k :: k in m && Values(m)[i] == m[k]
  {
    var ks := Listing(m.Keys);
    assert |Values(m)| == |ks|;
    ReadAt(m, ks, i);
    assert ks[i] in multiset(ks);
    assert ks[i] in m && Values(m)[i] == m[ks[i]];
  }

  lemma ClusterValuesPositive(rows: seq<Row>)
    requires ValidRows(rows)
    ensures var vs := Values(Gather(rows).clusters); vs != [] && AllPositive(vs) && AllPositive(WeightsOf(rows))
  {
    hide Values, Gather;
    var m := Gather(rows).clusters;
    ClusterHolds(rows, 0);
    assert rows[0].cluster in m.Keys;
    forall i | 0 <= i < |Values(m)| ensures Values(m)[i] > 0.0 { ListedIsValue(m, i); }
  }

  /** No row weighs more than the heaviest cluster. */
  lemma ClusterScaleDominates(rows: seq<Row>)
    requires ValidRows(rows)
    ensures Largest(WeightsOf(rows)) <= Largest(Values(Gather(rows).clusters))
  {
    hide Values, Gather, Largest;
    var m, ws := Gather(rows).clusters, WeightsOf(rows);
    ClusterValuesPositive(rows);
    LargestBounds(ws);
    LargestBounds(Values(m));
    var i :| 0 <= i < |ws| && ws[i] == Largest(ws);
    ClusterHolds(rows, i);
    ValueListed(m, rows[i].cluster);
  }

  // ----- How far scaled totals can reach -----

  lemma {:induction false} BoundedSums(ws: seq<real>, top: real)
    requires AllPositive(ws) && forall i :: 0 <= i < |ws| ==> ws[i] <= top
    ensures 0.0 <= Sum(ws) <= Times(|ws| as real, top)
    ensures 0.0 <= SumSquares(ws) <= Times(|ws| as real, Square(top))
  {
    hide Times, Square;
    if ws == [] {
      TimesDistributes(0.0, 0.0, top);
      TimesDistributes(0.0, 0.0, Square(top));
    } else {
      var n := |ws| - 1;
      BoundedSums(ws[..n], top);
      TimesDistributes(n as real, 1.0, top);
      TimesDistributes(n as real, 1.0, Square(top));
      UnitProduct(top);
      UnitProduct(Square(top));
      SquareMonotone(ws[n], top);
    }
  }

  lemma SquareMonotone(x: real, y: real)
    requires 0.0 < x <= y
    ensures 0.0 < Square(x) <= Square(y)
  {
    ProductPositive(x, x);
    assert y * y == x * x + (y - x) * (y + x);
    ProductNonNegative(y - x, y + x);
  }

  lemma {:induction false} MemberBelowSums(ws: seq<real>, i: nat)
    requires AllPositive(ws) && i < |ws|
    ensures ws[i] <= Sum(ws) && Square(ws[i]) <= SumSquares(ws)
  {
    hide Square;
    var n := |ws| - 1;
    if i == n {
      SumNonNegative(ws[..n]);
      SquaresPositive(ws[..n]);
    } else {
      MemberBelowSums(ws[..n], i);
      SquareMonotone(ws[n], ws[n]);
    }
  }

  /** Scaled by the largest weight, both totals of positive weights lie between one and their number. */
  lemma ScaledBounds(ws: seq<real>)
    requires ws != [] && AllPositive(ws)
    ensures Largest(ws) > 0.0
    ensures 1.0 <= Ratio(Sum(ws), Largest(ws)) <= |ws| as real
    ensures 1.0 <= Scaled(ws) <= |ws| as real
  {
    hide Square, Ratio, Times, Largest, Sum, SumSquares;
    LargestBounds(ws);
    BoundedSums(ws, Largest(ws));
    var i :| 0 <= i < |ws| && ws[i] == Largest(ws);
    MemberBelowSums(ws, i);
    SquareMonotone(Largest(ws), Largest(ws));
    RatioBounds(Sum(ws), Largest(ws), |ws| as real);
    RatioBounds(SumSquares(ws), Square(Largest(ws)), |ws| as real);
  }

  // ----- The effective size from summaries alone -----

  function StabilizedKish(total: real, scale: real, squares: real, observations: nat): (r: Option<real>) {
    if total <= 0.0 || scale <= 0.0 || squares <= 0.0 || observations == 0 then None
    else
      var raw := Ratio(Square(Ratio(total, scale)), squares);
      var ceiling := observations as real;
      if raw <= 0.0 || raw > ceiling * (1.0 + TOLERANCE) then None
      else Some(if raw < ceiling then raw else ceiling)
  }

  /** The summaries carry enough to recover the effective size exactly. */
  lemma KishFromSummaries(ws: seq<real>)
    requires ws != [] && AllPositive(ws)
    ensures StabilizedKish(Sum(ws), Largest(ws), Scaled(ws), |ws|) == Some(Effective(ws))
  {
    hide Square, Ratio, Times, Largest, Sum, SumSquares, Effective, Scaled;
    ScaledBounds(ws);
    SumPositive(ws);
    EffectiveIs(ws);
    EffectiveBounds(ws);
    UnscaledTotals(ws);
    ScaledRatio(Ratio(Sum(ws), Largest(ws)), Scaled(ws), Largest(ws), Sum(ws), SumSquares(ws));
  }

  lemma UnscaledTotals(ws: seq<real>)
    requires ws != [] && AllPositive(ws)
    ensures Largest(ws) > 0.0
    ensures Times(Ratio(Sum(ws), Largest(ws)), Largest(ws)) == Sum(ws)
    ensures Times(Scaled(ws), Square(Largest(ws))) == SumSquares(ws)
  {
    hide Square, Ratio, Times, Largest, Sum, SumSquares;
    LargestBounds(ws);
    SquareMonotone(Largest(ws), Largest(ws));
    RatioCancels(Sum(ws), Largest(ws));
    RatioCancels(SumSquares(ws), Square(Largest(ws)));
  }

  // ----- The self-check -----

  predicate NearlyEqual(l: real, r: real) { l == r || Abs(l - r) <= TOLERANCE * Max(Abs(l), Abs(r)) }

  predicate WithinCount(x: real, n: nat) { 1.0 <= x <= n as real * (1.0 + TOLERANCE) }

  predicate Validates(s: Support) {
    var expected := StabilizedKish(s.totalWeight, s.clusterScale, s.squaredClusters, s.independentClusters);
    && expected.Some?
    && 0 < s.independentClusters <= s.observations
    && s.positives + s.negatives == s.observations
    && s.totalWeight > 0.0
    && 0.0 <= s.positiveWeight <= s.totalWeight
    && (s.positives == 0 <==> s.positiveWeight == 0.0)
    && 0.0 < s.weightScale <= s.clusterScale
    && WithinCount(Ratio(s.totalWeight, s.weightScale), s.observations)
    && WithinCount(s.squaredWeights, s.observations)
    && WithinCount(Ratio(s.totalWeight, s.clusterScale), s.independentClusters)
    && WithinCount(s.squaredClusters, s.independentClusters)
    && NearlyEqual(s.effective, expected.value)
  }

  lemma WithinExact(x: real, n: nat)
    requires 1.0 <= x <= n as real
    ensures WithinCount(x, n)
  {
    ProductNonNegative(n as real, TOLERANCE);
    assert n as real * (1.0 + TOLERANCE) == n as real + Times(n as real, TOLERANCE);
  }

  /** Every summary of valid rows passes its own check. */
  lemma SummaryValidates(rows: seq<Row>)
    requires ValidRows(rows)
    ensures Validates(SummaryOf(rows))
    ensures 1.0 <= SummaryOf(rows).effective <= SummaryOf(rows).independentClusters as real
  {
    hide Square, Ratio, Times, Largest, Sum, SumSquares, Effective, Scaled, Values, Gather, StabilizedKish, WithinCount;
    var s, vs, ws := SummaryOf(rows), Values(Gather(rows).clusters), WeightsOf(rows);
    ClusterValuesPositive(rows);
    GatherCounts(rows);
    GatherSums(rows);
    ClustersConserve(rows);
    PositivesAgree(rows);
    ClusterScaleDominates(rows);
    ScaledBounds(ws);
    ScaledBounds(vs);
    KishFromSummaries(vs);
    EffectiveBounds(vs);
    SumPositive(vs);
    WithinExact(Ratio(Sum(ws), Largest(ws)), |ws|);
    WithinExact(Scaled(ws), |ws|);
    WithinExact(Ratio(Sum(vs), Largest(vs)), |vs|);
    WithinExact(Scaled(vs), |vs|);
  }

  /** The summary does not depend on the order of its rows. */
  lemma SummaryPermutation(a: seq<Row>, b: seq<Row>)
    requires ValidRows(a) && multiset(a) == multiset(b)
    ensures ValidRows(b) && SummaryOf(a) == SummaryOf(b)
  {
    hide Ratio, Square, Values, Effective, Largest, SumSquares, Sum, Gather, AllPositive;
    assert |multiset(a)| == |a|;
    forall i | 0 <= i < |b| ensures b[i].weight > 0.0 {
      assert b[i] in multiset(a);
    }
    GatherPermutation(a, b);
    GatherSums(a);
    GatherSums(b);
    ClusterValuesPositive(a);
    ClusterValuesPositive(b);
  }

  // ----- Recombining two summaries -----

  /** A sum of squares scaled by `scale`, brought to a larger scale. */
  function Rescaled(sum: real, scale: real, top: real): (r: real)
    requires top != 0.0
  {
    sum * Ratio(scale, top) * Ratio(scale, top)
  }

  function CombineScaled(leftScale: real, leftSum: real, rightScale: real, rightSum: real): (r: Option<(real, real)>) {
    if leftScale <= 0.0 || leftSum <= 0.0 || rightScale <= 0.0 || rightSum <= 0.0 then None
    else
      var scale := Max(leftScale, rightScale);
      var sum := Rescaled(leftSum, leftScale, scale) + Rescaled(rightSum, rightScale, scale);
      if sum > 0.0 then Some((scale, sum)) else None
  }

  /** The recombination check of an artifact whose population is its fit and selector rows together. */
  predicate Recombines(fit: Support, selector: Support, population: Support) {
    && Validates(population)
    && Validates(fit)
    && Validates(selector)
    && var weights := CombineScaled(fit.weightScale, fit.squaredWeights, selector.weightScale, selector.squaredWeights);
       var clusters := CombineScaled(fit.clusterScale, fit.squaredClusters,
                                     selector.clusterScale, selector.squaredClusters);
       && weights.Some?
       && clusters.Some?
       && var total, count := fit.totalWeight + selector.totalWeight,
                              fit.independentClusters + selector.independentClusters;
          var effective := StabilizedKish(total, clusters.value.0, clusters.value.1, count);
          && effective.Some?
          && population.observations == fit.observations + selector.observations
          && population.independentClusters == count
          && population.positives == fit.positives + selector.positives
          && population.negatives == fit.negatives + selector.negatives
          && NearlyEqual(population.totalWeight, total)
          && NearlyEqual(population.positiveWeight, fit.positiveWeight + selector.positiveWeight)
          && NearlyEqual(population.weightScale, weights.value.0)
          && NearlyEqual(population.squaredWeights, weights.value.1)
          && NearlyEqual(population.clusterScale, clusters.value.0)
          && NearlyEqual(population.squaredClusters, clusters.value.1)
          && NearlyEqual(population.effective, effective.value)
  }

  /** Combining scaled sums of squares gives the scaled sum of squares of both lists. */
  lemma CombineConcat(a: seq<real>, b: seq<real>)
    requires a != [] && b != [] && AllPositive(a) && AllPositive(b)
    ensures AllPositive(a + b)
    ensures CombineScaled(Largest(a), Scaled(a), Largest(b), Scaled(b)) == Some((Largest(a + b), Scaled(a + b)))
  {
    hide Square, Ratio, Times, Largest, SumSquares, Rescaled;
    ScaledBounds(a);
    ScaledBounds(b);
    ScaledBounds(a + b);
    LargestConcat(a, b);
    SumSquaresConcat(a, b);
    UnscaledTotals(a);
    UnscaledTotals(b);
    var top := Max(Largest(a), Largest(b));
    SquareMonotone(top, top);
    RescaledIs(Scaled(a), Largest(a), top, SumSquares(a));
    RescaledIs(Scaled(b), Largest(b), top, SumSquares(b));
    RatioPlus(SumSquares(a), SumSquares(b), Square(top));
  }

  lemma RescaledIs(q: real, scale: real, top: real, squares: real)
    requires top > 0.0 && Square(top) > 0.0 && Times(q, Square(scale)) == squares
    ensures Rescaled(q, scale, top) == Ratio(squares, Square(top))
  {
    var r, t := scale / top, top * top;
    assert r * top == scale;
    assert squares == q * (scale * scale) == (q * r * r) * t;
    assert (q * r * r) == ((q * r * r) * t) / t;
  }

  lemma ScaledPermutation(a: seq<real>, b: seq<real>)
    requires a != [] && AllPositive(a) && AllPositive(b) && multiset(a) == multiset(b)
    ensures b != [] && |a| == |b|
    ensures Sum(a) == Sum(b) && Largest(a) == Largest(b) && Scaled(a) == Scaled(b) && Effective(a) == Effective(b)
  {
    hide Square, Ratio, Times, Largest, SumSquares, Sum;
    assert |multiset(a)| == |a| && |multiset(b)| == |b|;
    SumPermutation(a, b);
    SquaresPermutation(a, b);
    LargestBounds(a);
    LargestBounds(b);
    assert Largest(a) in multiset(b) && Largest(b) in multiset(a);
  }

  /** Disjoint clusters: the summary of both groups is what the recombination check expects. */
  lemma DisjointRecombines(fit: seq<Row>, selector: seq<Row>)
    requires ValidRows(fit) && ValidRows(selector) && KeysOf(fit) !! KeysOf(selector)
    ensures ValidRows(fit + selector)
    ensures Recombines(SummaryOf(fit), SummaryOf(selector), SummaryOf(fit + selector))
  {
    hide Square, Ratio, Times, Largest, SumSquares, Sum, Values, Gather, Effective, Scaled, Validates, StabilizedKish,
         CombineScaled, NearlyEqual;
    var a, b, c := Gather(fit), Gather(selector), Gather(fit + selector);
    SummaryValidates(fit);
    SummaryValidates(selector);
    SummaryValidates(fit + selector);
    GatherConcat(fit, selector);
    CountsAdd(fit, selector);
    RowsCombine(fit, selector);
    ClustersCombine(fit, selector);
    EqualIsNear();
  }

  lemma EqualIsNear()
    ensures forall x, y :: x == y ==> NearlyEqual(x, y)
  {}

  lemma CountsAdd(fit: seq<Row>, selector: seq<Row>)
    requires KeysOf(fit) !! KeysOf(selector)
    ensures |Gather(fit + selector).clusters| == |Gather(fit).clusters| + |Gather(selector).clusters|
  {
    GatherKeys(fit);
    GatherKeys(selector);
    GatherKeys(fit + selector);
    KeysOfConcat(fit, selector);
    MapSizes(Gather(fit).clusters, Gather(selector).clusters, Gather(fit + selector).clusters);
  }

  lemma KeysOfConcat(a: seq<Row>, b: seq<Row>)
    ensures KeysOf(a + b) == KeysOf(a) + KeysOf(b)
  {
    forall k | k in KeysOf(a) + KeysOf(b) ensures k in KeysOf(a + b) {
      if k in KeysOf(a) {
        var i :| 0 <= i < |a| && a[i].cluster == k;
        assert (a + b)[i].cluster == k;
      } else {
        var i :| 0 <= i < |b| && b[i].cluster == k;
        assert (a + b)[|a| + i].cluster == k;
      }
    }
  }

  lemma MapSizes(a: map<Key, real>, b: map<Key, real>, c: map<Key, real>)
    requires c.Keys == a.Keys + b.Keys
    ensures |c| == |a| + |b| <==> a.Keys !! b.Keys
  {
    var both := a.Keys * b.Keys;
    assert |a| == |a.Keys| && |b| == |b.Keys| && |c| == |c.Keys|;
    assert |a.Keys + b.Keys| + |both| == |a.Keys| + |b.Keys|;
    if k :| k in a.Keys && k in b.Keys {
      assert k in both && |both| > 0;
    } else {
      assert both == {};
    }
  }

  lemma RowsCombine(fit: seq<Row>, selector: seq<Row>)
    requires ValidRows(fit) && ValidRows(selector)
    ensures ValidRows(fit + selector)
    ensures var f, s, p := SummaryOf(fit), SummaryOf(selector), SummaryOf(fit + selector);
            CombineScaled(f.weightScale, f.squaredWeights, s.weightScale, s.squaredWeights)
            == Some((p.weightScale, p.squaredWeights))
  {
    hide Square, Ratio, Times, Largest, SumSquares, Sum, Values, Gather, Effective, Scaled, CombineScaled;
    ClusterValuesPositive(fit);
    ClusterValuesPositive(selector);
    assert WeightsOf(fit + selector) == WeightsOf(fit) + WeightsOf(selector);
    GatherSums(fit);
    GatherSums(selector);
    GatherSums(fit + selector);
    CombineConcat(WeightsOf(fit), WeightsOf(selector));
  }

  lemma ClustersCombine(fit: seq<Row>, selector: seq<Row>)
    requires ValidRows(fit) && ValidRows(selector) && KeysOf(fit) !! KeysOf(selector)
    ensures ValidRows(fit + selector)
    ensures var f, s, p := SummaryOf(fit), SummaryOf(selector), SummaryOf(fit + selector);
            && CombineScaled(f.clusterScale, f.squaredClusters, s.clusterScale, s.squaredClusters)
               == Some((p.clusterScale, p.squaredClusters))
            && StabilizedKish(f.totalWeight + s.totalWeight, p.clusterScale, p.squaredClusters,
                              f.independentClusters + s.independentClusters) == Some(p.effective)
  {
    hide Square, Ratio, Times, Largest, SumSquares, Sum, Values, Gather, Effective, Scaled, CombineScaled,
         StabilizedKish;
    var f, s, p := Gather(fit).clusters, Gather(selector).clusters, Gather(fit + selector).clusters;
    ClusterValuesPositive(fit);
    ClusterValuesPositive(selector);
    ClusterValuesPositive(fit + selector);
    GatherConcat(fit, selector);
    GatherKeys(fit);
    GatherKeys(selector);
    ValuesOfUnion(f, s);
    ScaledPermutation(Values(p), Values(f) + Values(s));
    CombineConcat(Values(f), Values(s));
    CountsAdd(fit, selector);
    ClustersConserve(fit + selector);
    KishFromSummaries(Values(p));
  }

  /** The check accepts the pooled population exactly when fit and selector share no episode of an entity. */
  lemma RecombinesIffDisjoint(fit: seq<Row>, selector: seq<Row>, all: seq<Row>)
    requires ValidRows(fit) && ValidRows(selector) && multiset(all) == multiset(fit + selector)
    ensures ValidRows(all)
    ensures Recombines(SummaryOf(fit), SummaryOf(selector), SummaryOf(all)) <==> KeysOf(fit) !! KeysOf(selector)
  {
    hide Validates, StabilizedKish, CombineScaled, NearlyEqual, Gather;
    SummaryPermutation(fit + selector, all);
    if KeysOf(fit) !! KeysOf(selector) {
      DisjointRecombines(fit, selector);
    } else {
      GatherKeys(fit);
      GatherKeys(selector);
      GatherKeys(fit + selector);
      KeysOfConcat(fit, selector);
      MapSizes(Gather(fit).clusters, Gather(selector).clusters, Gather(fit + selector).clusters);
    }
  }

  function Pooled(sets: seq<seq<Row>>): (rows: seq<Row>) {
    if sets == [] then [] else Pooled(sets[..|sets| - 1]) + sets[|sets| - 1]
  }

  lemma {:induction false} PooledKeys(sets: seq<seq<Row>>)
    ensures forall k :: k in KeysOf(Pooled(sets)) <==> exists i :: 0 <= i < |sets| && k in KeysOf(sets[i])
    ensures sets != [] && (forall i :: 0 <= i < |sets| ==> ValidRows(sets[i])) ==> ValidRows(Pooled(sets))
  {
    if sets != [] {
      var n := |sets| - 1;
      PooledKeys(sets[..n]);
      KeysOfConcat(Pooled(sets[..n]), sets[n]);
    }
  }

  /** Pooling horizons: the check needs every fit set apart from every selector set, not only its own. */
  lemma JointRecombinesIff(fits: seq<seq<Row>>, selectors: seq<seq<Row>>)
    requires fits != [] && selectors != []
    requires forall i :: 0 <= i < |fits| ==> ValidRows(fits[i])
    requires forall i :: 0 <= i < |selectors| ==> ValidRows(selectors[i])
    ensures var fit, selector := Pooled(fits), Pooled(selectors);
            && ValidRows(fit) && ValidRows(selector) && ValidRows(fit + selector)
            && (Recombines(SummaryOf(fit), SummaryOf(selector), SummaryOf(fit + selector)) <==>
                forall i, j :: 0 <= i < |fits| && 0 <= j < |selectors| ==> KeysOf(fits[i]) !! KeysOf(selectors[j]))
  {
    hide Recombines, SummaryOf, KeysOf;
    var fit, selector := Pooled(fits), Pooled(selectors);
    PooledKeys(fits);
    PooledKeys(selectors);
    RecombinesIffDisjoint(fit, selector, fit + selector);
    PooledDisjoint(fits, selectors);
  }

  lemma PooledDisjoint(fits: seq<seq<Row>>, selectors: seq<seq<Row>>)
    ensures KeysOf(Pooled(fits)) !! KeysOf(Pooled(selectors)) <==>
            forall i, j :: 0 <= i < |fits| && 0 <= j < |selectors| ==> KeysOf(fits[i]) !! KeysOf(selectors[j])
  {
    hide KeysOf, Pooled;
    PooledKeys(fits);
    PooledKeys(selectors);
    if k :| k in KeysOf(Pooled(fits)) && k in KeysOf(Pooled(selectors)) {
      var i :| 0 <= i < |fits| && k in KeysOf(fits[i]);
      var j :| 0 <= j < |selectors| && k in KeysOf(selectors[j]);
      assert !(KeysOf(fits[i]) !! KeysOf(selectors[j]));
    } else {
      forall i, j | 0 <= i < |fits| && 0 <= j < |selectors| ensures KeysOf(fits[i]) !! KeysOf(selectors[j]) {
        assert forall k :: k in KeysOf(fits[i]) ==> k in KeysOf(Pooled(fits));
        assert forall k :: k in KeysOf(selectors[j]) ==> k in KeysOf(Pooled(selectors));
      }
    }
  }

  // ----- Building a summary -----

  method CompensatedTotal(ws: seq<real>) returns (r: Result<real, WeightError>)
    ensures r.Ok? <==> forall i :: 0 <= i < |ws| ==> ws[i] >= 0.0
    ensures r.Ok? ==> r.value == Sum(ws)
  {
    var sum, compensation := 0.0, 0.0;
    for i := 0 to |ws|
      invariant sum == Sum(ws[..i]) && compensation == 0.0
      invariant forall k :: 0 <= k < i ==> ws[k] >= 0.0
    {
      if ws[i] < 0.0 {
        return Err(InvalidObservationWeight);
      }
      assert ws[..i + 1][..i] == ws[..i];
      var next := CompensatedAdd(sum, compensation, ws[i]);
      sum, compensation := next.0, next.1;
    }
    assert ws[..|ws|] == ws;
    return Ok(sum);
  }

  method ScaledSumOfSquares(ws: seq<real>) returns (r: Result<(real, real), WeightError>)
    ensures r.Ok? <==> ws != [] && AllPositive(ws)
    ensures r.Ok? ==> r.value == (Largest(ws), Scaled(ws))
  {
    hide Square, Ratio, Times, Largest;
    var scale := Largest(ws);
    if ws == [] || scale <= 0.0 || exists i :: 0 <= i < |ws| && ws[i] <= 0.0 {
      if ws != [] && AllPositive(ws) { LargestBounds(ws); assert false; }
      return Err(InvalidObservationWeight);
    }
    var sum, compensation := 0.0, 0.0;
    ghost var ns: seq<real> := [];
    for i := 0 to |ws|
      invariant |ns| == i && forall k :: 0 <= k < i ==> ns[k] == Ratio(ws[k], scale)
      invariant sum == SumSquares(ns) && compensation == 0.0
    {
      var normalized := Ratio(ws[i], scale);
      var next := CompensatedAdd(sum, compensation, Square(normalized));
      sum, compensation := next.0, next.1;
      assert (ns + [normalized])[..i] == ns;
      ns := ns + [normalized];
    }
    ScaledSums(ws, ns, scale);
    ScaledSquaresPositive(ws, ns, scale);
    SquareMonotone(scale, scale);
    QuotientIs(sum, Square(scale), SumSquares(ws));
    if sum <= 0.0 {
      return Err(InvalidObservationWeight);
    }
    return Ok((scale, sum));
  }

  lemma QuotientIs(q: real, d: real, x: real)
    requires d > 0.0 && Times(q, d) == x
    ensures q == Ratio(x, d)
  {}

  /** The cluster weights, listed in whatever order the map yields its keys. */
  method ListClusters(m: map<Key, real>) returns (ws: seq<real>)
    ensures multiset(ws) == multiset(Values(m))
  {
    hide Listing, Get;
    var keys := m.Keys;
    ghost var ks: seq<Key> := [];
    ws := [];
    while keys != {}
      invariant keys <= m.Keys
      invariant multiset(ks) + multiset(keys) == multiset(m.Keys)
      invariant ws == Read(m, ks)
      decreases keys
    {
      var k :| k in keys;
      keys := keys - {k};
      assert (ks + [k])[..|ks|] == ks;
      GetOf(m, k);
      ks, ws := ks + [k], ws + [m[k]];
    }
    ReadPermutation(m, ks, Listing(m.Keys));
  }

  lemma GetOf(m: map<Key, real>, k: Key)
    requires k in m
    ensures Get(m, k) == m[k]
  {}

  method SumByCluster(rows: seq<Row>) returns (m: map<Key, real>)
    ensures m == Gather(rows).clusters
  {
    hide Gather;
    GatherEnds(rows);
    m := map[];
    for i := 0 to |rows|
      invariant m == Gather(rows[..i]).clusters
    {
      assert rows[..i + 1] == rows[..i] + [rows[i]];
      GatherSnoc(rows[..i], rows[i]);
      var row := rows[i];
      m := m[row.cluster := (if row.cluster in m then m[row.cluster] else 0.0) + row.weight];
    }
  }

  lemma GatherEnds(rows: seq<Row>)
    ensures Gather(rows[..0]) == EMPTY && rows[..|rows|] == rows
  {}

  method PositiveRows(rows: seq<Row>) returns (weights: seq<real>)
    requires forall i :: 0 <= i < |rows| ==> rows[i].weight > 0.0
    ensures |weights| == Gather(rows).positives && Sum(weights) == Gather(rows).positiveWeight
    ensures forall i :: 0 <= i < |weights| ==> weights[i] >= 0.0
  {
    hide Gather, Added, Square;
    GatherEnds(rows);
    weights := [];
    for i := 0 to |rows|
      invariant |weights| == Gather(rows[..i]).positives && Sum(weights) == Gather(rows[..i]).positiveWeight
      invariant forall k :: 0 <= k < |weights| ==> weights[k] >= 0.0
    {
      assert rows[..i + 1] == rows[..i] + [rows[i]];
      GatherSnoc(rows[..i], rows[i]);
      SumSnoc(weights, rows[i].weight);
      weights := if rows[i].outcome then weights + [rows[i].weight] else weights;
    }
  }

  /** The summary is built exactly for nonempty rows of positive weight. */
  method FromRows(rows: seq<Row>) returns (r: Result<Support, WeightError>)
    ensures r.Ok? <==> ValidRows(rows)
    ensures r.Ok? ==> r.value == SummaryOf(rows)
  {
    hide Square, Ratio, Times, Largest, SumSquares, Sum, Values, Gather, Effective, Scaled;
    var ws := WeightsOf(rows);
    var total := CompensatedTotal(ws);
    if total.Err? {
      return Err(total.error);
    }
    var squares := ScaledSumOfSquares(ws);
    if squares.Err? {
      return Err(squares.error);
    }
    assert forall i :: 0 <= i < |rows| ==> rows[i].weight == ws[i] > 0.0;
    var positiveRows := PositiveRows(rows);
    var positive := CompensatedTotal(positiveRows);
    var m := SumByCluster(rows);
    ClusterValuesPositive(rows);
    GatherCounts(rows);
    GatherSums(rows);
    var clusterWeights := ListClusters(m);
    ListedPositive(clusterWeights, Values(m));
    ScaledPermutation(Values(m), clusterWeights);
    var clusterSquares := ScaledSumOfSquares(clusterWeights);
    var effective := EffectiveSampleSize(clusterWeights, |clusterWeights|);
    return Ok(Support(|rows|, |clusterWeights|, |positiveRows|, |rows| - |positiveRows|, total.value, positive.value,
                      squares.value.0, squares.value.1, clusterSquares.value.0, clusterSquares.value.1,
                      effective.value));
  }

  lemma ListedPositive(a: seq<real>, b: seq<real>)
    requires multiset(a) == multiset(b) && AllPositive(b)
    ensures AllPositive(a)
  {
    forall i | 0 <= i < |a| ensures a[i] > 0.0 {
      assert a[i] in multiset(b);
    }
  }
}
