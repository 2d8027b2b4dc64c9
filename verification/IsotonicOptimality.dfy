/** When the isotonic fit of rows in arrival order is the least-squares fit, and a valid set on which it is not. */
module IsotonicOptimality {
  import opened RealSums
  import opened Pav
  import opened PavOptimality
  import opened PavTies
  import opened PavNecessity
  import opened Isotonic
  import Sorting

  /** A pair at one logit stands in the same order before and after the stable sort. */
  lemma PairThroughSort(from: seq<Row>, to: seq<Row>, b: nat, c: nat) returns (b': nat, c': nat)
    requires b < c < |from| && from[b].logit == from[c].logit
    requires Sorting.WithKey(from, Logit, from[b].logit) == Sorting.WithKey(to, Logit, from[b].logit)
    ensures b' < c' < |to| && to[b'] == from[b] && to[c'] == from[c]
  {
    var t := from[b].logit;
    var i, j := Sorting.PairKept(from, Logit, t, b, c);
    b', c' := Sorting.PairFound(to, Logit, t, i, j);
  }

  lemma Elsewhere(from: seq<Row>, to: seq<Row>, i: nat) returns (j: nat)
    requires multiset(from) == multiset(to) && i < |from|
    ensures j < |to| && to[j] == from[i]
  {
    assert from[i] in multiset(to);
    j :| 0 <= j < |to| && to[j] == from[i];
  }

  /** A late rise shows in arrival order exactly when it shows in logit order. */
  lemma LateRiseMoves(from: seq<Row>, to: seq<Row>, p: nat, y: nat, b: nat, c: nat)
    requires multiset(from) == multiset(to) && LateRise(from, p, y, b, c)
    requires Sorting.WithKey(from, Logit, from[b].logit) == Sorting.WithKey(to, Logit, from[b].logit)
    ensures !NoLateRise(to)
  {
    var b', c' := PairThroughSort(from, to, b, c);
    var p' := Elsewhere(from, to, p);
    var y' := Elsewhere(from, to, y);
    assert LateRise(to, p', y', b', c');
  }

  lemma NoLateRiseInAnyOrder(rows: seq<Row>)
    ensures NoLateRise(SortByLogit(rows)) <==> NoLateRise(rows)
  {
    hide SortByLogit;
    var sorted := SortByLogit(rows);
    SameRows(rows);
    if p: nat, y: nat, b: nat, c: nat :| LateRise(rows, p, y, b, c) {
      SortOrders(rows, rows[b].logit);
      LateRiseMoves(rows, sorted, p, y, b, c);
    }
    if p: nat, y: nat, b: nat, c: nat :| LateRise(sorted, p, y, b, c) {
      SortOrders(rows, sorted[b].logit);
      LateRiseMoves(sorted, rows, p, y, b, c);
    }
  }

  lemma SameRows(rows: seq<Row>)
    ensures multiset(SortByLogit(rows)) == multiset(rows)
  {
    Sorting.SortElements(rows, Logit);
  }

  /**
   Rows in arrival order without a late rise: on every row the calibrator returns
   the least-squares level, pulled off the boundary.
   */
  lemma FitIsLeastSquares(rows: seq<Row>, j: nat)
    requires ValidSet(rows) && NoLateRise(rows) && j < |rows|
    ensures Positive(rows) && ValidCalibrator(FitOf(rows))
    ensures |SortByLogit(rows)| == |rows| && Positive(SortByLogit(rows))
    ensures var ordered, c := SortByLogit(rows), FitOf(rows);
            var f := Fitted(ordered, PoolCuts(ordered, |ordered|), |ordered|);
            && Optimal(ordered, f, |ordered|)
            && c.effectiveSampleSize >= 1.0
            && CalibrateLogit(c, ordered[j].logit) == Shrunk(Epsilon(c.effectiveSampleSize), f[j])
  {
    hide PoolCuts, SortByLogit, Shrunk, Fitted, Optimal, FitOf, ValidCalibrator, CalibrateLogit, NoLateRise;
    FitReproducesPooling(rows, j);
    NoLateRiseInAnyOrder(rows);
    SortOrders(rows, 0.0);
    PoolingOptimal(SortByLogit(rows));
  }

  /** In arrival order, too, the condition is exact over all weightings of the sorted rows. */
  lemma FitOptimalUnderAllWeightsIff(rows: seq<Row>)
    ensures var ordered := SortByLogit(rows);
            (forall ws: seq<real> :: |ws| == |ordered| && Positive(Reweighted(ordered, ws)) ==>
               var rs := Reweighted(ordered, ws);
               Optimal(rs, Fitted(rs, PoolCuts(rs, |rs|), |rs|), |rs|))
            <==> NoLateRise(rows)
  {
    hide SortByLogit, NoLateRise, PoolCuts, Fitted, Optimal;
    NoLateRiseInAnyOrder(rows);
    SortOrders(rows, 0.0);
    OptimalUnderAllWeightsIff(SortByLogit(rows));
  }

  // ----- A valid set with a late rise -----

  /** Logit 1: a negative and a positive. Logit 2: a negative, then a positive. Four more positives above. */
  const PATTERN: seq<Row> := [
    Row(1.0, false, 1.0), Row(1.0, true, 1.0), Row(2.0, false, 1.0), Row(2.0, true, 1.0),
    Row(3.0, true, 1.0), Row(3.0, true, 1.0), Row(4.0, true, 1.0), Row(4.0, true, 1.0)
  ]

  /** Weights 1, 1, 1 and 9 on the first four rows, next to nothing above. */
  const LATE_RISE: seq<Row> := Reweighted(PATTERN, Exposing(8, 1, 0, 2, 3))

  /** The code fits this set, and the fit is not the least-squares one. */
  lemma LateRiseNotOptimal()
    ensures ValidSet(LATE_RISE) && SortByLogit(LATE_RISE) == LATE_RISE
    ensures Positive(LATE_RISE) && !Optimal(LATE_RISE, Fitted(LATE_RISE, PoolCuts(LATE_RISE, 8), 8), 8)
  {
    hide Optimal, Fitted, PoolCuts, Exposing;
    LateRiseValid();
    assert Ordered(PATTERN) && LateRise(PATTERN, 1, 0, 2, 3);
    LateRiseExposed(PATTERN, 1, 0, 2, 3);
  }

  lemma LateRiseValid()
    ensures ValidSet(LATE_RISE) && SortByLogit(LATE_RISE) == LATE_RISE
  {
    var rows := LATE_RISE;
    EpsilonBounds();
    forall i | 0 <= i < |rows| ensures ValidRow(rows[i]) {
      assert rows[i] == PATTERN[i].(weight := Exposing(8, 1, 0, 2, 3)[i]);
    }
    assert rows[1].outcome && !rows[0].outcome;
    assert Sorting.OrderedBy(rows, Logit);
    Sorting.SortSorted(rows, Logit);
  }

  lemma EpsilonBounds()
    ensures 0.0 < Ratio(1.0, 20.0 * 8 as real) < 1.0
  {}
}
