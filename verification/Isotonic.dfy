/** The isotonic calibrator: sort, pool, pull off the boundary, look up. */
module Isotonic {
  import opened RealSums
  import opened Results
  import opened Pav
  import opened PavOptimality
  import opened PavTies
  import Sorting
  import Kish

  // ----- The pooling loop -----

  function BlockAt(rows: seq<Row>, cuts: seq<nat>, n: nat, i: nat): (b: Block)
    requires IsCuts(rows, cuts, n) && i < |cuts|
  {
    var lo, hi := cuts[i], End(cuts, i, n);
    Block(rows[hi - 1].logit, PositiveWeight(rows, lo, hi), Weight(rows, lo, hi))
  }

  /** The stack that cuts describe: the totals and the upper logit of each segment. */
  function BlocksOf(rows: seq<Row>, cuts: seq<nat>, n: nat): (bs: seq<Block>)
    requires IsCuts(rows, cuts, n)
    ensures |bs| == |cuts|
  {
    seq(|cuts|, i requires 0 <= i < |cuts| => BlockAt(rows, cuts, n, i))
  }

  predicate Joins(blocks: seq<Block>, row: Row) { blocks != [] && blocks[|blocks| - 1].upperLogit == row.logit }

  function Grown(b: Block, row: Row): (r: Block) {
    Block(b.upperLogit, b.positiveWeight + (if row.outcome then row.weight else 0.0), b.weight + row.weight)
  }

  function Merged(left: Block, right: Block): (r: Block) {
    Block(right.upperLogit, left.positiveWeight + right.positiveWeight, left.weight + right.weight)
  }

  lemma BlockAtMean(rows: seq<Row>, cuts: seq<nat>, n: nat, i: nat)
    requires Positive(rows) && IsCuts(rows, cuts, n) && i < |cuts|
    ensures var b := BlocksOf(rows, cuts, n)[i];
            b.weight > 0.0 && Ratio(b.positiveWeight, b.weight) == BlockMean(rows, cuts, n, i)
  {
    WeightBounds(rows, cuts[i], End(cuts, i, n));
  }

  lemma LastBlockJoins(rows: seq<Row>, cuts: seq<nat>, n: nat)
    requires n < |rows| && IsCuts(rows, cuts, n)
    ensures Joins(BlocksOf(rows, cuts, n), rows[n]) <==> n > 0 && !Boundary(rows, n)
  {
    hide Weight, PositiveWeight;
  }

  lemma SegmentSnoc(rows: seq<Row>, lo: nat, n: nat)
    requires lo <= n < |rows|
    ensures Weight(rows, lo, n + 1) == Weight(rows, lo, n) + rows[n].weight
    ensures PositiveWeight(rows, lo, n + 1)
            == PositiveWeight(rows, lo, n) + if rows[n].outcome then rows[n].weight else 0.0
    ensures Weight(rows, n, n) == PositiveWeight(rows, n, n) == 0.0
  {}

  lemma JoinedBlocks(rows: seq<Row>, cuts: seq<nat>, n: nat)
    requires n < |rows| && IsCuts(rows, cuts, n) && n > 0 && !Boundary(rows, n)
    ensures var bs := BlocksOf(rows, cuts, n);
            var k := |bs| - 1;
            BlocksOf(rows, Push(rows, cuts, n), n + 1) == bs[k := Grown(bs[k], rows[n])]
  {
    hide Weight, PositiveWeight;
    var bs, next := BlocksOf(rows, cuts, n), BlocksOf(rows, cuts, n + 1);
    var k := |bs| - 1;
    SegmentSnoc(rows, cuts[k], n);
    forall i | 0 <= i < |bs| ensures next[i] == bs[k := Grown(bs[k], rows[n])][i] {
      if i < k { assert End(cuts, i, n + 1) == End(cuts, i, n); }
    }
  }

  lemma OpenedBlocks(rows: seq<Row>, cuts: seq<nat>, n: nat)
    requires n < |rows| && IsCuts(rows, cuts, n) && (n == 0 || Boundary(rows, n))
    ensures BlocksOf(rows, Push(rows, cuts, n), n + 1)
            == BlocksOf(rows, cuts, n) + [Grown(Block(rows[n].logit, 0.0, 0.0), rows[n])]
  {
    hide Weight, PositiveWeight;
    var bs, cuts' := BlocksOf(rows, cuts, n), Push(rows, cuts, n);
    var next := BlocksOf(rows, cuts', n + 1);
    SegmentSnoc(rows, n, n);
    forall i | 0 <= i < |cuts| ensures next[i] == bs[i] {
      assert End(cuts', i, n + 1) == End(cuts, i, n);
    }
  }

  lemma MergedBlocks(rows: seq<Row>, cuts: seq<nat>, n: nat)
    requires IsCuts(rows, cuts, n) && |cuts| >= 2
    ensures var bs, k := BlocksOf(rows, cuts, n), |cuts| - 1;
            && IsCuts(rows, cuts[..k], n)
            && BlocksOf(rows, cuts[..k], n) == bs[..k - 1] + [Merged(bs[k - 1], bs[k])]
  {
    hide Weight, PositiveWeight;
    var bs, k := BlocksOf(rows, cuts, n), |cuts| - 1;
    DropLastCut(rows, cuts, n);
    WeightSplit(rows, cuts[k - 1], cuts[k], n);
    var next := BlocksOf(rows, cuts[..k], n);
    forall i | 0 <= i < k - 1 ensures next[i] == bs[i] {
      assert End(cuts[..k], i, n) == End(cuts, i, n);
    }
  }

  lemma SettleStep(rows: seq<Row>, cuts: seq<nat>, n: nat)
    requires Positive(rows) && IsCuts(rows, cuts, n) && |cuts| >= 2 && IsCuts(rows, cuts[..|cuts| - 1], n)
    ensures var k := |cuts| - 1;
            Settle(rows, cuts, n) == if BlockMean(rows, cuts, n, k - 1) > BlockMean(rows, cuts, n, k)
                                     then Settle(rows, cuts[..k], n) else cuts
  {}

  lemma SettleSingle(rows: seq<Row>, cuts: seq<nat>, n: nat)
    requires Positive(rows) && IsCuts(rows, cuts, n) && |cuts| < 2
    ensures Settle(rows, cuts, n) == cuts
  {}

  /** The nested stack loop computes exactly the pooling specified by its cuts. */
  method Pool(rows: seq<Row>) returns (blocks: seq<Block>)
    requires Positive(rows)
    ensures blocks == BlocksOf(rows, PoolCuts(rows, |rows|), |rows|)
  {
    hide BlocksOf, IsCuts, Settle, Push, BlockMean, Ratio, Boundary;
    blocks := [];
    ghost var cuts := PoolCuts(rows, 0);
    for n := 0 to |rows|
      invariant cuts == PoolCuts(rows, n) && blocks == BlocksOf(rows, cuts, n)
    {
      var row := rows[n];
      LastBlockJoins(rows, cuts, n);
      if Joins(blocks, row) {
        JoinedBlocks(rows, cuts, n);
        blocks := blocks[|blocks| - 1 := Grown(blocks[|blocks| - 1], row)];
      } else {
        OpenedBlocks(rows, cuts, n);
        blocks := blocks + [Grown(Block(row.logit, 0.0, 0.0), row)];
      }
      cuts := Push(rows, cuts, n);
      while |blocks| >= 2
        invariant IsCuts(rows, cuts, n + 1) && blocks == BlocksOf(rows, cuts, n + 1)
        invariant Settle(rows, cuts, n + 1) == PoolCuts(rows, n + 1)
        decreases |blocks|
      {
        var k := |blocks| - 1;
        var left, right := blocks[k - 1], blocks[k];
        BlockAtMean(rows, cuts, n + 1, k - 1);
        BlockAtMean(rows, cuts, n + 1, k);
        MergedBlocks(rows, cuts, n + 1);
        SettleStep(rows, cuts, n + 1);
        if Ratio(left.positiveWeight, left.weight) <= Ratio(right.positiveWeight, right.weight) {
          break;
        }
        blocks := blocks[..k - 1] + [Merged(left, right)];
        cuts := cuts[..k];
      }
      if |blocks| < 2 {
        SettleSingle(rows, cuts, n + 1);
      }
    }
  }

  // ----- What pooling keeps -----

  function TotalWeight(blocks: seq<Block>): (w: real) {
    if blocks == [] then 0.0 else TotalWeight(blocks[..|blocks| - 1]) + blocks[|blocks| - 1].weight
  }

  function TotalPositive(blocks: seq<Block>): (w: real) {
    if blocks == [] then 0.0 else TotalPositive(blocks[..|blocks| - 1]) + blocks[|blocks| - 1].positiveWeight
  }

  /** No weight is lost or invented, whatever the ties. */
  lemma {:induction false} PoolingConserves(rows: seq<Row>, cuts: seq<nat>, n: nat)
    requires IsCuts(rows, cuts, n)
    ensures TotalWeight(BlocksOf(rows, cuts, n)) == Weight(rows, 0, n)
    ensures TotalPositive(BlocksOf(rows, cuts, n)) == PositiveWeight(rows, 0, n)
    decreases |cuts|
  {
    hide Weight, PositiveWeight, BlocksOf;
    if n == 0 {
      EmptyWeight(rows);
    } else {
      var k := |cuts| - 1;
      CutsPrefix(rows, cuts, n);
      PoolingConserves(rows, cuts[..k], cuts[k]);
      WeightSplit(rows, 0, cuts[k], n);
      BlocksSnoc(rows, cuts, n);
    }
  }

  lemma BlocksSnoc(rows: seq<Row>, cuts: seq<nat>, n: nat)
    requires IsCuts(rows, cuts, n) && n > 0
    requires IsCuts(rows, cuts[..|cuts| - 1], cuts[|cuts| - 1])
    ensures var bs, k := BlocksOf(rows, cuts, n), |cuts| - 1;
            && bs[..k] == BlocksOf(rows, cuts[..k], cuts[k])
            && bs[k].weight == Weight(rows, cuts[k], n) && bs[k].positiveWeight == PositiveWeight(rows, cuts[k], n)
  {
    hide Weight, PositiveWeight;
    var k := |cuts| - 1;
    var bs, front := BlocksOf(rows, cuts, n), BlocksOf(rows, cuts[..k], cuts[k]);
    forall i | 0 <= i < k ensures bs[i] == front[i] {
      assert End(cuts, i, n) == End(cuts[..k], i, cuts[k]);
    }
    assert bs[..k] == front;
  }

  lemma EmptyWeight(rows: seq<Row>)
    ensures Weight(rows, 0, 0) == PositiveWeight(rows, 0, 0) == 0.0
  {}

  /** Upper logits rise strictly and block means never fall, ties included. */
  lemma PoolingShape(rows: seq<Row>, i: nat)
    requires Positive(rows) && Ordered(rows) && i < |PoolCuts(rows, |rows|)|
    ensures var cuts := PoolCuts(rows, |rows|);
            var bs := BlocksOf(rows, cuts, |rows|);
            && 0.0 <= BlockMean(rows, cuts, |rows|, i) <= 1.0
            && (i > 0 ==> bs[i - 1].upperLogit < bs[i].upperLogit)
            && (i > 0 ==> BlockMean(rows, cuts, |rows|, i - 1) <= BlockMean(rows, cuts, |rows|, i))
  {
    hide Weight, PositiveWeight, Mean, PoolCuts;
    var n := |rows|;
    var cuts := PoolCuts(rows, n);
    ExcessSign(rows, 0.0, cuts[i], End(cuts, i, n));
    PoolOrders(rows, n);
    if i > 0 {
      BlockMeansOrdered(rows, cuts, n, i);
      var c, hi := cuts[i], End(cuts, i, n);
      assert rows[c - 1].logit < rows[c].logit <= rows[hi - 1].logit;
    }
  }

  // ----- Sorting -----

  function Logit(row: Row): (t: real) { row.logit }

  /** A stable sort by logit. */
  function SortByLogit(rows: seq<Row>): (r: seq<Row>) { Sorting.SortBy(rows, Logit) }

  /** Rows come out in logit order, and rows of one logit keep the order they came in. */
  lemma SortOrders(rows: seq<Row>, t: real)
    ensures Ordered(SortByLogit(rows))
    ensures Sorting.WithKey(SortByLogit(rows), Logit, t) == Sorting.WithKey(rows, Logit, t)
  {
    Sorting.SortOrders(rows, Logit);
    Sorting.SortStable(rows, Logit, t);
    var sorted := SortByLogit(rows);
    assert forall i :: 0 <= i < |sorted| ==> Logit(sorted[i]) == sorted[i].logit;
  }

  lemma SortKeepsRows(rows: seq<Row>)
    ensures |SortByLogit(rows)| == |rows|
    ensures Positive(rows) ==> Positive(SortByLogit(rows))
  {
    Sorting.SortElements(rows, Logit);
    var sorted := SortByLogit(rows);
    assert |multiset(sorted)| == |multiset(rows)|;
    if Positive(rows) {
      forall i | 0 <= i < |sorted| ensures sorted[i].weight > 0.0 {
        assert sorted[i] in multiset(rows);
      }
    }
  }

  // ----- Fit, validate, look up -----

  const MINIMUM_OBSERVATIONS: nat := 8
  const MAXIMUM_OBSERVATIONS: nat := 1_000_000
  const MAXIMUM_ABS_LOGIT: real := 1_000_000.0
  const MAXIMUM_WEIGHT: real := 1_000_000_000_000.0

  datatype CalibrationError =
    | ObservationCapacity
    | InvalidObservationWeight
    | DegenerateOutcomes
    | InvalidCalibrator

  datatype Calibrator = Calibrator(
    upperLogits: seq<real>,
    probabilities: seq<real>,
    observations: nat,
    effectiveSampleSize: real)

  predicate ValidRow(row: Row) {
    Abs(row.logit) <= MAXIMUM_ABS_LOGIT && 0.0 < row.weight <= MAXIMUM_WEIGHT
  }

  /** A usable calibration set: bounded size, sane rows, both outcomes present. */
  predicate ValidSet(rows: seq<Row>) {
    && MINIMUM_OBSERVATIONS <= |rows| <= MAXIMUM_OBSERVATIONS
    && (forall i :: 0 <= i < |rows| ==> ValidRow(rows[i]))
    && (exists i :: 0 <= i < |rows| && rows[i].outcome)
    && (exists i :: 0 <= i < |rows| && !rows[i].outcome)
  }

  /** The calibrator's own validation. */
  predicate ValidCalibrator(c: Calibrator) {
    && MINIMUM_OBSERVATIONS <= c.observations <= MAXIMUM_OBSERVATIONS
    && 0.0 < c.effectiveSampleSize <= c.observations as real * (1.0 + Kish.TOLERANCE)
    && 0 < |c.upperLogits| == |c.probabilities| <= c.observations
    && (forall i :: 0 < i < |c.upperLogits| ==> c.upperLogits[i - 1] < c.upperLogits[i])
    && (forall i :: 0 <= i < |c.probabilities| ==> 0.0 < c.probabilities[i] < 1.0)
    && (forall i :: 0 < i < |c.probabilities| ==> c.probabilities[i - 1] <= c.probabilities[i])
  }

  /** The Jeffreys boundary transform. */
  function Shrunk(epsilon: real, p: real): (q: real) { epsilon + Times(1.0 - 2.0 * epsilon, p) }

  function Epsilon(effective: real): (e: real)
    requires effective >= 1.0
    ensures 0.0 < e <= 0.25
  {
    0.5 / (effective + 1.0)
  }

  lemma ShrunkOrder(e: real, p: real, q: real)
    requires 0.0 < e <= 0.25 && 0.0 <= p <= q <= 1.0
    ensures 0.0 < Shrunk(e, p) <= Shrunk(e, q) < 1.0
    ensures p < q ==> Shrunk(e, p) < Shrunk(e, q)
  {
    hide Times;
    var k := 1.0 - 2.0 * e;
    TimesMonotone(k, 0.0, p);
    TimesMonotone(k, p, q);
    TimesMonotone(k, q, 1.0);
  }

  function Weights(rows: seq<Row>): (ws: seq<real>)
    ensures |ws| == |rows|
  {
    seq(|rows|, i requires 0 <= i < |rows| => rows[i].weight)
  }

  /** The calibrator a valid set determines. */
  function FitOf(rows: seq<Row>): (c: Calibrator)
    requires rows != [] && Positive(rows)
  {
    SortKeepsRows(rows);
    assert Kish.AllPositive(Weights(rows));
    Kish.EffectiveBounds(Weights(rows));
    var ordered := SortByLogit(rows);
    var cuts, effective := PoolCuts(ordered, |ordered|), Kish.Effective(Weights(rows));
    var blocks := BlocksOf(ordered, cuts, |ordered|);
    Calibrator(
      seq(|blocks|, i requires 0 <= i < |blocks| => blocks[i].upperLogit),
      seq(|cuts|, i requires 0 <= i < |cuts| =>
            Shrunk(Epsilon(effective), BlockMean(ordered, cuts, |ordered|, i))),
      |rows|, effective)
  }

  lemma {:induction false} CutsOrder(rows: seq<Row>, cuts: seq<nat>, n: nat, i: nat)
    requires IsCuts(rows, cuts, n) && i < |cuts|
    ensures i <= cuts[i]
  {
    if i > 0 { CutsOrder(rows, cuts, n, i - 1); }
  }

  /** Every fit of a valid set passes its own validation, ties or not. */
  lemma FitValidates(rows: seq<Row>)
    requires ValidSet(rows)
    ensures Positive(rows) && ValidCalibrator(FitOf(rows))
  {
    hide PoolCuts, BlocksOf, BlockMean, SortByLogit, Shrunk;
    SortKeepsRows(rows);
    SortOrders(rows, 0.0);
    var ordered := SortByLogit(rows);
    var cuts, c := PoolCuts(ordered, |ordered|), FitOf(rows);
    Kish.EffectiveBounds(Weights(rows));
    CutsOrder(ordered, cuts, |ordered|, |cuts| - 1);
    forall i | 0 <= i < |cuts|
      ensures 0.0 < c.probabilities[i] < 1.0
      ensures i > 0 ==> c.upperLogits[i - 1] < c.upperLogits[i] && c.probabilities[i - 1] <= c.probabilities[i]
    {
      PoolingShape(ordered, i);
      var e, m := Epsilon(c.effectiveSampleSize), BlockMean(ordered, cuts, |ordered|, i);
      ShrunkOrder(e, m, m);
      if i > 0 {
        PoolingShape(ordered, i - 1);
        ShrunkOrder(e, BlockMean(ordered, cuts, |ordered|, i - 1), m);
      }
    }
  }

  method Fit(rows: seq<Row>) returns (r: Result<Calibrator, CalibrationError>)
    ensures r.Ok? <==> ValidSet(rows)
    ensures r == Err(ObservationCapacity) <==> !(MINIMUM_OBSERVATIONS <= |rows| <= MAXIMUM_OBSERVATIONS)
    ensures r == Err(InvalidObservationWeight) <==>
              && MINIMUM_OBSERVATIONS <= |rows| <= MAXIMUM_OBSERVATIONS
              && exists i :: 0 <= i < |rows| && !ValidRow(rows[i])
    ensures r != Err(InvalidCalibrator)
    ensures r.Ok? ==> Positive(rows) && r.value == FitOf(rows) && ValidCalibrator(r.value)
  {
    hide PoolCuts, BlocksOf, SortByLogit, Shrunk, Ratio;
    if !(MINIMUM_OBSERVATIONS <= |rows| <= MAXIMUM_OBSERVATIONS) {
      return Err(ObservationCapacity);
    }
    if exists i :: 0 <= i < |rows| && !ValidRow(rows[i]) {
      return Err(InvalidObservationWeight);
    }
    if (forall i :: 0 <= i < |rows| ==> !rows[i].outcome) || (forall i :: 0 <= i < |rows| ==> rows[i].outcome) {
      return Err(DegenerateOutcomes);
    }
    SortKeepsRows(rows);
    var ordered := SortByLogit(rows);
    var blocks := Pool(ordered);
    var effective := Kish.EffectiveSampleSize(Weights(rows), |rows|);
    if effective.Err? {
      return Err(InvalidObservationWeight);
    }
    ghost var cuts := PoolCuts(ordered, |ordered|);
    var epsilon := Epsilon(effective.value);
    var uppers: seq<real>, probabilities: seq<real> := [], [];
    for i := 0 to |blocks|
      invariant |uppers| == |probabilities| == i
      invariant forall k :: 0 <= k < i ==> uppers[k] == blocks[k].upperLogit
      invariant forall k :: 0 <= k < i ==>
                  probabilities[k] == Shrunk(epsilon, BlockMean(ordered, cuts, |ordered|, k))
    {
      BlockAtMean(ordered, cuts, |ordered|, i);
      uppers := uppers + [blocks[i].upperLogit];
      probabilities := probabilities + [Shrunk(epsilon, Ratio(blocks[i].positiveWeight, blocks[i].weight))];
    }
    var c := Calibrator(uppers, probabilities, |rows|, effective.value);
    FitValidates(rows);
    assert c == FitOf(rows);
    if !ValidCalibrator(c) {
      return Err(InvalidCalibrator);
    }
    return Ok(c);
  }

  /** How many leading upper logits lie below `x`. */
  function PartitionPoint(uppers: seq<real>, x: real): (k: nat)
    ensures k <= |uppers|
    ensures forall i :: 0 <= i < k ==> uppers[i] < x
    ensures k < |uppers| ==> uppers[k] >= x
  {
    if uppers == [] || uppers[0] >= x then 0 else 1 + PartitionPoint(uppers[1..], x)
  }

  function CalibrateLogit(c: Calibrator, x: real): (p: real)
    requires ValidCalibrator(c)
    ensures 0.0 < p < 1.0
  {
    c.probabilities[Min(PartitionPoint(c.upperLogits, x), |c.probabilities| - 1)]
  }

  lemma {:induction false} ProbabilitiesOrdered(c: Calibrator, i: nat, j: nat)
    requires ValidCalibrator(c) && i <= j < |c.probabilities|
    ensures c.probabilities[i] <= c.probabilities[j]
  {
    if i < j { ProbabilitiesOrdered(c, i, j - 1); }
  }

  /** A larger logit never gets a smaller probability. */
  lemma CalibrateMonotone(c: Calibrator, x: real, y: real)
    requires ValidCalibrator(c) && x <= y
    ensures CalibrateLogit(c, x) <= CalibrateLogit(c, y)
  {
    var i, j := PartitionPoint(c.upperLogits, x), PartitionPoint(c.upperLogits, y);
    assert i <= j;
    var top := |c.probabilities| - 1;
    ProbabilitiesOrdered(c, Min(i, top), Min(j, top));
  }

  /** Looking up a training logit finds the block its row was pooled into. */
  lemma LookupFindsBlock(rows: seq<Row>, cuts: seq<nat>, i: nat, j: nat, uppers: seq<real>)
    requires Ordered(rows) && IsCuts(rows, cuts, |rows|) && i < |cuts| && cuts[i] <= j < End(cuts, i, |rows|)
    requires |uppers| == |cuts|
    requires forall b :: 0 <= b < |cuts| ==> uppers[b] == BlocksOf(rows, cuts, |rows|)[b].upperLogit
    ensures PartitionPoint(uppers, rows[j].logit) == i
  {
    hide BlocksOf, IsCuts, Ordered;
    UpperReaches(rows, cuts, i, j);
    forall b | 0 <= b < i ensures uppers[b] < rows[j].logit {
      UpperBelow(rows, cuts, b, i, j);
    }
  }

  lemma UpperReaches(rows: seq<Row>, cuts: seq<nat>, i: nat, j: nat)
    requires Ordered(rows) && IsCuts(rows, cuts, |rows|) && i < |cuts| && cuts[i] <= j < End(cuts, i, |rows|)
    ensures j < |rows| && BlocksOf(rows, cuts, |rows|)[i].upperLogit >= rows[j].logit
  {
    hide Weight, PositiveWeight;
  }

  lemma UpperBelow(rows: seq<Row>, cuts: seq<nat>, b: nat, i: nat, j: nat)
    requires Ordered(rows) && IsCuts(rows, cuts, |rows|) && b < i < |cuts| && cuts[i] <= j < |rows|
    ensures BlocksOf(rows, cuts, |rows|)[b].upperLogit < rows[j].logit
  {
    hide Weight, PositiveWeight;
    var c := cuts[i];
    assert End(cuts, b, |rows|) <= c;
    assert rows[End(cuts, b, |rows|) - 1].logit <= rows[c - 1].logit < rows[c].logit <= rows[j].logit;
  }

  /** On its own training rows the calibrator returns the pooled fit, pulled off the boundary. */
  lemma FitReproducesPooling(rows: seq<Row>, j: nat)
    requires ValidSet(rows) && j < |rows|
    ensures Positive(rows) && ValidCalibrator(FitOf(rows))
    ensures |SortByLogit(rows)| == |rows| && Positive(SortByLogit(rows))
    ensures var ordered := SortByLogit(rows);
            var f, c := Fitted(ordered, PoolCuts(ordered, |ordered|), |ordered|), FitOf(rows);
            && c.effectiveSampleSize >= 1.0
            && CalibrateLogit(c, ordered[j].logit) == Shrunk(Epsilon(c.effectiveSampleSize), f[j])
  {
    hide PoolCuts, BlocksOf, SortByLogit, Shrunk, Mean, Fitted;
    FitValidates(rows);
    SortKeepsRows(rows);
    SortOrders(rows, 0.0);
    var ordered := SortByLogit(rows);
    var n, cuts, c := |ordered|, PoolCuts(ordered, |ordered|), FitOf(rows);
    Kish.EffectiveBounds(Weights(rows));
    var i := BlockOf(ordered, cuts, n, j);
    FittedAt(ordered, cuts, n, i, j);
    LookupFindsBlock(ordered, cuts, i, j, c.upperLogits);
  }
}
