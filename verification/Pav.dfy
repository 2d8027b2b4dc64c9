/**
 Pool-adjacent-violators, as the isotonic calibrator runs it: a stack of blocks
 over rows in logit order, where a row that repeats the last logit joins the last
 block even when that block was already pooled.

 A pooling of the first `n` rows is described by its cuts, the indices at which
 its blocks start; a merge drops the last cut.
 */
module Pav {
  import opened RealSums

  datatype Row = Row(logit: real, outcome: bool, weight: real)

  datatype Block = Block(upperLogit: real, positiveWeight: real, weight: real)

  function Target(row: Row): (y: real) { if row.outcome then 1.0 else 0.0 }

  ghost predicate Positive(rows: seq<Row>) { forall i :: 0 <= i < |rows| ==> rows[i].weight > 0.0 }

  ghost predicate Ordered(rows: seq<Row>) {
    forall i, j :: 0 <= i <= j < |rows| ==> rows[i].logit <= rows[j].logit
  }

  // ----- Segment totals -----

  function Weight(rows: seq<Row>, lo: nat, hi: nat): (w: real)
    requires lo <= hi <= |rows|
  {
    if lo == hi then 0.0 else Weight(rows, lo, hi - 1) + rows[hi - 1].weight
  }

  function PositiveWeight(rows: seq<Row>, lo: nat, hi: nat): (w: real)
    requires lo <= hi <= |rows|
  {
    if lo == hi then 0.0
    else PositiveWeight(rows, lo, hi - 1) + (if rows[hi - 1].outcome then rows[hi - 1].weight else 0.0)
  }

  lemma {:induction false} WeightSplit(rows: seq<Row>, lo: nat, mid: nat, hi: nat)
    requires lo <= mid <= hi <= |rows|
    ensures Weight(rows, lo, hi) == Weight(rows, lo, mid) + Weight(rows, mid, hi)
    ensures PositiveWeight(rows, lo, hi) == PositiveWeight(rows, lo, mid) + PositiveWeight(rows, mid, hi)
  {
    if mid < hi { WeightSplit(rows, lo, mid, hi - 1); }
  }

  lemma {:induction false} WeightBounds(rows: seq<Row>, lo: nat, hi: nat)
    requires Positive(rows) && lo <= hi <= |rows|
    ensures 0.0 <= PositiveWeight(rows, lo, hi) <= Weight(rows, lo, hi)
    ensures lo < hi ==> Weight(rows, lo, hi) > 0.0
  {
    if lo < hi { WeightBounds(rows, lo, hi - 1); }
  }

  /** The weighted outcome rate of rows `lo .. hi`. */
  function Mean(rows: seq<Row>, lo: nat, hi: nat): (m: real)
    requires Positive(rows) && lo < hi <= |rows|
  {
    WeightBounds(rows, lo, hi);
    Ratio(PositiveWeight(rows, lo, hi), Weight(rows, lo, hi))
  }

  /** How far level `m` exceeds rows `lo .. hi` in total: `sum of w (m - y)`. */
  function Excess(rows: seq<Row>, m: real, lo: nat, hi: nat): (e: real)
    requires lo <= hi <= |rows|
  {
    Times(m, Weight(rows, lo, hi)) - PositiveWeight(rows, lo, hi)
  }

  lemma ExcessSplit(rows: seq<Row>, m: real, lo: nat, mid: nat, hi: nat)
    requires lo <= mid <= hi <= |rows|
    ensures Excess(rows, m, lo, hi) == Excess(rows, m, lo, mid) + Excess(rows, m, mid, hi)
  {
    WeightSplit(rows, lo, mid, hi);
    TimesOverSum(m, Weight(rows, lo, mid), Weight(rows, mid, hi));
  }

  /** A level exceeds a segment exactly when it is above the segment's mean. */
  lemma ExcessSign(rows: seq<Row>, m: real, lo: nat, hi: nat)
    requires Positive(rows) && lo < hi <= |rows|
    ensures Excess(rows, m, lo, hi) <= 0.0 <==> m <= Mean(rows, lo, hi)
    ensures Excess(rows, m, lo, hi) == 0.0 <==> m == Mean(rows, lo, hi)
    ensures 0.0 <= Mean(rows, lo, hi) <= 1.0
  {
    WeightBounds(rows, lo, hi);
    RatioSign(m, PositiveWeight(rows, lo, hi), Weight(rows, lo, hi));
  }

  lemma RatioSign(m: real, p: real, w: real)
    requires w > 0.0 && 0.0 <= p <= w
    ensures Times(m, w) - p <= 0.0 <==> m <= Ratio(p, w)
    ensures Times(m, w) - p == 0.0 <==> m == Ratio(p, w)
    ensures 0.0 <= Ratio(p, w) <= 1.0
  {
    hide Times, Ratio;
    RatioCancels(p, w);
    UnitProduct(w);
    TimesDistributes(0.0, 0.0, w);
    FactorOrder(m, Ratio(p, w), w);
    FactorOrder(0.0, Ratio(p, w), w);
    FactorOrder(Ratio(p, w), 1.0, w);
  }

  // ----- The stack algorithm on cuts -----

  /** Row `k` starts a new logit. */
  predicate Boundary(rows: seq<Row>, k: nat)
    requires 0 < k < |rows|
  {
    rows[k - 1].logit != rows[k].logit
  }

  /** Cut positions of a pooling of the first `n` rows. */
  ghost predicate IsCuts(rows: seq<Row>, cuts: seq<nat>, n: nat) {
    && n <= |rows|
    && (n == 0 <==> cuts == [])
    && (n > 0 ==> cuts[0] == 0 && cuts[|cuts| - 1] < n)
    && (forall i, j :: 0 <= i < j < |cuts| ==> cuts[i] < cuts[j])
    && (forall i :: 0 < i < |cuts| ==> 0 < cuts[i] < n && Boundary(rows, cuts[i]))
  }

  function End(cuts: seq<nat>, k: nat, n: nat): (e: nat)
    requires k < |cuts|
  {
    if k + 1 < |cuts| then cuts[k + 1] else n
  }

  /** Merge the last two blocks while the left one has the larger mean. */
  function Settle(rows: seq<Row>, cuts: seq<nat>, n: nat): (r: seq<nat>)
    requires Positive(rows) && IsCuts(rows, cuts, n)
    ensures IsCuts(rows, r, n)
  {
    var k := |cuts| - 1;
    if k >= 1 && Mean(rows, cuts[k - 1], cuts[k]) > Mean(rows, cuts[k], n)
    then Settle(rows, cuts[..k], n)
    else cuts
  }

  /** A repeated logit joins the last block, a new one opens a block. */
  function Push(rows: seq<Row>, cuts: seq<nat>, n: nat): (r: seq<nat>)
    requires IsCuts(rows, cuts, n) && n < |rows|
    ensures IsCuts(rows, r, n + 1)
  {
    if n > 0 && !Boundary(rows, n) then cuts else cuts + [n]
  }

  function PoolCuts(rows: seq<Row>, n: nat): (cuts: seq<nat>)
    requires Positive(rows) && n <= |rows|
    ensures IsCuts(rows, cuts, n)
  {
    if n == 0 then [] else Settle(rows, Push(rows, PoolCuts(rows, n - 1), n - 1), n)
  }

  // ----- Block means come out in order -----

  ghost predicate MeansOrdered(rows: seq<Row>, cuts: seq<nat>, n: nat)
    requires Positive(rows) && IsCuts(rows, cuts, n)
  {
    forall k :: 0 < k < |cuts| ==> Mean(rows, cuts[k - 1], cuts[k]) <= Mean(rows, cuts[k], End(cuts, k, n))
  }

  /** In order except possibly at the last block. */
  ghost predicate MeansOrderedButLast(rows: seq<Row>, cuts: seq<nat>, n: nat)
    requires Positive(rows) && IsCuts(rows, cuts, n)
  {
    forall k :: 0 < k < |cuts| - 1 ==> Mean(rows, cuts[k - 1], cuts[k]) <= Mean(rows, cuts[k], cuts[k + 1])
  }

  lemma {:induction false} SettleOrders(rows: seq<Row>, cuts: seq<nat>, n: nat)
    requires Positive(rows) && IsCuts(rows, cuts, n) && MeansOrderedButLast(rows, cuts, n)
    ensures MeansOrdered(rows, Settle(rows, cuts, n), n)
    decreases |cuts|
  {
    hide Mean, Boundary;
    var k := |cuts| - 1;
    if k >= 1 && Mean(rows, cuts[k - 1], cuts[k]) > Mean(rows, cuts[k], n) {
      SettleOrders(rows, cuts[..k], n);
    }
  }

  lemma PushOrders(rows: seq<Row>, cuts: seq<nat>, n: nat)
    requires Positive(rows) && IsCuts(rows, cuts, n) && n < |rows| && MeansOrdered(rows, cuts, n)
    ensures MeansOrderedButLast(rows, Push(rows, cuts, n), n + 1)
  {
    hide Mean, Boundary;
    var next := Push(rows, cuts, n);
    forall k | 0 < k < |next| - 1
      ensures Mean(rows, next[k - 1], next[k]) <= Mean(rows, next[k], next[k + 1])
    {
      assert next[k + 1] == End(cuts, k, n);
    }
  }

  lemma {:induction false} PoolOrders(rows: seq<Row>, n: nat)
    requires Positive(rows) && n <= |rows|
    ensures MeansOrdered(rows, PoolCuts(rows, n), n)
  {
    hide Mean, Settle, Push, MeansOrderedButLast, MeansOrdered;
    if n > 0 {
      PoolOrders(rows, n - 1);
      PushOrders(rows, PoolCuts(rows, n - 1), n - 1);
      SettleOrders(rows, Push(rows, PoolCuts(rows, n - 1), n - 1), n);
    } else {
      NoBlocksOrdered(rows);
    }
  }

  lemma NoBlocksOrdered(rows: seq<Row>)
    requires Positive(rows)
    ensures MeansOrdered(rows, [], 0)
  {}
}
