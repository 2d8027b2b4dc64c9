/**
 The tie condition is exact: logits and outcomes with a late rise can always be
 weighted so that pooling misses the least-squares fit.
 */
module PavNecessity {
  import opened RealSums
  import opened Pav
  import opened PavOptimality
  import opened PavTies

  function Reweighted(rows: seq<Row>, ws: seq<real>): (r: seq<Row>)
    requires |ws| == |rows|
    ensures |r| == |rows| && forall i :: 0 <= i < |rows| ==> r[i] == rows[i].(weight := ws[i])
  {
    seq(|rows|, i requires 0 <= i < |rows| => rows[i].(weight := ws[i]))
  }

  // ----- Cuts only disappear -----

  lemma {:induction false} SettleOnlyDrops(rows: seq<Row>, cuts: seq<nat>, n: nat, x: nat)
    requires Positive(rows) && IsCuts(rows, cuts, n) && x in Settle(rows, cuts, n)
    ensures x in cuts
    decreases |cuts|
  {
    hide Mean, Boundary;
    var k := |cuts| - 1;
    if k >= 1 && Mean(rows, cuts[k - 1], cuts[k]) > Mean(rows, cuts[k], n) {
      SettleOnlyDrops(rows, cuts[..k], n, x);
    }
  }

  /** A cut seen later was already there when its rows had just been pooled. */
  lemma {:induction false} CutsOnlyDisappear(rows: seq<Row>, m: nat, n: nat, x: nat)
    requires Positive(rows) && m <= n <= |rows| && x < m && x in PoolCuts(rows, n)
    ensures x in PoolCuts(rows, m)
  {
    hide IsCuts, Settle;
    if m < n {
      var before := PoolCuts(rows, n - 1);
      SettleOnlyDrops(rows, Push(rows, before, n - 1), n, x);
      CutsOnlyDisappear(rows, m, n - 1, x);
    }
  }

  lemma {:induction false} BlocksRise(rows: seq<Row>, cuts: seq<nat>, n: nat, i: nat, j: nat)
    requires Positive(rows) && IsCuts(rows, cuts, n) && MeansOrdered(rows, cuts, n) && i <= j < |cuts|
    ensures BlockMean(rows, cuts, n, i) <= BlockMean(rows, cuts, n, j)
  {
    hide BlockMean, MeansOrdered, IsCuts;
    if i < j {
      BlocksRise(rows, cuts, n, i, j - 1);
      BlockMeansOrdered(rows, cuts, n, j);
    }
  }

  // ----- Weights that expose a late rise -----

  /** One each for the early pair and the late negative, nine for the late positive, next to nothing elsewhere. */
  function Load(i: nat, p: nat, y: nat, b: nat, c: nat): (w: real) {
    if i == p || i == y || i == b then 1.0 else if i == c then 9.0 else 0.0
  }

  function Exposing(n: nat, p: nat, y: nat, b: nat, c: nat): (ws: seq<real>)
    requires n > 0
    ensures |ws| == n
    ensures forall i :: 0 <= i < n ==> ws[i] > 0.0
    ensures forall i :: 0 <= i < n ==>
              Load(i, p, y, b, c) <= ws[i] <= Load(i, p, y, b, c) + Ratio(1.0, 20.0 * n as real)
  {
    seq(n, i requires 0 <= i < n =>
          if Load(i, p, y, b, c) > 0.0 then Load(i, p, y, b, c) else Ratio(1.0, 20.0 * n as real))
  }

  function Holds(lo: nat, hi: nat, i: nat, w: real): (r: real) { if lo <= i < hi then w else 0.0 }

  /** The load of a segment, and the part of it that sits on positives. */
  function Heavy(lo: nat, hi: nat, p: nat, y: nat, b: nat, c: nat): (w: real) {
    Holds(lo, hi, p, 1.0) + Holds(lo, hi, y, 1.0) + Holds(lo, hi, b, 1.0) + Holds(lo, hi, c, 9.0)
  }

  function HeavyPositive(lo: nat, hi: nat, p: nat, c: nat): (w: real) { Holds(lo, hi, p, 1.0) + Holds(lo, hi, c, 9.0) }

  lemma HeavyStep(rows: seq<Row>, lo: nat, hi: nat, p: nat, y: nat, b: nat, c: nat)
    requires lo <= hi < |rows| && LateRise(rows, p, y, b, c)
    ensures Heavy(lo, hi + 1, p, y, b, c) == Heavy(lo, hi, p, y, b, c) + Load(hi, p, y, b, c)
    ensures HeavyPositive(lo, hi + 1, p, c)
            == HeavyPositive(lo, hi, p, c) + if rows[hi].outcome then Load(hi, p, y, b, c) else 0.0
  {}

  lemma SegmentStep(rows: seq<Row>, lo: nat, hi: nat)
    requires lo <= hi < |rows|
    ensures Weight(rows, lo, hi + 1) == Weight(rows, lo, hi) + rows[hi].weight
    ensures PositiveWeight(rows, lo, hi + 1)
            == PositiveWeight(rows, lo, hi) + if rows[hi].outcome then rows[hi].weight else 0.0
  {}

  lemma {:induction false} SegmentNear(rows: seq<Row>, lo: nat, hi: nat, p: nat, y: nat, b: nat, c: nat)
    requires lo <= hi <= |rows| && rows != [] && LateRise(rows, p, y, b, c)
    ensures var rs, slack := Reweighted(rows, Exposing(|rows|, p, y, b, c)),
                             Times((hi - lo) as real, Ratio(1.0, 20.0 * |rows| as real));
            && Heavy(lo, hi, p, y, b, c) <= Weight(rs, lo, hi) <= Heavy(lo, hi, p, y, b, c) + slack
            && HeavyPositive(lo, hi, p, c) <= PositiveWeight(rs, lo, hi) <= HeavyPositive(lo, hi, p, c) + slack
  {
    hide Times, Ratio, Heavy, HeavyPositive, Load, LateRise, Exposing, Reweighted;
    var e := Ratio(1.0, 20.0 * |rows| as real);
    if lo == hi {
      TimesDistributes(0.0, 0.0, e);
      EmptySegment(lo, p, y, b, c);
    } else {
      hide Weight, PositiveWeight;
      var k := hi - 1;
      SegmentNear(rows, lo, k, p, y, b, c);
      HeavyStep(rows, lo, k, p, y, b, c);
      SegmentStep(Reweighted(rows, Exposing(|rows|, p, y, b, c)), lo, k);
      TimesDistributes((k - lo) as real, 1.0, e);
      UnitProduct(e);
      EpsilonPositive(|rows|);
    }
  }

  lemma EmptySegment(lo: nat, p: nat, y: nat, b: nat, c: nat)
    ensures Heavy(lo, lo, p, y, b, c) == HeavyPositive(lo, lo, p, c) == 0.0
  {}

  lemma EpsilonPositive(n: nat)
    requires n > 0
    ensures Ratio(1.0, 20.0 * n as real) > 0.0
  {}

  lemma SlackSmall(k: nat, n: nat)
    requires k <= n && n > 0
    ensures Times(k as real, Ratio(1.0, 20.0 * n as real)) <= 0.05
  {
    var e := 1.0 / (20.0 * n as real);
    assert n as real * e == 0.05;
    ProductNonNegative(n as real - k as real, e);
  }

  /** Up to a twentieth, a segment weighs what its loads weigh. */
  lemma SegmentWeighs(rows: seq<Row>, lo: nat, hi: nat, p: nat, y: nat, b: nat, c: nat)
    requires lo <= hi <= |rows| && rows != [] && LateRise(rows, p, y, b, c)
    ensures var rs := Reweighted(rows, Exposing(|rows|, p, y, b, c));
            && Heavy(lo, hi, p, y, b, c) <= Weight(rs, lo, hi) <= Heavy(lo, hi, p, y, b, c) + 0.05
            && HeavyPositive(lo, hi, p, c) <= PositiveWeight(rs, lo, hi) <= HeavyPositive(lo, hi, p, c) + 0.05
  {
    hide Times, Ratio, Heavy, HeavyPositive, Weight, PositiveWeight;
    SegmentNear(rows, lo, hi, p, y, b, c);
    SlackSmall(hi - lo, |rows|);
  }

  lemma MeanBelow(rows: seq<Row>, m: real, lo: nat, hi: nat)
    requires Positive(rows) && lo < hi <= |rows| && PositiveWeight(rows, lo, hi) < Times(m, Weight(rows, lo, hi))
    ensures Mean(rows, lo, hi) < m
  {
    hide Mean;
    ExcessSign(rows, m, lo, hi);
  }

  lemma MeanAtLeast(rows: seq<Row>, m: real, lo: nat, hi: nat)
    requires Positive(rows) && lo < hi <= |rows| && Times(m, Weight(rows, lo, hi)) <= PositiveWeight(rows, lo, hi)
    ensures m <= Mean(rows, lo, hi)
  {
    hide Mean;
    ExcessSign(rows, m, lo, hi);
  }

  /** Holding the early positive but neither late row, a segment averages well above the late negative alone. */
  lemma EarlyIsHigh(rows: seq<Row>, lo: nat, hi: nat, p: nat, y: nat, b: nat, c: nat)
    requires LateRise(rows, p, y, b, c) && lo <= p < hi <= b
    ensures var rs := Reweighted(rows, Exposing(|rows|, p, y, b, c)); Positive(rs) && 0.4 <= Mean(rs, lo, hi)
  {
    hide Mean, Weight, PositiveWeight, Exposing;
    SegmentWeighs(rows, lo, hi, p, y, b, c);
    MeanAtLeast(Reweighted(rows, Exposing(|rows|, p, y, b, c)), 0.4, lo, hi);
  }

  lemma LateIsLow(rows: seq<Row>, lo: nat, p: nat, y: nat, b: nat, c: nat)
    requires LateRise(rows, p, y, b, c) && p < lo <= b
    ensures var rs := Reweighted(rows, Exposing(|rows|, p, y, b, c)); Positive(rs) && Mean(rs, lo, b + 1) < 0.1
  {
    hide Mean, Weight, PositiveWeight, Exposing;
    SegmentWeighs(rows, lo, b + 1, p, y, b, c);
    MeanBelow(Reweighted(rows, Exposing(|rows|, p, y, b, c)), 0.1, lo, b + 1);
  }

  /** The early pair averages to about a half, all four loads to five sixths. */
  lemma PairBelowAll(rows: seq<Row>, s: nat, q: nat, e: nat, p: nat, y: nat, b: nat, c: nat)
    requires LateRise(rows, p, y, b, c) && s <= p < q && s <= y < q <= b && c < e <= |rows|
    ensures var rs := Reweighted(rows, Exposing(|rows|, p, y, b, c));
            Positive(rs) && Mean(rs, s, q) < 0.6 && 0.7 <= Mean(rs, s, e)
  {
    hide Mean, Weight, PositiveWeight, Exposing;
    var rs := Reweighted(rows, Exposing(|rows|, p, y, b, c));
    SegmentWeighs(rows, s, q, p, y, b, c);
    MeanBelow(rs, 0.6, s, q);
    SegmentWeighs(rows, s, e, p, y, b, c);
    MeanAtLeast(rs, 0.7, s, e);
  }

  /** A cut separates strictly smaller logits from larger ones. */
  lemma CutSeparates(rows: seq<Row>, cuts: seq<nat>, n: nat, k: nat, x: nat, z: nat)
    requires Ordered(rows) && IsCuts(rows, cuts, n) && k < |cuts| && x < cuts[k] <= z < |rows|
    ensures rows[x].logit < rows[z].logit
  {
    var s := cuts[k];
    assert Boundary(rows, s);
    assert rows[x].logit <= rows[s - 1].logit <= rows[s].logit <= rows[z].logit;
  }

  /** Right after the late negative, its block reaches back over the early pair. */
  lemma LateNegativeReachesBack(rows: seq<Row>, p: nat, y: nat, b: nat, c: nat)
    requires Ordered(rows) && LateRise(rows, p, y, b, c)
    ensures var rs := Reweighted(rows, Exposing(|rows|, p, y, b, c));
            Positive(rs) && var cuts := PoolCuts(rs, b + 1); cuts[|cuts| - 1] <= p && cuts[|cuts| - 1] <= y
  {
    hide Mean, PoolCuts, MeansOrdered, Exposing;
    var rs := Reweighted(rows, Exposing(|rows|, p, y, b, c));
    var n := b + 1;
    var cuts := PoolCuts(rs, n);
    var last := |cuts| - 1;
    assert p < b && y < b;
    PoolOrders(rs, n);
    var i := BlockOf(rs, cuts, n, p);
    if i < last {
      BlocksRise(rs, cuts, n, i, last);
      EarlyIsHigh(rows, cuts[i], End(cuts, i, n), p, y, b, c);
      LateIsLow(rows, cuts[last], p, y, b, c);
    }
    NotCutOff(rs, cuts, n, p, y);
  }

  lemma NotCutOff(rows: seq<Row>, cuts: seq<nat>, n: nat, p: nat, y: nat)
    requires Ordered(rows) && IsCuts(rows, cuts, n) && n > 0 && p < |rows| && y < |rows|
    requires cuts[|cuts| - 1] <= p && rows[p].logit <= rows[y].logit
    ensures cuts[|cuts| - 1] <= y
  {
    var k: nat := |cuts| - 1;
    if y < cuts[k] { CutSeparates(rows, cuts, n, k, y, p); }
  }

  /** So when the late positive has joined, the block hides a low prefix, and pooling is beaten. */
  lemma LateRiseExposed(rows: seq<Row>, p: nat, y: nat, b: nat, c: nat)
    requires Ordered(rows) && LateRise(rows, p, y, b, c)
    ensures var rs := Reweighted(rows, Exposing(|rows|, p, y, b, c));
            Positive(rs) && !Optimal(rs, Fitted(rs, PoolCuts(rs, |rs|), |rs|), |rs|)
  {
    hide Mean, PoolCuts, Optimal, Fitted, Exposing, IsCuts, PrefixesAbove;
    var rs := Reweighted(rows, Exposing(|rows|, p, y, b, c));
    var n := |rs|;
    LateNegativeReachesBack(rows, p, y, b, c);
    var cuts := PoolCuts(rs, n);
    var i := BlockOf(rs, cuts, n, c);
    FinalBlockReachesBack(rs, cuts, n, i, b, c);
    var q := LogitStart(rs, y, b);
    assert p < q by { assert rs[p].logit < rs[q].logit; }
    BlockWithin(rs, cuts, n, i);
    PairBelowAll(rows, cuts[i], q, End(cuts, i, n), p, y, b, c);
    LowPrefix(rs, cuts[i], q, End(cuts, i, n));
    PoolingOptimalIff(rs);
  }

  lemma BlockWithin(rows: seq<Row>, cuts: seq<nat>, n: nat, i: nat)
    requires IsCuts(rows, cuts, n) && i < |cuts|
    ensures cuts[i] < End(cuts, i, n) <= n <= |rows|
  {}

  lemma LowPrefix(rows: seq<Row>, lo: nat, q: nat, hi: nat)
    requires Positive(rows) && lo < q < hi <= |rows| && Boundary(rows, q) && Mean(rows, lo, q) < Mean(rows, lo, hi)
    ensures !PrefixesAbove(rows, lo, hi)
  {}

  /** Where the run of `b`'s logit begins, above row `y`. */
  lemma LogitStart(rows: seq<Row>, y: nat, b: nat) returns (q: nat)
    requires Ordered(rows) && y < b < |rows| && rows[y].logit < rows[b].logit
    ensures y < q <= b && Boundary(rows, q) && rows[q].logit == rows[b].logit
  {
    q := b;
    while rows[q - 1].logit == rows[b].logit
      invariant y < q <= b && rows[q].logit == rows[b].logit
      decreases q
    {
      q := q - 1;
    }
  }

  lemma FinalBlockReachesBack(rows: seq<Row>, cuts: seq<nat>, n: nat, i: nat, b: nat, c: nat)
    requires Positive(rows) && Ordered(rows) && n == |rows| && cuts == PoolCuts(rows, n) && i < |cuts|
    requires b < c < n && rows[b].logit == rows[c].logit && cuts[i] <= c < End(cuts, i, n)
    ensures var early := PoolCuts(rows, b + 1); early != [] && cuts[i] <= early[|early| - 1]
  {
    hide PoolCuts;
    if b < cuts[i] { CutSeparates(rows, cuts, n, i, b, c); }
    CutsOnlyDisappear(rows, b + 1, n, cuts[i]);
  }

  /** Pooling is the least-squares fit under every weighting exactly when logits and outcomes show no late rise. */
  lemma OptimalUnderAllWeightsIff(rows: seq<Row>)
    requires Ordered(rows)
    ensures (forall ws: seq<real> :: |ws| == |rows| && Positive(Reweighted(rows, ws)) ==>
               var rs := Reweighted(rows, ws);
               Optimal(rs, Fitted(rs, PoolCuts(rs, |rs|), |rs|), |rs|))
            <==> NoLateRise(rows)
  {
    hide Optimal, Fitted, PoolCuts, Exposing;
    if NoLateRise(rows) {
      forall ws: seq<real> | |ws| == |rows| && Positive(Reweighted(rows, ws))
        ensures var rs := Reweighted(rows, ws); Optimal(rs, Fitted(rs, PoolCuts(rs, |rs|), |rs|), |rs|)
      {
        SamePattern(rows, Reweighted(rows, ws));
        PoolingOptimal(Reweighted(rows, ws));
      }
    } else {
      var p, y, b, c :| LateRise(rows, p, y, b, c);
      LateRiseExposed(rows, p, y, b, c);
    }
  }

  lemma SamePattern(rows: seq<Row>, rs: seq<Row>)
    requires |rows| == |rs| && forall i :: 0 <= i < |rows| ==> rs[i] == rows[i].(weight := rs[i].weight)
    requires Ordered(rows) && NoLateRise(rows)
    ensures Ordered(rs) && NoLateRise(rs)
  {
    forall p, y, b, c ensures !LateRise(rs, p, y, b, c) {
      assert !LateRise(rows, p, y, b, c);
    }
  }
}
