/**
 Which inputs the tie rule is safe on. A row that repeats the last logit joins a
 block that may already reach below that logit. That only hurts when it can raise
 the block again and the part of the block below that logit is not all positive.
 */
module PavTies {
  import opened RealSums
  import opened Pav
  import opened PavOptimality

  /** A negative `b` and later a positive `c` at one logit, above a positive `p` whose logit a negative `y` reaches. */
  ghost predicate LateRise(rows: seq<Row>, p: nat, y: nat, b: nat, c: nat) {
    && p < |rows| && y < |rows| && b < c < |rows|
    && rows[p].logit <= rows[y].logit < rows[b].logit == rows[c].logit
    && rows[p].outcome && !rows[y].outcome && !rows[b].outcome && rows[c].outcome
  }

  ghost predicate NoLateRise(rows: seq<Row>) { forall p, y, b, c :: !LateRise(rows, p, y, b, c) }

  ghost predicate DistinctLogits(rows: seq<Row>) {
    forall i, j :: 0 <= i < j < |rows| ==> rows[i].logit != rows[j].logit
  }

  /** Inside each run of equal logits the positives come first. */
  ghost predicate PositivesFirst(rows: seq<Row>) {
    forall i, j :: 0 <= i < j < |rows| && rows[i].logit == rows[j].logit && rows[j].outcome ==> rows[i].outcome
  }

  lemma UsualInputsHaveNoLateRise(rows: seq<Row>)
    ensures DistinctLogits(rows) || PositivesFirst(rows) ==> NoLateRise(rows)
  {}

  ghost predicate AllPositive(rows: seq<Row>, lo: nat, hi: nat)
    requires hi <= |rows|
  {
    forall i :: lo <= i < hi ==> rows[i].outcome
  }

  /** Among the first `q` rows every negative lies strictly below every positive. */
  ghost predicate Split(rows: seq<Row>, q: nat)
    requires q <= |rows|
  {
    forall x, y :: 0 <= x < q && 0 <= y < q && rows[x].outcome && !rows[y].outcome ==> rows[y].logit < rows[x].logit
  }

  /** Where the rows before a logit are split, a block that reaches across its start is positive up to it. */
  ghost predicate PureBefore(rows: seq<Row>, lo: nat, hi: nat)
    requires hi <= |rows|
  {
    forall q :: lo < q < hi && Boundary(rows, q) && Split(rows, q) ==> AllPositive(rows, lo, q)
  }

  ghost predicate AllPureBefore(rows: seq<Row>, cuts: seq<nat>, n: nat)
    requires IsCuts(rows, cuts, n)
  {
    forall i :: 0 <= i < |cuts| ==> PureBefore(rows, cuts[i], End(cuts, i, n))
  }

  // ----- Order of means -----

  lemma ExcessMonotone(rows: seq<Row>, a: real, b: real, lo: nat, hi: nat)
    requires Positive(rows) && lo <= hi <= |rows| && a <= b
    ensures Excess(rows, a, lo, hi) <= Excess(rows, b, lo, hi)
  {
    hide Times, Weight, PositiveWeight;
    WeightBounds(rows, lo, hi);
    ProductNonNegative(b - a, Weight(rows, lo, hi));
    TimesDistributes(a, b - a, Weight(rows, lo, hi));
  }

  /** The mean of two neighbours lies between theirs. */
  lemma MergedMean(rows: seq<Row>, p: nat, c: nat, n: nat)
    requires Positive(rows) && p < c < n <= |rows| && Mean(rows, p, c) >= Mean(rows, c, n)
    ensures Mean(rows, p, c) >= Mean(rows, p, n) >= Mean(rows, c, n)
  {
    hide Mean, Excess;
    var m := Mean(rows, p, n);
    ExcessSplit(rows, m, p, c, n);
    ExcessSign(rows, m, p, n);
    ExcessSign(rows, m, p, c);
    ExcessSign(rows, m, c, n);
  }

  /** Merging two blocks without low prefixes, the left one higher, hides none either. */
  lemma MergeKeepsPrefixes(rows: seq<Row>, p: nat, c: nat, n: nat)
    requires Positive(rows) && p < c < n <= |rows|
    requires PrefixesAbove(rows, p, c) && PrefixesAbove(rows, c, n)
    requires Mean(rows, p, c) > Mean(rows, c, n)
    ensures PrefixesAbove(rows, p, n)
  {
    hide Mean, Excess;
    var whole, right := Mean(rows, p, n), Mean(rows, c, n);
    MergedMean(rows, p, c, n);
    forall k | p < k < n && Boundary(rows, k) ensures Mean(rows, p, k) >= whole {
      if k > c {
        ExcessSign(rows, right, c, k);
        ExcessSign(rows, right, c, n);
        ExcessSplit(rows, right, c, k, n);
        ExcessMonotone(rows, right, whole, k, n);
        ExcessSign(rows, whole, p, n);
        ExcessSplit(rows, whole, p, k, n);
        ExcessSign(rows, whole, p, k);
      }
    }
  }

  lemma {:induction false} NegativesHaveNoWeight(rows: seq<Row>, lo: nat, hi: nat)
    requires lo <= hi <= |rows| && forall i :: lo <= i < hi ==> !rows[i].outcome
    ensures PositiveWeight(rows, lo, hi) == 0.0
  {
    if lo < hi { NegativesHaveNoWeight(rows, lo, hi - 1); }
  }

  lemma NegativeMean(rows: seq<Row>, lo: nat, hi: nat)
    requires Positive(rows) && lo < hi <= |rows| && forall i :: lo <= i < hi ==> !rows[i].outcome
    ensures Mean(rows, lo, hi) == 0.0
  {
    hide Mean;
    NegativesHaveNoWeight(rows, lo, hi);
    ExcessSign(rows, 0.0, lo, hi);
  }

  lemma {:induction false} FirstPositive(rows: seq<Row>, lo: nat, hi: nat) returns (x: nat)
    requires lo <= hi <= |rows|
    ensures lo <= x <= hi && (x < hi ==> rows[x].outcome) && forall i :: lo <= i < x ==> !rows[i].outcome
    decreases hi - lo
  {
    if lo == hi || rows[lo].outcome {
      x := lo;
    } else {
      x := FirstPositive(rows, lo + 1, hi);
    }
  }

  /** Leading negatives below a positive are a low prefix. */
  lemma LeadingNegatives(rows: seq<Row>, p: nat, x: nat, c: nat)
    requires Positive(rows) && Ordered(rows) && p < x <= c <= |rows| && Split(rows, c)
    requires (x < c ==> rows[x].outcome) && forall i :: p <= i < x ==> !rows[i].outcome
    ensures Mean(rows, p, c) <= 0.0 || !PrefixesAbove(rows, p, c)
  {
    hide Mean;
    NegativeMean(rows, p, x);
    if x < c {
      assert rows[x - 1].logit < rows[x].logit;
      assert Boundary(rows, x);
      assert PrefixesAbove(rows, p, c) ==> Mean(rows, p, x) >= Mean(rows, p, c);
    }
  }

  /** A block with a positive, split and hiding no low prefix, has nothing but positives. */
  lemma SplitBlockIsPositive(rows: seq<Row>, p: nat, c: nat)
    requires Positive(rows) && Ordered(rows) && p < c <= |rows| && Split(rows, c)
    requires PrefixesAbove(rows, p, c) && Mean(rows, p, c) > 0.0
    ensures AllPositive(rows, p, c)
  {
    hide Mean, PrefixesAbove;
    var x := FirstPositive(rows, p, c);
    if x > p { LeadingNegatives(rows, p, x, c); }
    forall i | p <= i < c ensures rows[i].outcome {
      assert rows[p].logit <= rows[i].logit;
    }
  }

  /** Merging a violating pair keeps positives before every split logit. */
  lemma MergeKeepsPure(rows: seq<Row>, p: nat, c: nat, n: nat)
    requires Positive(rows) && Ordered(rows) && p < c < n <= |rows|
    requires PrefixesAbove(rows, p, c) && Mean(rows, p, c) > Mean(rows, c, n)
    requires PureBefore(rows, p, c) && PureBefore(rows, c, n)
    ensures PureBefore(rows, p, n)
  {
    hide Mean, PrefixesAbove, AllPositive;
    ExcessSign(rows, 0.0, c, n);
    forall q | p < q < n && Boundary(rows, q) && Split(rows, q) ensures AllPositive(rows, p, q) {
      if q >= c {
        assert Split(rows, c);
        SplitBlockIsPositive(rows, p, c);
        if q > c { PositiveConcat(rows, p, c, q); }
      }
    }
  }

  lemma PositiveConcat(rows: seq<Row>, p: nat, c: nat, q: nat)
    requires p <= c <= q <= |rows| && AllPositive(rows, p, c) && AllPositive(rows, c, q)
    ensures AllPositive(rows, p, q)
  {}

  /** Dropping the last cut of a violating pair keeps both invariants. */
  lemma MergeKeepsCuts(rows: seq<Row>, cuts: seq<nat>, n: nat)
    requires Positive(rows) && Ordered(rows) && IsCuts(rows, cuts, n) && |cuts| >= 2
    requires AllPrefixesAbove(rows, cuts, n) && AllPureBefore(rows, cuts, n)
    requires Mean(rows, cuts[|cuts| - 2], cuts[|cuts| - 1]) > Mean(rows, cuts[|cuts| - 1], n)
    ensures IsCuts(rows, cuts[..|cuts| - 1], n)
    ensures AllPrefixesAbove(rows, cuts[..|cuts| - 1], n)
    ensures AllPureBefore(rows, cuts[..|cuts| - 1], n)
  {
    hide Mean, AllPrefixesAbove, AllPureBefore, IsCuts, Ordered;
    DropLastCut(rows, cuts, n);
    DropKeepsPrefixes(rows, cuts, n);
    DropKeepsPure(rows, cuts, n);
  }

  lemma DropLastCut(rows: seq<Row>, cuts: seq<nat>, n: nat)
    requires IsCuts(rows, cuts, n) && |cuts| >= 2
    ensures IsCuts(rows, cuts[..|cuts| - 1], n)
    ensures cuts[|cuts| - 2] < cuts[|cuts| - 1] < n
  {}

  lemma DropKeepsPrefixes(rows: seq<Row>, cuts: seq<nat>, n: nat)
    requires Positive(rows) && IsCuts(rows, cuts, n) && |cuts| >= 2 && AllPrefixesAbove(rows, cuts, n)
    requires Mean(rows, cuts[|cuts| - 2], cuts[|cuts| - 1]) > Mean(rows, cuts[|cuts| - 1], n)
    requires IsCuts(rows, cuts[..|cuts| - 1], n)
    ensures AllPrefixesAbove(rows, cuts[..|cuts| - 1], n)
  {
    hide Mean, PrefixesAbove, Boundary;
    var k := |cuts| - 1;
    var next := cuts[..k];
    assert PrefixesAbove(rows, cuts[k - 1], End(cuts, k - 1, n));
    assert PrefixesAbove(rows, cuts[k], End(cuts, k, n));
    MergeKeepsPrefixes(rows, cuts[k - 1], cuts[k], n);
    forall i | 0 <= i < |next| ensures PrefixesAbove(rows, next[i], End(next, i, n)) {
      assert PrefixesAbove(rows, cuts[i], End(cuts, i, n));
    }
  }

  lemma DropKeepsPure(rows: seq<Row>, cuts: seq<nat>, n: nat)
    requires Positive(rows) && Ordered(rows) && IsCuts(rows, cuts, n) && |cuts| >= 2
    requires AllPrefixesAbove(rows, cuts, n) && AllPureBefore(rows, cuts, n)
    requires Mean(rows, cuts[|cuts| - 2], cuts[|cuts| - 1]) > Mean(rows, cuts[|cuts| - 1], n)
    requires IsCuts(rows, cuts[..|cuts| - 1], n)
    ensures AllPureBefore(rows, cuts[..|cuts| - 1], n)
  {
    hide Mean, PrefixesAbove, PureBefore, Boundary, Ordered;
    var k := |cuts| - 1;
    var next := cuts[..k];
    assert PrefixesAbove(rows, cuts[k - 1], End(cuts, k - 1, n));
    assert PureBefore(rows, cuts[k - 1], End(cuts, k - 1, n));
    assert PureBefore(rows, cuts[k], End(cuts, k, n));
    MergeKeepsPure(rows, cuts[k - 1], cuts[k], n);
    forall i | 0 <= i < |next| ensures PureBefore(rows, next[i], End(next, i, n)) {
      assert PureBefore(rows, cuts[i], End(cuts, i, n));
    }
  }

  lemma {:induction false} SettleKeepsPrefixes(rows: seq<Row>, cuts: seq<nat>, n: nat)
    requires Positive(rows) && Ordered(rows) && IsCuts(rows, cuts, n)
    requires AllPrefixesAbove(rows, cuts, n) && AllPureBefore(rows, cuts, n)
    ensures AllPrefixesAbove(rows, Settle(rows, cuts, n), n)
    ensures AllPureBefore(rows, Settle(rows, cuts, n), n)
    decreases |cuts|
  {
    hide Mean, AllPrefixesAbove, AllPureBefore, Ordered;
    var k := |cuts| - 1;
    if k >= 1 && Mean(rows, cuts[k - 1], cuts[k]) > Mean(rows, cuts[k], n) {
      MergeKeepsCuts(rows, cuts, n);
      SettleKeepsPrefixes(rows, cuts[..k], n);
    }
  }

  // ----- The tie rule -----

  /** A joining negative can only lower the block. */
  lemma NegativeJoins(rows: seq<Row>, a: nat, n: nat)
    requires Positive(rows) && a < n < |rows| && !rows[n].outcome && !Boundary(rows, n)
    requires PrefixesAbove(rows, a, n)
    ensures PrefixesAbove(rows, a, n + 1)
  {
    hide Mean, Excess;
    assert Mean(rows, n, n + 1) == 0.0 by {
      SingleMean(rows, n);
    }
    ExcessSign(rows, 0.0, a, n);
    MergedMean(rows, a, n, n + 1);
  }

  lemma SingleMean(rows: seq<Row>, n: nat)
    requires Positive(rows) && n < |rows|
    ensures Mean(rows, n, n + 1) == Target(rows[n])
  {
    hide Mean;
    assert Weight(rows, n, n) == 0.0 && PositiveWeight(rows, n, n) == 0.0;
    ExcessSign(rows, Target(rows[n]), n, n + 1);
  }

  lemma {:induction false} PositivesHaveFullWeight(rows: seq<Row>, lo: nat, hi: nat)
    requires lo <= hi <= |rows| && forall i :: lo <= i < hi ==> rows[i].outcome
    ensures PositiveWeight(rows, lo, hi) == Weight(rows, lo, hi)
  {
    if lo < hi { PositivesHaveFullWeight(rows, lo, hi - 1); }
  }

  /** A block that ends in positives and hides no low prefix is all positive. */
  lemma PositiveTailIsWhole(rows: seq<Row>, a: nat, q: nat, n: nat)
    requires Positive(rows) && a < q < n <= |rows|
    requires Mean(rows, a, q) >= Mean(rows, a, n) && forall i :: q <= i < n ==> rows[i].outcome
    ensures PositiveWeight(rows, a, n) == Weight(rows, a, n)
  {
    hide Mean, Excess;
    var m := Mean(rows, a, n);
    PositivesHaveFullWeight(rows, q, n);
    FullMean(rows, q, n);
    ExcessSign(rows, m, a, q);
    ExcessSign(rows, m, a, n);
    ExcessSplit(rows, m, a, q, n);
    ExcessSign(rows, m, q, n);
    FullMean(rows, a, n);
  }

  lemma FullMean(rows: seq<Row>, lo: nat, hi: nat)
    requires Positive(rows) && lo < hi <= |rows|
    ensures Mean(rows, lo, hi) == 1.0 <==> PositiveWeight(rows, lo, hi) == Weight(rows, lo, hi)
    ensures Mean(rows, lo, hi) <= 1.0
  {
    ExcessSign(rows, 1.0, lo, hi);
  }

  lemma FullPrefix(rows: seq<Row>, lo: nat, k: nat, hi: nat)
    requires Positive(rows) && lo < k <= hi <= |rows| && PositiveWeight(rows, lo, hi) == Weight(rows, lo, hi)
    ensures Mean(rows, lo, k) == 1.0
  {
    hide Mean;
    WeightSplit(rows, lo, k, hi);
    WeightBounds(rows, lo, k);
    WeightBounds(rows, k, hi);
    FullMean(rows, lo, k);
  }

  /** The start of the run of equal logits that row `n` extends. */
  lemma {:induction false} RunStart(rows: seq<Row>, a: nat, n: nat) returns (q: nat)
    requires a < n < |rows| && !Boundary(rows, n)
    ensures a <= q < n && (q > a ==> Boundary(rows, q))
    ensures forall i :: q <= i <= n ==> rows[i].logit == rows[n].logit
  {
    q := n - 1;
    while q > a && !Boundary(rows, q)
      invariant a <= q < n
      invariant forall i :: q <= i <= n ==> rows[i].logit == rows[n].logit
    {
      q := q - 1;
    }
  }

  /** A negative before a positive in one run of ties leaves the rows below that logit split. */
  lemma SplitBelow(rows: seq<Row>, q: nat, j: nat, n: nat)
    requires Ordered(rows) && NoLateRise(rows) && 0 < q <= j < n < |rows| && Boundary(rows, q)
    requires rows[q].logit == rows[j].logit == rows[n].logit && !rows[j].outcome && rows[n].outcome
    ensures Split(rows, q)
  {
    forall x, y | 0 <= x < q && 0 <= y < q && rows[x].outcome && !rows[y].outcome
      ensures rows[y].logit < rows[x].logit
    {
      assert rows[y].logit <= rows[q - 1].logit < rows[q].logit;
      assert !LateRise(rows, x, y, j, n);
    }
  }

  /** Without a late rise, a joining positive finds its own logit alone, a block of positives, or positives below. */
  lemma PositiveJoins(rows: seq<Row>, a: nat, n: nat)
    requires Positive(rows) && Ordered(rows) && NoLateRise(rows) && a < n < |rows|
    requires rows[n].outcome && !Boundary(rows, n)
    requires PureBefore(rows, a, n) && PrefixesAbove(rows, a, n)
    ensures PrefixesAbove(rows, a, n + 1)
  {
    hide Mean, NoLateRise, Ordered;
    var q := RunStart(rows, a, n);
    if q == a {
      assert forall k :: a < k < n + 1 ==> !Boundary(rows, k);
    } else if j :| q <= j < n && !rows[j].outcome {
      SplitBelow(rows, q, j, n);
      PositivePrefixes(rows, a, q, n + 1);
    } else {
      PositiveTailIsWhole(rows, a, q, n);
      WeightSplit(rows, a, n, n + 1);
      FullPrefix(rows, a, n + 1, n + 1);
      forall k | a < k < n + 1 ensures Mean(rows, a, k) >= Mean(rows, a, n + 1) {
        FullPrefix(rows, a, k, n + 1);
      }
    }
  }

  /** A block whose logits before the last are all positive hides no low prefix. */
  lemma PositivePrefixes(rows: seq<Row>, a: nat, q: nat, e: nat)
    requires Positive(rows) && a < q < e <= |rows| && AllPositive(rows, a, q)
    requires forall i :: q < i < e ==> !Boundary(rows, i)
    ensures PrefixesAbove(rows, a, e)
  {
    hide Mean;
    PositivesHaveFullWeight(rows, a, q);
    FullMean(rows, a, e);
    forall k | a < k < e && Boundary(rows, k) ensures Mean(rows, a, k) >= Mean(rows, a, e) {
      FullPrefix(rows, a, k, q);
    }
  }

  lemma PushKeepsPrefixes(rows: seq<Row>, cuts: seq<nat>, n: nat)
    requires Positive(rows) && Ordered(rows) && NoLateRise(rows) && IsCuts(rows, cuts, n) && n < |rows|
    requires AllPrefixesAbove(rows, cuts, n) && AllPureBefore(rows, cuts, n)
    ensures AllPrefixesAbove(rows, Push(rows, cuts, n), n + 1)
    ensures AllPureBefore(rows, Push(rows, cuts, n), n + 1)
  {
    hide AllPrefixesAbove, AllPureBefore, PureBefore, PrefixesAbove, NoLateRise, Ordered, Mean;
    if n > 0 && !Boundary(rows, n) {
      LastPrefixes(rows, cuts, n);
      if rows[n].outcome {
        PositiveJoins(rows, cuts[|cuts| - 1], n);
      } else {
        NegativeJoins(rows, cuts[|cuts| - 1], n);
      }
    } else {
      SinglePrefixes(rows, n);
    }
    NextPrefixes(rows, cuts, n);
    NextPure(rows, cuts, n);
  }

  lemma LastPrefixes(rows: seq<Row>, cuts: seq<nat>, n: nat)
    requires Positive(rows) && IsCuts(rows, cuts, n) && n > 0
    requires AllPrefixesAbove(rows, cuts, n) && AllPureBefore(rows, cuts, n)
    ensures PrefixesAbove(rows, cuts[|cuts| - 1], n) && PureBefore(rows, cuts[|cuts| - 1], n)
  {
    hide PrefixesAbove, PureBefore, Mean;
    assert PrefixesAbove(rows, cuts[|cuts| - 1], End(cuts, |cuts| - 1, n));
    assert PureBefore(rows, cuts[|cuts| - 1], End(cuts, |cuts| - 1, n));
  }

  lemma NextPure(rows: seq<Row>, cuts: seq<nat>, n: nat)
    requires IsCuts(rows, cuts, n) && n < |rows| && AllPureBefore(rows, cuts, n)
    ensures AllPureBefore(rows, Push(rows, cuts, n), n + 1)
  {
    hide AllPositive, Split;
    var next := Push(rows, cuts, n);
    forall i | 0 <= i < |next| ensures PureBefore(rows, next[i], End(next, i, n + 1)) {
      if next[i] < n {
        assert PureBefore(rows, cuts[i], End(cuts, i, n));
        assert i < |next| - 1 ==> End(next, i, n + 1) == End(cuts, i, n);
      }
    }
  }

  lemma NextPrefixes(rows: seq<Row>, cuts: seq<nat>, n: nat)
    requires Positive(rows) && IsCuts(rows, cuts, n) && n < |rows| && AllPrefixesAbove(rows, cuts, n)
    requires var next := Push(rows, cuts, n); PrefixesAbove(rows, next[|next| - 1], n + 1)
    ensures AllPrefixesAbove(rows, Push(rows, cuts, n), n + 1)
  {
    hide PrefixesAbove, Mean;
    var next := Push(rows, cuts, n);
    forall i | 0 <= i < |next| ensures PrefixesAbove(rows, next[i], End(next, i, n + 1)) {
      if i < |next| - 1 {
        assert End(next, i, n + 1) == End(cuts, i, n);
        assert PrefixesAbove(rows, cuts[i], End(cuts, i, n));
      }
    }
  }

  lemma SinglePrefixes(rows: seq<Row>, n: nat)
    requires Positive(rows) && n < |rows|
    ensures PrefixesAbove(rows, n, n + 1)
  {}

  lemma {:induction false} PoolKeepsPrefixes(rows: seq<Row>, n: nat)
    requires Positive(rows) && Ordered(rows) && NoLateRise(rows) && n <= |rows|
    ensures AllPrefixesAbove(rows, PoolCuts(rows, n), n)
    ensures AllPureBefore(rows, PoolCuts(rows, n), n)
  {
    hide AllPrefixesAbove, AllPureBefore, NoLateRise, Push, Settle, Ordered;
    if n == 0 {
      NothingPooled(rows);
    } else {
      PoolKeepsPrefixes(rows, n - 1);
      var before := PoolCuts(rows, n - 1);
      PushKeepsPrefixes(rows, before, n - 1);
      SettleKeepsPrefixes(rows, Push(rows, before, n - 1), n);
    }
  }

  lemma NothingPooled(rows: seq<Row>)
    requires Positive(rows)
    ensures AllPrefixesAbove(rows, [], 0) && AllPureBefore(rows, [], 0)
  {}

  /** Pooling is the least-squares fit whenever no run of ties rises late. */
  lemma PoolingOptimal(rows: seq<Row>)
    requires Positive(rows) && Ordered(rows) && NoLateRise(rows)
    ensures Optimal(rows, Fitted(rows, PoolCuts(rows, |rows|), |rows|), |rows|)
  {
    hide AllPrefixesAbove, MeansOrdered, Optimal, Fitted;
    var cuts := PoolCuts(rows, |rows|);
    PoolOrders(rows, |rows|);
    PoolKeepsPrefixes(rows, |rows|);
    OptimalIffPrefixesAbove(rows, cuts, |rows|);
  }

  /** And in general exactly when no pooled block hides a low prefix. */
  lemma PoolingOptimalIff(rows: seq<Row>)
    requires Positive(rows)
    ensures var cuts := PoolCuts(rows, |rows|);
            Optimal(rows, Fitted(rows, cuts, |rows|), |rows|) <==> AllPrefixesAbove(rows, cuts, |rows|)
  {
    hide AllPrefixesAbove, MeansOrdered, Optimal, Fitted;
    PoolOrders(rows, |rows|);
    OptimalIffPrefixesAbove(rows, PoolCuts(rows, |rows|), |rows|);
  }
}
