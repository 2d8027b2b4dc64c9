/**
 When the pooled block means are the weighted least-squares fit among all
 nondecreasing functions of the logit: exactly when, inside every block, each
 run of whole logits from the left has a mean no smaller than the block's.
 */
module PavOptimality {
  import opened RealSums
  import opened Pav

  /** The squared error of value `v` on a row. */
  function Loss(row: Row, v: real): (e: real) { Times(row.weight, Square(v - Target(row))) }

  function Error(rows: seq<Row>, g: seq<real>, lo: nat, hi: nat): (e: real)
    requires lo <= hi <= |g| <= |rows|
  {
    if lo == hi then 0.0 else Error(rows, g, lo, hi - 1) + Loss(rows[hi - 1], g[hi - 1])
  }

  /** The weighted squared distance between two assignments. */
  function Distance(rows: seq<Row>, f: seq<real>, g: seq<real>, lo: nat, hi: nat): (e: real)
    requires lo <= hi <= |g| == |f| <= |rows|
  {
    if lo == hi then 0.0
    else Distance(rows, f, g, lo, hi - 1)
         + Times(rows[hi - 1].weight, Square(g[hi - 1] - f[hi - 1]))
  }

  /** A nondecreasing function of the logit, given row by row. */
  ghost predicate Monotone(rows: seq<Row>, g: seq<real>, n: nat) {
    && |g| == n <= |rows|
    && forall k :: 0 < k < n ==> g[k - 1] <= g[k] && (!Boundary(rows, k) ==> g[k - 1] == g[k])
  }

  /** Least squares among all nondecreasing functions of the logit. */
  ghost predicate Optimal(rows: seq<Row>, f: seq<real>, n: nat) {
    && Monotone(rows, f, n)
    && forall g: seq<real> :: Monotone(rows, g, n) ==> Error(rows, f, 0, n) <= Error(rows, g, 0, n)
  }

  /** Every run of whole logits from the left end has a mean at least the block's. */
  ghost predicate PrefixesAbove(rows: seq<Row>, lo: nat, hi: nat)
    requires Positive(rows) && lo < hi <= |rows|
  {
    forall k :: lo < k < hi && Boundary(rows, k) ==> Mean(rows, lo, k) >= Mean(rows, lo, hi)
  }

  ghost predicate AllPrefixesAbove(rows: seq<Row>, cuts: seq<nat>, n: nat)
    requires Positive(rows) && IsCuts(rows, cuts, n)
  {
    forall i :: 0 <= i < |cuts| ==> PrefixesAbove(rows, cuts[i], End(cuts, i, n))
  }

  /** The fitted level of each row: the mean of its block. */
  function Fitted(rows: seq<Row>, cuts: seq<nat>, n: nat): (f: seq<real>)
    requires Positive(rows) && IsCuts(rows, cuts, n)
    ensures |f| == n
    decreases |cuts|
  {
    if n == 0 then []
    else
      var k := |cuts| - 1;
      Fitted(rows, cuts[..k], cuts[k]) + seq(n - cuts[k], _ => Mean(rows, cuts[k], n))
  }

  // ----- Sufficiency -----

  /** One row of Abel summation, in scalars. */
  lemma AbelStep(a: real, g0: real, g1: real, m: real, excess: real, w: real, y: real)
    requires a >= 2.0 * Times(g0 - m, excess)
    requires Times(g1 - g0, excess) <= 0.0
    ensures a + Times(w, Square(g1 - y)) - Times(w, Square(m - y)) - Times(w, Square(g1 - m))
            >= 2.0 * Times(g1 - m, excess + Times(w, m - y))
  {
    hide Times, Square;
    var u, t := g1 - m, m - y;
    assert g1 - y == u + t;
    SquareGap(w, u, t);
    TimesDistributes(g0 - m, g1 - g0, excess);
    assert (g0 - m) + (g1 - g0) == u;
    TimesOverSum(u, excess, Times(w, t));
  }

  lemma SquareGap(w: real, u: real, t: real)
    ensures Times(w, Square(u + t)) - Times(w, Square(t)) - Times(w, Square(u)) == 2.0 * Times(u, Times(w, t))
  {
    assert (u + t) * (u + t) == u * u + 2.0 * (u * t) + t * t;
    assert w * (u * u + 2.0 * (u * t) + t * t) == w * (u * u) + 2.0 * (u * (w * t)) + w * (t * t);
  }

  lemma ExcessStep(rows: seq<Row>, m: real, lo: nat, k: nat)
    requires lo <= k < |rows|
    ensures Excess(rows, m, lo, k + 1) == Excess(rows, m, lo, k) + Times(rows[k].weight, m - Target(rows[k]))
    ensures Excess(rows, m, lo, lo) == 0.0
  {}

  /** Against any competitor, a block at its own level loses nothing up to its last row's margin. */
  lemma {:induction false} SegmentGap(rows: seq<Row>, f: seq<real>, g: seq<real>, n: nat, m: real, lo: nat, k: nat)
    requires Positive(rows) && Monotone(rows, g, n) && |f| == n && lo < k <= n
    requires forall j :: lo <= j < k ==> f[j] == m
    requires forall j :: lo < j < k && Boundary(rows, j) ==> Excess(rows, m, lo, j) <= 0.0
    ensures Error(rows, g, lo, k) - Error(rows, f, lo, k) - Distance(rows, f, g, lo, k)
            >= 2.0 * Times(g[k - 1] - m, Excess(rows, m, lo, k))
  {
    hide Excess, Times, Square, Target;
    var j := k - 1;
    ExcessStep(rows, m, lo, j);
    if j == lo {
      MarginSign(g[j], g[j], 0.0);
      ZeroProduct(g[j] - m);
      AbelStep(0.0, g[j], g[j], m, 0.0, rows[j].weight, Target(rows[j]));
    } else {
      SegmentGap(rows, f, g, n, m, lo, j);
      MarginSign(g[j - 1], g[j], Excess(rows, m, lo, j));
      AbelStep(Error(rows, g, lo, j) - Error(rows, f, lo, j) - Distance(rows, f, g, lo, j),
               g[j - 1], g[j], m, Excess(rows, m, lo, j), rows[j].weight, Target(rows[j]));
    }
  }

  lemma MarginSign(g0: real, g1: real, e: real)
    requires g0 == g1 || (g0 <= g1 && e <= 0.0)
    ensures Times(g1 - g0, e) <= 0.0
  {}

  lemma {:induction false} ErrorSplit(rows: seq<Row>, f: seq<real>, g: seq<real>, lo: nat, mid: nat, hi: nat)
    requires lo <= mid <= hi <= |g| == |f| <= |rows|
    ensures Error(rows, g, lo, hi) == Error(rows, g, lo, mid) + Error(rows, g, mid, hi)
    ensures Distance(rows, f, g, lo, hi) == Distance(rows, f, g, lo, mid) + Distance(rows, f, g, mid, hi)
  {
    hide Loss, Times, Square;
    if mid < hi { ErrorSplit(rows, f, g, lo, mid, hi - 1); }
  }

  lemma CutsPrefix(rows: seq<Row>, cuts: seq<nat>, n: nat)
    requires IsCuts(rows, cuts, n) && n > 0
    ensures IsCuts(rows, cuts[..|cuts| - 1], cuts[|cuts| - 1])
  {}

  lemma {:induction false} FittedAt(rows: seq<Row>, cuts: seq<nat>, n: nat, i: nat, j: nat)
    requires Positive(rows) && IsCuts(rows, cuts, n) && i < |cuts| && cuts[i] <= j < End(cuts, i, n)
    ensures cuts[i] < End(cuts, i, n) <= n
    ensures Fitted(rows, cuts, n)[j] == Mean(rows, cuts[i], End(cuts, i, n))
    decreases |cuts|
  {
    hide Mean;
    var k := |cuts| - 1;
    if i < k {
      CutsPrefix(rows, cuts, n);
      assert End(cuts, i, n) == End(cuts[..k], i, cuts[k]);
      FittedAt(rows, cuts[..k], cuts[k], i, j);
    }
  }

  /** The competitor's error over a whole block, against the block at its own mean. */
  lemma BlockGap(rows: seq<Row>, cuts: seq<nat>, n: nat, g: seq<real>, i: nat)
    requires Positive(rows) && IsCuts(rows, cuts, n) && i < |cuts|
    requires Monotone(rows, g, n) && PrefixesAbove(rows, cuts[i], End(cuts, i, n))
    ensures var f, lo, hi := Fitted(rows, cuts, n), cuts[i], End(cuts, i, n);
            Error(rows, g, lo, hi) >= Error(rows, f, lo, hi) + Distance(rows, f, g, lo, hi)
  {
    hide Mean, Excess, Times, Error, Distance, Fitted;
    var f, lo, hi := Fitted(rows, cuts, n), cuts[i], End(cuts, i, n);
    var m := Mean(rows, lo, hi);
    forall j | lo <= j < hi ensures f[j] == m {
      FittedAt(rows, cuts, n, i, j);
    }
    forall j | lo < j < hi && Boundary(rows, j) ensures Excess(rows, m, lo, j) <= 0.0 {
      ExcessSign(rows, m, lo, j);
    }
    ExcessSign(rows, m, lo, hi);
    SegmentGap(rows, f, g, n, m, lo, hi);
    ZeroProduct(g[hi - 1] - m);
  }

  /** Where block `i` starts; the end of all blocks when there is no such block. */
  function Start(cuts: seq<nat>, i: nat, n: nat): (s: nat) { if i < |cuts| then cuts[i] else n }

  lemma {:induction false} PrefixGap(rows: seq<Row>, cuts: seq<nat>, n: nat, g: seq<real>, i: nat)
    requires Positive(rows) && IsCuts(rows, cuts, n) && i <= |cuts|
    requires Monotone(rows, g, n) && AllPrefixesAbove(rows, cuts, n)
    ensures Start(cuts, i, n) <= n
    ensures var f, e := Fitted(rows, cuts, n), Start(cuts, i, n);
            Error(rows, g, 0, e) >= Error(rows, f, 0, e) + Distance(rows, f, g, 0, e)
  {
    hide Mean, Fitted, PrefixesAbove, Loss;
    var f := Fitted(rows, cuts, n);
    if i > 0 {
      PrefixGap(rows, cuts, n, g, i - 1);
      BlockGap(rows, cuts, n, g, i - 1);
      var lo, hi := cuts[i - 1], End(cuts, i - 1, n);
      ErrorSplit(rows, f, g, 0, lo, hi);
      ErrorSplit(rows, f, f, 0, lo, hi);
    }
  }

  lemma FittedMonotone(rows: seq<Row>, cuts: seq<nat>, n: nat)
    requires Positive(rows) && IsCuts(rows, cuts, n) && MeansOrdered(rows, cuts, n)
    ensures Monotone(rows, Fitted(rows, cuts, n), n)
  {
    hide Mean, Fitted;
    var f := Fitted(rows, cuts, n);
    forall k | 0 < k < n ensures f[k - 1] <= f[k] && (!Boundary(rows, k) ==> f[k - 1] == f[k]) {
      var i := BlockOf(rows, cuts, n, k);
      FittedAt(rows, cuts, n, i, k);
      if cuts[i] < k {
        FittedAt(rows, cuts, n, i, k - 1);
      } else {
        FittedAt(rows, cuts, n, i - 1, k - 1);
      }
    }
  }

  lemma {:induction false} BlockOf(rows: seq<Row>, cuts: seq<nat>, n: nat, j: nat) returns (i: nat)
    requires IsCuts(rows, cuts, n) && j < n
    ensures i < |cuts| && cuts[i] <= j < End(cuts, i, n)
    decreases |cuts|
  {
    var k := |cuts| - 1;
    if j < cuts[k] {
      CutsPrefix(rows, cuts, n);
      i := BlockOf(rows, cuts[..k], cuts[k], j);
    } else {
      i := k;
    }
  }

  /** If no block hides a low prefix, the block means beat every competitor, strictly unless it is equal. */
  lemma PrefixesMakeOptimal(rows: seq<Row>, cuts: seq<nat>, n: nat, g: seq<real>)
    requires Positive(rows) && IsCuts(rows, cuts, n) && MeansOrdered(rows, cuts, n)
    requires AllPrefixesAbove(rows, cuts, n) && Monotone(rows, g, n)
    ensures var f := Fitted(rows, cuts, n);
            && Monotone(rows, f, n)
            && Error(rows, g, 0, n) >= Error(rows, f, 0, n) + Distance(rows, f, g, 0, n)
            && (g != f ==> Error(rows, g, 0, n) > Error(rows, f, 0, n))
  {
    hide Fitted, Error;
    FittedMonotone(rows, cuts, n);
    PrefixGap(rows, cuts, n, g, |cuts|);
    var f := Fitted(rows, cuts, n);
    DistancePositive(rows, f, g, n);
    if g != f {
      assert exists j :: 0 <= j < n && f[j] != g[j];
    }
  }

  lemma {:induction false} DistancePositive(rows: seq<Row>, f: seq<real>, g: seq<real>, k: nat)
    requires Positive(rows) && k <= |g| == |f| <= |rows|
    ensures Distance(rows, f, g, 0, k) >= 0.0
    ensures (exists j :: 0 <= j < k && f[j] != g[j]) ==> Distance(rows, f, g, 0, k) > 0.0
  {
    hide Times, Square;
    if k > 0 {
      DistancePositive(rows, f, g, k - 1);
      SquarePositive(rows[k - 1].weight, g[k - 1] - f[k - 1]);
    }
  }

  lemma SquarePositive(w: real, x: real)
    requires w > 0.0
    ensures Times(w, Square(x)) >= 0.0
    ensures x != 0.0 ==> Times(w, Square(x)) > 0.0
  {
    if x > 0.0 {
      ProductPositive(x, x);
      ProductPositive(w, Square(x));
    } else if x < 0.0 {
      ProductPositive(-x, -x);
      ProductPositive(w, Square(x));
    }
  }

  // ----- Necessity -----

  function BlockMean(rows: seq<Row>, cuts: seq<nat>, n: nat, i: nat): (m: real)
    requires Positive(rows) && IsCuts(rows, cuts, n) && i < |cuts|
  {
    Mean(rows, cuts[i], End(cuts, i, n))
  }

  lemma BlockMeansOrdered(rows: seq<Row>, cuts: seq<nat>, n: nat, i: nat)
    requires Positive(rows) && IsCuts(rows, cuts, n) && MeansOrdered(rows, cuts, n) && 0 < i < |cuts|
    ensures BlockMean(rows, cuts, n, i - 1) <= BlockMean(rows, cuts, n, i)
    ensures Excess(rows, BlockMean(rows, cuts, n, i - 1), cuts[i - 1], cuts[i]) == 0.0
  {
    hide Mean;
    ExcessSign(rows, BlockMean(rows, cuts, n, i - 1), cuts[i - 1], cuts[i]);
  }

  /** The first block of the run of blocks that share block `i`'s mean. */
  lemma {:induction false} LevelStart(rows: seq<Row>, cuts: seq<nat>, n: nat, i: nat) returns (first: nat)
    requires Positive(rows) && IsCuts(rows, cuts, n) && MeansOrdered(rows, cuts, n) && i < |cuts|
    ensures first <= i
    ensures var m := BlockMean(rows, cuts, n, i);
            && (forall b :: first <= b <= i ==> BlockMean(rows, cuts, n, b) == m)
            && (first > 0 ==> BlockMean(rows, cuts, n, first - 1) < m)
            && Excess(rows, m, cuts[first], cuts[i]) == 0.0
  {
    hide BlockMean, Excess, MeansOrdered;
    var m := BlockMean(rows, cuts, n, i);
    first := i;
    EmptyExcess(rows, m, cuts[i]);
    if i > 0 {
      BlockMeansOrdered(rows, cuts, n, i);
      if BlockMean(rows, cuts, n, i - 1) == m {
        first := LevelStart(rows, cuts, n, i - 1);
        ExcessSplit(rows, m, cuts[first], cuts[i - 1], cuts[i]);
      }
    }
  }

  lemma EmptyExcess(rows: seq<Row>, m: real, k: nat)
    requires k <= |rows|
    ensures Excess(rows, m, k, k) == 0.0
  {}

  /** Lowering a flat stretch by `e` changes its error by `e^2 w - 2 e excess`. */
  lemma {:induction false} LoweredError(rows: seq<Row>, f: seq<real>, g: seq<real>, m: real, e: real, lo: nat, k: nat)
    requires lo <= k <= |f| == |g| <= |rows|
    requires forall j :: lo <= j < k ==> f[j] == m && g[j] == m - e
    ensures Error(rows, g, lo, k)
            == Error(rows, f, lo, k) - 2.0 * Times(e, Excess(rows, m, lo, k)) + Times(Square(e), Weight(rows, lo, k))
  {
    hide Times, Square, Target, Excess;
    if lo == k {
      EmptyExcess(rows, m, lo);
      ZeroProduct(e);
      ZeroProduct(Square(e));
    } else {
      var j := k - 1;
      LoweredError(rows, f, g, m, e, lo, j);
      ExcessStep(rows, m, lo, j);
      LoweredStep(e, m, rows[j].weight, Target(rows[j]), Excess(rows, m, lo, j), Weight(rows, lo, j));
    }
  }

  lemma LoweredStep(e: real, m: real, w: real, y: real, excess: real, weight: real)
    ensures Times(w, Square(m - e - y))
            == Times(w, Square(m - y)) - 2.0 * (Times(e, excess + Times(w, m - y)) - Times(e, excess))
               + Times(Square(e), weight + w) - Times(Square(e), weight)
  {
    assert (m - e - y) * (m - e - y) == (m - y) * (m - y) - 2.0 * e * (m - y) + e * e;
    assert w * ((m - e - y) * (m - e - y)) == w * ((m - y) * (m - y)) - 2.0 * (e * (w * (m - y))) + e * e * w;
    assert e * (excess + w * (m - y)) == e * excess + e * (w * (m - y));
    assert (e * e) * (weight + w) == e * e * weight + e * e * w;
  }

  lemma SquareRegroups(e: real, w: real)
    ensures Times(Square(e), w) == Times(e, Times(e, w))
  {}

  /** A step small enough to keep the order and to gain: `e <= gap` and `e * w <= excess`. */
  lemma ChooseStep(gap: real, excess: real, w: real) returns (e: real)
    requires gap > 0.0 && excess > 0.0 && w > 0.0
    ensures 0.0 < e <= gap
    ensures 2.0 * Times(e, excess) > Times(Square(e), w)
  {
    hide Times, Ratio, Square;
    var limit := Ratio(excess, w);
    RatioCancels(excess, w);
    TimesDistributes(0.0, 0.0, w);
    FactorOrder(limit, 0.0, w);
    e := if gap < limit then gap else limit;
    FactorOrder(e, limit, w);
    TimesMonotone(e, Times(e, w), excess);
    ProductPositive(e, excess);
    SquareRegroups(e, w);
  }

  /** A block that hides a low prefix can be beaten: lower that prefix and everything level with it before. */
  lemma LowPrefixBeaten(rows: seq<Row>, cuts: seq<nat>, n: nat, i: nat, q: nat) returns (g: seq<real>)
    requires Positive(rows) && IsCuts(rows, cuts, n) && MeansOrdered(rows, cuts, n) && i < |cuts|
    requires cuts[i] < q < End(cuts, i, n) && Boundary(rows, q)
    requires Mean(rows, cuts[i], q) < BlockMean(rows, cuts, n, i)
    ensures Monotone(rows, g, n)
    ensures Error(rows, g, 0, n) < Error(rows, Fitted(rows, cuts, n), 0, n)
  {
    hide Mean, Excess, Fitted, Times, Square, Error, Distance, MeansOrdered;
    var f, m := Fitted(rows, cuts, n), BlockMean(rows, cuts, n, i);
    var first := LevelStart(rows, cuts, n, i);
    var s := cuts[first];
    ExcessSign(rows, m, cuts[i], q);
    ExcessSplit(rows, m, s, cuts[i], q);
    WeightBounds(rows, s, q);
    var gap := if first > 0 then m - BlockMean(rows, cuts, n, first - 1) else 1.0;
    var e := ChooseStep(gap, Excess(rows, m, s, q), Weight(rows, s, q));
    LevelRows(rows, cuts, n, first, i);
    if first > 0 {
      FittedAt(rows, cuts, n, first - 1, s - 1);
    }
    FittedMonotone(rows, cuts, n);
    g := Lowered(f, s, q, e);
    LoweredMonotone(rows, f, n, s, q, e);
    LoweredError(rows, f, g, m, e, s, q);
    ErrorOutside(rows, f, g, s, q, n);
  }

  lemma LevelRows(rows: seq<Row>, cuts: seq<nat>, n: nat, first: nat, i: nat)
    requires Positive(rows) && IsCuts(rows, cuts, n) && first <= i < |cuts|
    requires forall b :: first <= b <= i ==> BlockMean(rows, cuts, n, b) == BlockMean(rows, cuts, n, i)
    ensures cuts[first] < End(cuts, i, n) <= n
    ensures forall j :: cuts[first] <= j < End(cuts, i, n) ==>
              Fitted(rows, cuts, n)[j] == BlockMean(rows, cuts, n, i)
  {
    hide Mean, Fitted;
    forall j | cuts[first] <= j < End(cuts, i, n)
      ensures Fitted(rows, cuts, n)[j] == BlockMean(rows, cuts, n, i)
    {
      var b := BlockOf(rows, cuts, n, j);
      BlockBetween(rows, cuts, n, first, b, i, j);
      FittedAt(rows, cuts, n, b, j);
      assert BlockMean(rows, cuts, n, b) == BlockMean(rows, cuts, n, i);
    }
  }

  function Lowered(f: seq<real>, s: nat, q: nat, e: real): (g: seq<real>)
    ensures |g| == |f|
  {
    seq(|f|, j requires 0 <= j < |f| => if s <= j < q then f[j] - e else f[j])
  }

  lemma LoweredMonotone(rows: seq<Row>, f: seq<real>, n: nat, s: nat, q: nat, e: real)
    requires Monotone(rows, f, n) && s < q < n && e > 0.0
    requires s > 0 ==> Boundary(rows, s) && f[s - 1] <= f[s] - e
    requires Boundary(rows, q)
    ensures Monotone(rows, Lowered(f, s, q, e), n)
  {}

  lemma BlockBetween(rows: seq<Row>, cuts: seq<nat>, n: nat, first: nat, b: nat, i: nat, j: nat)
    requires IsCuts(rows, cuts, n) && first <= i < |cuts| && b < |cuts|
    requires cuts[first] <= j < End(cuts, i, n) && cuts[b] <= j < End(cuts, b, n)
    ensures first <= b <= i
  {}

  lemma {:induction false} ErrorAgrees(rows: seq<Row>, f: seq<real>, g: seq<real>, lo: nat, hi: nat)
    requires lo <= hi <= |f| == |g| <= |rows|
    requires forall j :: lo <= j < hi ==> f[j] == g[j]
    ensures Error(rows, f, lo, hi) == Error(rows, g, lo, hi)
  {
    hide Loss;
    if lo < hi { ErrorAgrees(rows, f, g, lo, hi - 1); }
  }

  lemma ErrorOutside(rows: seq<Row>, f: seq<real>, g: seq<real>, s: nat, q: nat, n: nat)
    requires s <= q <= n == |f| == |g| <= |rows|
    requires forall j :: 0 <= j < n && !(s <= j < q) ==> f[j] == g[j]
    ensures Error(rows, g, 0, n) - Error(rows, f, 0, n) == Error(rows, g, s, q) - Error(rows, f, s, q)
  {
    hide Error, Distance;
    ErrorSplit(rows, f, g, 0, s, n);
    ErrorSplit(rows, f, g, s, q, n);
    ErrorSplit(rows, g, f, 0, s, n);
    ErrorSplit(rows, g, f, s, q, n);
    ErrorAgrees(rows, f, g, 0, s);
    ErrorAgrees(rows, f, g, q, n);
  }

  /** The exact condition: ordered block means are the least-squares fit iff no block hides a low prefix. */
  lemma OptimalIffPrefixesAbove(rows: seq<Row>, cuts: seq<nat>, n: nat)
    requires Positive(rows) && IsCuts(rows, cuts, n) && MeansOrdered(rows, cuts, n)
    ensures Optimal(rows, Fitted(rows, cuts, n), n) <==> AllPrefixesAbove(rows, cuts, n)
  {
    hide Mean, Fitted, Error, Distance;
    FittedMonotone(rows, cuts, n);
    var f := Fitted(rows, cuts, n);
    if AllPrefixesAbove(rows, cuts, n) {
      forall g: seq<real> | Monotone(rows, g, n) ensures Error(rows, f, 0, n) <= Error(rows, g, 0, n) {
        PrefixesMakeOptimal(rows, cuts, n, g);
        DistancePositive(rows, f, g, n);
      }
    } else {
      var i :| 0 <= i < |cuts| && !PrefixesAbove(rows, cuts[i], End(cuts, i, n));
      var q :| cuts[i] < q < End(cuts, i, n) && Boundary(rows, q)
               && Mean(rows, cuts[i], q) < Mean(rows, cuts[i], End(cuts, i, n));
      var g := LowPrefixBeaten(rows, cuts, n, i, q);
    }
  }
}
