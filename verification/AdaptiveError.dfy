/** The adaptive calibration error: groups of near-equal weight that never split equal scores. */
module AdaptiveError {
  import opened RealSums
  import opened Tallies
  import Sorting

  function Score(r: ScoredRow): (p: real) { r.calibrated }

  /** The end of the run of rows at score `p` that starts at `i`. */
  function RunEnd(rows: seq<ScoredRow>, i: nat, p: real): (e: nat)
    requires i <= |rows|
    ensures i <= e <= |rows|
    ensures i < |rows| && rows[i].calibrated == p ==> i < e
    ensures forall k :: i <= k < e ==> rows[k].calibrated == p
    ensures e < |rows| ==> rows[e].calibrated != p
    decreases |rows| - i
  {
    if i < |rows| && rows[i].calibrated == p then RunEnd(rows, i + 1, p) else i
  }

  /** The end of the group that starts at `start` and already reaches to `i`. */
  function GroupEnd(rows: seq<ScoredRow>, start: nat, i: nat, target: real): (e: nat)
    requires start <= i <= |rows|
    ensures i <= e <= |rows|
    ensures i < |rows| ==> i < e
    ensures i < e < |rows| ==> rows[e - 1].calibrated != rows[e].calibrated
    ensures e < |rows| ==> TallyOf(rows[start..e]).weight >= target
    decreases |rows| - i
  {
    if i == |rows| then i
    else
      var e := RunEnd(rows, i, rows[i].calibrated);
      if TallyOf(rows[start..e]).weight >= target then e else GroupEnd(rows, start, e, target)
  }

  /** Where the groups that cover the rows from `start` on end. */
  function Ends(rows: seq<ScoredRow>, start: nat, target: real): (es: seq<nat>)
    requires start <= |rows|
    decreases |rows| - start
  {
    if start == |rows| then []
    else
      var e := GroupEnd(rows, start, start, target);
      [e] + Ends(rows, e, target)
  }

  function GroupedError(rows: seq<ScoredRow>, start: nat, target: real, total: real): (r: real)
    requires start <= |rows| && (start < |rows| ==> total > 0.0)
    decreases |rows| - start
  {
    if start == |rows| then 0.0
    else
      var e := GroupEnd(rows, start, start, target);
      Share(TallyOf(rows[start..e]), total) + GroupedError(rows, e, target, total)
  }

  function Target(rows: seq<ScoredRow>, bins: nat): (w: real)
    requires bins > 0
  {
    Ratio(TallyOf(rows).weight, bins as real)
  }

  /** The three nested loops compute the grouped error of the rows sorted by score. */
  method Adaptive(scored: seq<ScoredRow>, bins: nat) returns (total: real)
    requires ValidScores(scored) && bins > 0
    ensures var ordered := Sorting.SortBy(scored, Score);
            && (ordered != [] ==> TallyOf(ordered).weight > 0.0)
            && total == GroupedError(ordered, 0, Target(ordered, bins), TallyOf(ordered).weight)
  {
    hide TallyOf, GroupEnd, Share, Ratio;
    var ordered := Sorting.SortBy(scored, Score);
    SortedScores(scored);
    TallyBounds(ordered);
    var totalWeight := TallyOf(ordered).weight;
    var target := Ratio(totalWeight, bins as real);
    total := 0.0;
    var start := 0;
    while start < |ordered|
      invariant start <= |ordered|
      invariant total + GroupedError(ordered, start, target, totalWeight)
                == GroupedError(ordered, 0, target, totalWeight)
    {
      var end := FindGroup(ordered, start, target);
      assert end == GroupEnd(ordered, start, start, target);
      total := total + Share(TallyOf(ordered[start..end]), totalWeight);
      start := end;
    }
  }

  method FindGroup(ordered: seq<ScoredRow>, start: nat, target: real) returns (end: nat)
    requires start < |ordered|
    ensures start < end <= |ordered| && end == GroupEnd(ordered, start, start, target)
  {
    hide TallyOf, One;
    end := start;
    var accumulated := 0.0;
    NoTally(ordered, start);
    while end < |ordered|
      invariant start <= end <= |ordered|
      invariant accumulated == TallyOf(ordered[start..end]).weight
      invariant GroupEnd(ordered, start, end, target) == GroupEnd(ordered, start, start, target)
      decreases |ordered| - end
    {
      var probability := ordered[end].calibrated;
      ghost var from := end;
      while end < |ordered| && ordered[end].calibrated == probability
        invariant from <= end <= |ordered|
        invariant accumulated == TallyOf(ordered[start..end]).weight
        invariant RunEnd(ordered, end, probability) == RunEnd(ordered, from, probability)
      {
        TallyGrows(ordered, start, end);
        accumulated := accumulated + ordered[end].weight;
        end := end + 1;
      }
      if accumulated >= target {
        break;
      }
    }
  }

  lemma NoTally(rows: seq<ScoredRow>, start: nat)
    requires start <= |rows|
    ensures TallyOf(rows[start..start]) == NOTHING
  {}

  lemma TallyGrows(rows: seq<ScoredRow>, start: nat, end: nat)
    requires start <= end < |rows|
    ensures TallyOf(rows[start..end + 1]).weight == TallyOf(rows[start..end]).weight + rows[end].weight
  {
    hide TallyOf;
    assert rows[start..end + 1] == rows[start..end] + [rows[end]];
    TallySnoc(rows[start..end], rows[end]);
  }

  /** Sorting keeps the rows, so it keeps every total. */
  lemma SortedScores(scored: seq<ScoredRow>)
    requires ValidScores(scored)
    ensures var ordered := Sorting.SortBy(scored, Score);
            && |ordered| == |scored| && ValidScores(ordered)
            && TallyOf(ordered) == TallyOf(scored)
  {
    hide TallyOf;
    var ordered := Sorting.SortBy(scored, Score);
    Sorting.SortElements(scored, Score);
    assert |multiset(ordered)| == |multiset(scored)|;
    forall i | 0 <= i < |ordered| ensures ValidRow(ordered[i]) {
      assert ordered[i] in multiset(scored);
    }
    TallyPermutation(ordered, scored);
  }

  // ----- What the groups guarantee -----

  lemma {:induction false} GroupedBetween(rows: seq<ScoredRow>, start: nat, target: real, total: real)
    requires ValidScores(rows) && start <= |rows| && total > 0.0
    ensures var t := TallyOf(rows[start..]);
            Ratio(Gap(t), total) <= GroupedError(rows, start, target, total) <= Ratio(t.error, total)
    decreases |rows| - start
  {
    hide TallyOf, GroupEnd, Share, Ratio;
    if start == |rows| {
      assert rows[start..] == rows[start..start];
      NoTally(rows, start);
      ZeroRatio(total);
    } else {
      var e := GroupEnd(rows, start, start, target);
      GroupedBetween(rows, e, target, total);
      var u, t := TallyOf(rows[start..e]), TallyOf(rows[e..]);
      assert rows[start..] == rows[start..e] + rows[e..];
      TallyConcat(rows[start..e], rows[e..]);
      TallyBounds(rows[start..e]);
      ShareIs(u, total);
      GapSplits(u, t);
      RatioOrder(Gap(Plus(u, t)), Gap(u) + Gap(t), total);
      RatioPlus(Gap(u), Gap(t), total);
      RatioOrder(Gap(u), u.error, total);
      RatioPlus(u.error, t.error, total);
    }
  }

  /** The adaptive error, too, lies between the calibration in the large and the mean absolute error. */
  lemma AdaptiveSandwich(scored: seq<ScoredRow>, bins: nat)
    requires ValidScores(scored) && scored != [] && bins > 0
    ensures var ordered, t := Sorting.SortBy(scored, Score), TallyOf(scored);
            && t.weight > 0.0 && TallyOf(ordered) == t
            && Ratio(Gap(t), t.weight) <= GroupedError(ordered, 0, Target(ordered, bins), t.weight)
            && GroupedError(ordered, 0, Target(ordered, bins), t.weight) <= Ratio(t.error, t.weight)
  {
    hide TallyOf, GroupedError, Ratio, Target;
    var ordered := Sorting.SortBy(scored, Score);
    SortedScores(scored);
    TallyBounds(scored);
    assert ordered[0..] == ordered;
    GroupedBetween(ordered, 0, Target(ordered, bins), TallyOf(scored).weight);
  }

  /** Groups cover the rows in order, never split equal scores, and all but the last carry the target weight. */
  lemma {:induction false} GroupShape(rows: seq<ScoredRow>, start: nat, target: real, k: nat)
    requires start <= |rows| && k < |Ends(rows, start, target)|
    ensures var es := Ends(rows, start, target);
            var from := if k == 0 then start else es[k - 1];
            && from < es[k] <= |rows|
            && (k + 1 == |es| <==> es[k] == |rows|)
            && (es[k] < |rows| ==> rows[es[k] - 1].calibrated != rows[es[k]].calibrated)
            && (es[k] < |rows| ==> TallyOf(rows[from..es[k]]).weight >= target)
    decreases k
  {
    hide TallyOf, GroupEnd;
    var e := GroupEnd(rows, start, start, target);
    if k > 0 { GroupShape(rows, e, target, k - 1); }
  }

  lemma {:induction false} GroupsWeigh(rows: seq<ScoredRow>, start: nat, target: real)
    requires ValidScores(rows) && start < |rows|
    ensures var k := |Ends(rows, start, target)|;
            k >= 1 && Times((k - 1) as real, target) < TallyOf(rows[start..]).weight
    decreases |rows| - start
  {
    hide TallyOf, GroupEnd, Times;
    var e := GroupEnd(rows, start, start, target);
    assert rows[start..] == rows[start..e] + rows[e..];
    TallyConcat(rows[start..e], rows[e..]);
    if e == |rows| {
      TallyBounds(rows[start..]);
      TimesDistributes(0.0, 0.0, target);
    } else {
      GroupsWeigh(rows, e, target);
      var k := |Ends(rows, e, target)|;
      TimesDistributes((k - 1) as real, 1.0, target);
      UnitProduct(target);
    }
  }

  /** Every score before the end of a group is strictly below every score after it. */
  lemma GroupsSeparate(scored: seq<ScoredRow>, target: real, k: nat, i: nat, j: nat)
    requires var ordered := Sorting.SortBy(scored, Score);
             k < |Ends(ordered, 0, target)| && i < Ends(ordered, 0, target)[k] <= j < |ordered|
    ensures var ordered := Sorting.SortBy(scored, Score); ordered[i].calibrated < ordered[j].calibrated
  {
    hide Ends, TallyOf;
    var ordered := Sorting.SortBy(scored, Score);
    var e := Ends(ordered, 0, target)[k];
    GroupShape(ordered, 0, target, k);
    Sorting.SortOrders(scored, Score);
    assert Score(ordered[i]) <= Score(ordered[e - 1]) <= Score(ordered[e]) <= Score(ordered[j]);
  }

  /** There are at most as many groups as bins. */
  lemma GroupsAtMostBins(scored: seq<ScoredRow>, bins: nat)
    requires ValidScores(scored) && scored != [] && bins > 0
    ensures var ordered := Sorting.SortBy(scored, Score);
            1 <= |Ends(ordered, 0, Target(ordered, bins))| <= bins
  {
    hide TallyOf, Ends, Times, Ratio;
    var ordered := Sorting.SortBy(scored, Score);
    SortedScores(scored);
    FewGroups(ordered, bins);
  }

  lemma FewGroups(rows: seq<ScoredRow>, bins: nat)
    requires ValidScores(rows) && rows != [] && bins > 0
    ensures 1 <= |Ends(rows, 0, Target(rows, bins))| <= bins
  {
    hide TallyOf, Ends, Times, Ratio;
    TallyBounds(rows);
    assert rows[0..] == rows;
    GroupsWeigh(rows, 0, Target(rows, bins));
    FewerThan(|Ends(rows, 0, Target(rows, bins))| - 1, TallyOf(rows).weight, bins);
  }

  lemma FewerThan(k: nat, w: real, bins: nat)
    requires w > 0.0 && bins > 0 && Times(k as real, Ratio(w, bins as real)) < w
    ensures k < bins
  {
    var q := w / bins as real;
    assert q * bins as real == w;
    if k >= bins {
      ProductNonNegative(k as real - bins as real, q);
    }
  }
}
