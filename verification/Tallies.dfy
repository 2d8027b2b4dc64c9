/** Weighted totals of scored rows, and what grouping can do to a calibration gap. */
module Tallies {
  import opened RealSums

  datatype ScoredRow = ScoredRow(calibrated: real, outcome: bool, weight: real)

  predicate ValidRow(r: ScoredRow) { 0.0 <= r.calibrated <= 1.0 && r.weight > 0.0 }

  ghost predicate ValidScores(rows: seq<ScoredRow>) { forall i :: 0 <= i < |rows| ==> ValidRow(rows[i]) }

  function Event(r: ScoredRow): (y: real) { if r.outcome then 1.0 else 0.0 }

  /** Totals of a group; `error` is its weighted absolute error. */
  datatype Tally = Tally(count: nat, weight: real, probability: real, events: real, squares: real, error: real)

  const NOTHING := Tally(0, 0.0, 0.0, 0.0, 0.0, 0.0)

  function One(r: ScoredRow): (t: Tally) {
    Tally(1, r.weight, Times(r.weight, r.calibrated), Times(r.weight, Event(r)), Square(r.weight),
          Times(r.weight, Abs(r.calibrated - Event(r))))
  }

  function Plus(a: Tally, b: Tally): (t: Tally) {
    Tally(a.count + b.count, a.weight + b.weight, a.probability + b.probability, a.events + b.events,
          a.squares + b.squares, a.error + b.error)
  }

  lemma PlusLaws(a: Tally, b: Tally, c: Tally)
    ensures Plus(Plus(a, b), c) == Plus(a, Plus(b, c)) == Plus(Plus(a, c), b)
    ensures Plus(a, NOTHING) == a
  {}

  function TallyOf(rows: seq<ScoredRow>): (t: Tally) {
    if rows == [] then NOTHING else Plus(TallyOf(rows[..|rows| - 1]), One(rows[|rows| - 1]))
  }

  lemma TallySnoc(rows: seq<ScoredRow>, r: ScoredRow)
    ensures TallyOf(rows + [r]) == Plus(TallyOf(rows), One(r))
  {
    assert (rows + [r])[..|rows|] == rows;
  }

  lemma {:induction false} TallyConcat(a: seq<ScoredRow>, b: seq<ScoredRow>)
    ensures TallyOf(a + b) == Plus(TallyOf(a), TallyOf(b))
  {
    hide One, Plus;
    if b == [] {
      assert a + b == a;
      PlusLaws(TallyOf(a), NOTHING, NOTHING);
    } else {
      var n := |b| - 1;
      TallyConcat(a, b[..n]);
      assert (a + b)[..|a + b| - 1] == a + b[..n];
      PlusLaws(TallyOf(a), TallyOf(b[..n]), One(b[n]));
    }
  }

  lemma {:induction false} TallyPermutation(a: seq<ScoredRow>, b: seq<ScoredRow>)
    requires multiset(a) == multiset(b)
    ensures TallyOf(a) == TallyOf(b)
  {
    hide One, Plus;
    if a == [] {
      assert |multiset(b)| == 0;
    } else {
      var i := FindLast(a, b);
      TallyPermutation(a[..|a| - 1], b[..i] + b[i + 1..]);
      TallyConcat(b[..i], b[i + 1..]);
      TallyConcat(b[..i] + [b[i]], b[i + 1..]);
      TallySnoc(b[..i], b[i]);
      PlusLaws(TallyOf(b[..i]), TallyOf(b[i + 1..]), One(b[i]));
    }
  }

  lemma OneBounds(r: ScoredRow)
    requires ValidRow(r)
    ensures 0.0 <= One(r).probability <= r.weight && 0.0 <= One(r).events <= r.weight && One(r).squares > 0.0
    ensures Abs(One(r).probability - One(r).events) <= One(r).error
  {
    ProductNonNegative(r.weight, r.calibrated);
    ProductNonNegative(r.weight, 1.0 - r.calibrated);
    SquareSign(r.weight);
    assert r.weight * (r.calibrated - Event(r)) == r.weight * r.calibrated - r.weight * Event(r);
  }

  lemma {:induction false} TallyBounds(rows: seq<ScoredRow>)
    requires ValidScores(rows)
    ensures var t := TallyOf(rows);
            && t.count == |rows|
            && 0.0 <= t.probability <= t.weight
            && 0.0 <= t.events <= t.weight
            && (rows != [] ==> t.weight > 0.0 && t.squares > 0.0)
            && t.squares >= 0.0
            && Gap(t) <= t.error
  {
    hide One;
    if rows != [] {
      var n := |rows| - 1;
      TallyBounds(rows[..n]);
      OneBounds(rows[n]);
      OneShape(rows[n]);
    }
  }

  lemma OneShape(r: ScoredRow)
    ensures One(r).count == 1 && One(r).weight == r.weight && One(r).squares == Square(r.weight)
  {}

  lemma {:induction false} TallyWeights(rows: seq<ScoredRow>, ws: seq<real>)
    requires |ws| == |rows| && forall i :: 0 <= i < |rows| ==> ws[i] == rows[i].weight
    ensures TallyOf(rows).weight == Sum(ws) && TallyOf(rows).squares == SumSquares(ws)
  {
    hide One, Square;
    if rows != [] {
      var n := |rows| - 1;
      TallyWeights(rows[..n], ws[..n]);
      OneShape(rows[n]);
    }
  }

  // ----- Gaps -----

  /** How far a group's expected events are from its actual ones. */
  function Gap(t: Tally): (g: real) { Abs(t.probability - t.events) }

  function MeanOr0(x: real, weight: real): (m: real) { if weight == 0.0 then 0.0 else Ratio(x, weight) }

  /** A group's share of a calibration error: its weight share times the gap between its two means. */
  function Share(t: Tally, total: real): (s: real)
    requires total > 0.0
  {
    Times(Ratio(t.weight, total), Abs(MeanOr0(t.probability, t.weight) - MeanOr0(t.events, t.weight)))
  }

  lemma ShareIs(t: Tally, total: real)
    requires total > 0.0 && 0.0 <= t.probability <= t.weight && 0.0 <= t.events <= t.weight
    ensures Share(t, total) == Ratio(Gap(t), total)
  {
    hide Times, Ratio;
    if t.weight == 0.0 {
      ZeroRatio(total);
      TimesDistributes(0.0, 0.0, 0.0);
    } else {
      ShareArithmetic(t.weight, total, t.probability, t.events);
    }
  }

  lemma ZeroRatio(total: real)
    requires total > 0.0
    ensures Ratio(0.0, total) == 0.0
  {}

  lemma ShareArithmetic(w: real, total: real, p: real, e: real)
    requires total > 0.0 && w > 0.0
    ensures Times(Ratio(w, total), Abs(Ratio(p, w) - Ratio(e, w))) == Ratio(Abs(p - e), total)
  {
    var d := p / w - e / w;
    assert d * w == p - e;
    AbsScales(d, w);
    assert Abs(d) * w == Abs(p - e);
    assert (w / total) * Abs(d) == (Abs(d) * w) / total;
  }

  lemma AbsScales(d: real, w: real)
    requires w > 0.0
    ensures Abs(Times(d, w)) == Times(Abs(d), w)
  {
    if d >= 0.0 { ProductNonNegative(d, w); } else { ProductNonNegative(-d, w); }
  }

  lemma RatioOrder(x: real, y: real, total: real)
    requires total > 0.0 && x <= y
    ensures Ratio(x, total) <= Ratio(y, total)
  {}

  /** Splitting a group in two can only widen the total gap. */
  lemma GapSplits(a: Tally, b: Tally)
    ensures Gap(Plus(a, b)) <= Gap(a) + Gap(b)
  {}
}
