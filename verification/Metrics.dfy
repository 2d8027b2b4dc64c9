/** Expected and adaptive calibration error. */
module Metrics {
  import opened RealSums
  import opened Kish
  import opened Tallies

  // ----- Equal-width bins -----

  function BinIndex(p: real, bins: nat): (k: nat)
    requires 0.0 <= p <= 1.0 && bins > 0
    ensures k < bins
    ensures k as real <= Times(p, bins as real) <= (k + 1) as real
  {
    ScaledScore(p, bins as real);
    var k := Times(p, bins as real).Floor;
    if k < bins then k else bins - 1
  }

  lemma ScaledScore(p: real, b: real)
    requires 0.0 <= p <= 1.0 && b > 0.0
    ensures 0.0 <= Times(p, b) <= b
  {
    ProductNonNegative(p, b);
    ProductNonNegative(1.0 - p, b);
  }

  /** The rows that fall in bin `b`. */
  function InBin(rows: seq<ScoredRow>, bins: nat, b: nat): (r: seq<ScoredRow>)
    requires ValidScores(rows) && bins > 0
    ensures ValidScores(r)
    ensures forall i :: 0 <= i < |r| ==> BinIndex(r[i].calibrated, bins) == b
  {
    if rows == [] then []
    else
      var init, last := InBin(rows[..|rows| - 1], bins, b), rows[|rows| - 1];
      if BinIndex(last.calibrated, bins) == b then init + [last] else init
  }

  /** The rows that fall in the first `k` bins. */
  function Below(rows: seq<ScoredRow>, bins: nat, k: nat): (r: seq<ScoredRow>)
    requires ValidScores(rows) && bins > 0
    ensures ValidScores(r)
  {
    if rows == [] then []
    else
      var init, last := Below(rows[..|rows| - 1], bins, k), rows[|rows| - 1];
      if BinIndex(last.calibrated, bins) < k then init + [last] else init
  }

  lemma {:induction false} BelowGrows(rows: seq<ScoredRow>, bins: nat, k: nat)
    requires ValidScores(rows) && bins > 0
    ensures TallyOf(Below(rows, bins, k + 1)) == Plus(TallyOf(Below(rows, bins, k)), TallyOf(InBin(rows, bins, k)))
  {
    hide BinIndex, One, TallyOf, Plus;
    if rows == [] {
      TallyConcat(rows, rows);
      assert rows + rows == rows;
    } else {
      var n := |rows| - 1;
      var init, last := rows[..n], rows[n];
      BelowGrows(init, bins, k);
      TallySnoc(Below(init, bins, k), last);
      TallySnoc(Below(init, bins, k + 1), last);
      TallySnoc(InBin(init, bins, k), last);
      PlusLaws(TallyOf(Below(init, bins, k)), TallyOf(InBin(init, bins, k)), One(last));
    }
  }

  lemma {:induction false} BelowEnds(rows: seq<ScoredRow>, bins: nat)
    requires ValidScores(rows) && bins > 0
    ensures Below(rows, bins, 0) == [] && Below(rows, bins, bins) == rows
  {
    if rows != [] { BelowEnds(rows[..|rows| - 1], bins); }
  }

  datatype ReliabilityBin = ReliabilityBin(lower: real, upper: real, observations: nat, totalWeight: real,
                                           effective: real, meanProbability: real, eventRate: real)

  function FromSums(bins: nat, b: nat, count: nat, weight: real, probability: real, events: real, squares: real)
    : (r: ReliabilityBin)
    requires bins > 0 && (count > 0 ==> squares != 0.0)
  {
    ReliabilityBin(Ratio(b as real, bins as real), Ratio((b + 1) as real, bins as real), count, weight,
                   if count == 0 then 0.0 else Ratio(Square(weight), squares),
                   MeanOr0(probability, weight), MeanOr0(events, weight))
  }

  /** The bin whose totals are those of the rows that fall in it. */
  function BinAt(rows: seq<ScoredRow>, bins: nat, b: nat): (r: ReliabilityBin)
    requires ValidScores(rows) && bins > 0
  {
    TallyBounds(InBin(rows, bins, b));
    var t := TallyOf(InBin(rows, bins, b));
    FromSums(bins, b, t.count, t.weight, t.probability, t.events, t.squares)
  }

  /** Scattering rows into five arrays gives each bin the totals of exactly the rows that fall in it. */
  method ReliabilityBins(scored: seq<ScoredRow>, bins: nat) returns (r: seq<ReliabilityBin>)
    requires ValidScores(scored) && bins > 0
    ensures |r| == bins && forall b :: 0 <= b < bins ==> r[b] == BinAt(scored, bins, b)
  {
    hide BinIndex, One, TallyOf, InBin, Times, Square, FromSums, BinAt;
    var counts := new nat[bins](_ => 0);
    var probabilitySums := new real[bins](_ => 0.0);
    var eventSums := new real[bins](_ => 0.0);
    var weightSums := new real[bins](_ => 0.0);
    var squaredSums := new real[bins](_ => 0.0);
    EmptyBins(scored, bins);
    for i := 0 to |scored|
      invariant forall b :: 0 <= b < bins ==>
                  Holds(TallyOf(InBin(scored[..i], bins, b)), counts[b], weightSums[b], probabilitySums[b],
                        eventSums[b], squaredSums[b])
    {
      var row := scored[i];
      var index := BinIndex(row.calibrated, bins);
      forall b | 0 <= b < bins
        ensures TallyOf(InBin(scored[..i + 1], bins, b))
                == if b == index then Plus(TallyOf(InBin(scored[..i], bins, b)), One(row))
                   else TallyOf(InBin(scored[..i], bins, b))
      {
        InBinSnoc(scored, bins, b, i);
      }
      OneIs(row);
      counts[index] := counts[index] + 1;
      probabilitySums[index] := probabilitySums[index] + Times(row.weight, row.calibrated);
      eventSums[index] := eventSums[index] + Times(row.weight, Event(row));
      weightSums[index] := weightSums[index] + row.weight;
      squaredSums[index] := squaredSums[index] + Square(row.weight);
    }
    assert scored[..|scored|] == scored;
    r := [];
    for b := 0 to bins
      invariant forall k :: 0 <= k < bins ==>
                  Holds(TallyOf(InBin(scored, bins, k)), counts[k], weightSums[k], probabilitySums[k],
                        eventSums[k], squaredSums[k])
      invariant |r| == b && forall k :: 0 <= k < b ==> r[k] == BinAt(scored, bins, k)
    {
      BinAtIs(scored, bins, b, counts[b], weightSums[b], probabilitySums[b], eventSums[b], squaredSums[b]);
      r := r + [FromSums(bins, b, counts[b], weightSums[b], probabilitySums[b], eventSums[b], squaredSums[b])];
    }
  }

  lemma BinAtIs(rows: seq<ScoredRow>, bins: nat, b: nat,
                count: nat, weight: real, probability: real, events: real, squares: real)
    requires ValidScores(rows) && bins > 0
    requires Holds(TallyOf(InBin(rows, bins, b)), count, weight, probability, events, squares)
    ensures count > 0 ==> squares != 0.0
    ensures FromSums(bins, b, count, weight, probability, events, squares) == BinAt(rows, bins, b)
  {
    TallyBounds(InBin(rows, bins, b));
  }

  ghost predicate Holds(t: Tally, count: nat, weight: real, probability: real, events: real, squares: real) {
    t.count == count && t.weight == weight && t.probability == probability && t.events == events && t.squares == squares
  }

  lemma EmptyBins(scored: seq<ScoredRow>, bins: nat)
    requires ValidScores(scored) && bins > 0
    ensures forall b :: 0 <= b < bins ==> TallyOf(InBin(scored[..0], bins, b)) == NOTHING
  {}

  lemma OneIs(r: ScoredRow)
    ensures One(r).count == 1 && One(r).weight == r.weight && One(r).probability == Times(r.weight, r.calibrated)
    ensures One(r).events == Times(r.weight, Event(r)) && One(r).squares == Square(r.weight)
  {}

  lemma InBinSnoc(rows: seq<ScoredRow>, bins: nat, b: nat, i: nat)
    requires ValidScores(rows) && bins > 0 && i < |rows|
    ensures TallyOf(InBin(rows[..i + 1], bins, b))
            == if b == BinIndex(rows[i].calibrated, bins) then Plus(TallyOf(InBin(rows[..i], bins, b)), One(rows[i]))
               else TallyOf(InBin(rows[..i], bins, b))
  {
    hide BinIndex, One, TallyOf;
    assert rows[..i + 1][..i] == rows[..i];
    TallySnoc(InBin(rows[..i], bins, b), rows[i]);
  }

  // ----- What the bins say -----

  /** The totals of the first `k` bins together. */
  function BinsTogether(rows: seq<ScoredRow>, bins: nat, k: nat): (t: Tally)
    requires ValidScores(rows) && bins > 0
  {
    if k == 0 then NOTHING else Plus(BinsTogether(rows, bins, k - 1), TallyOf(InBin(rows, bins, k - 1)))
  }

  /** Every row is in exactly one bin: together the bins hold all rows, weight, probability and events. */
  lemma BinsConserve(rows: seq<ScoredRow>, bins: nat)
    requires ValidScores(rows) && bins > 0
    ensures BinsTogether(rows, bins, bins) == TallyOf(rows)
  {
    hide InBin, TallyOf;
    BinsTogetherIs(rows, bins, bins);
    BelowEnds(rows, bins);
  }

  lemma {:induction false} BinsTogetherIs(rows: seq<ScoredRow>, bins: nat, k: nat)
    requires ValidScores(rows) && bins > 0
    ensures BinsTogether(rows, bins, k) == TallyOf(Below(rows, bins, k))
  {
    hide InBin, Below, Plus;
    if k == 0 {
      BelowEnds(rows, bins);
    } else {
      BinsTogetherIs(rows, bins, k - 1);
      BelowGrows(rows, bins, k - 1);
    }
  }

  lemma {:induction false} MassBetween(rows: seq<ScoredRow>, bins: nat, b: nat)
    requires ValidScores(rows) && bins > 0
    requires forall i :: 0 <= i < |rows| ==> BinIndex(rows[i].calibrated, bins) == b
    ensures var t := TallyOf(rows);
            Times(b as real, t.weight) <= Times(t.probability, bins as real) <= Times((b + 1) as real, t.weight)
  {
    hide Times, BinIndex, One;
    if rows == [] {
      ZeroProduct(b as real);
      ZeroProduct((b + 1) as real);
      TimesDistributes(0.0, 0.0, bins as real);
    } else {
      var n := |rows| - 1;
      var t, r := TallyOf(rows[..n]), rows[n];
      MassBetween(rows[..n], bins, b);
      OneIs(r);
      TimesOverSum(b as real, t.weight, r.weight);
      TimesOverSum((b + 1) as real, t.weight, r.weight);
      TimesDistributes(t.probability, Times(r.weight, r.calibrated), bins as real);
      WeighedBetween(r.weight, r.calibrated, bins as real, b as real);
    }
  }

  lemma WeighedBetween(w: real, p: real, bins: real, b: real)
    requires w > 0.0 && b <= Times(p, bins) <= b + 1.0
    ensures Times(b, w) <= Times(Times(w, p), bins) <= Times(b + 1.0, w)
  {
    ProductNonNegative(w, p * bins - b);
    ProductNonNegative(w, b + 1.0 - p * bins);
    assert (w * p) * bins == w * (p * bins);
  }

  /** A nonempty bin's mean probability lies within the bin, and its effective size within its count. */
  lemma BinSound(rows: seq<ScoredRow>, bins: nat, b: nat)
    requires ValidScores(rows) && bins > 0 && InBin(rows, bins, b) != []
    ensures var r := BinAt(rows, bins, b);
            && r.observations == |InBin(rows, bins, b)|
            && r.lower <= r.meanProbability <= r.upper
            && 0.0 <= r.eventRate <= 1.0
            && 1.0 <= r.effective <= r.observations as real
  {
    hide Times, Ratio, BinIndex, TallyOf, Square;
    var inside := InBin(rows, bins, b);
    var t := TallyOf(inside);
    TallyBounds(inside);
    MassBetween(inside, bins, b);
    QuotientBetween(b as real, bins as real, t.probability, t.weight);
    UnitQuotient(t.events, t.weight);
    var ws := seq(|inside|, i requires 0 <= i < |inside| => inside[i].weight);
    TallyWeights(inside, ws);
    EffectiveIs(ws);
    EffectiveBounds(ws);
  }

  lemma QuotientBetween(b: real, bins: real, p: real, w: real)
    requires w > 0.0 && bins > 0.0 && Times(b, w) <= Times(p, bins) <= Times(b + 1.0, w)
    ensures Ratio(b, bins) <= Ratio(p, w) <= Ratio(b + 1.0, bins)
  {
    var m := p / w;
    assert m * w == p;
    assert (m * bins - b) * w == p * bins - b * w;
    assert m * bins >= b by { if m * bins < b { ProductPositive(b - m * bins, w); } }
    assert m * bins <= b + 1.0 by { if m * bins > b + 1.0 { ProductPositive(m * bins - b - 1.0, w); } }
    assert m == (m * bins) / bins;
  }

  lemma UnitQuotient(x: real, w: real)
    requires w > 0.0 && 0.0 <= x <= w
    ensures 0.0 <= Ratio(x, w) <= 1.0
  {}

  // ----- The expected calibration error -----

  /** The error summed over the first `k` bins. */
  function ExpectedError(rows: seq<ScoredRow>, bins: nat, k: nat): (e: real)
    requires ValidScores(rows) && bins > 0 && TallyOf(rows).weight > 0.0
  {
    if k == 0 then 0.0
    else
      var b, total := BinAt(rows, bins, k - 1), TallyOf(rows).weight;
      ExpectedError(rows, bins, k - 1) + Times(Ratio(b.totalWeight, total), Abs(b.meanProbability - b.eventRate))
  }

  lemma {:induction false} ErrorBetween(rows: seq<ScoredRow>, bins: nat, k: nat)
    requires ValidScores(rows) && bins > 0 && TallyOf(rows).weight > 0.0
    ensures var t, total := BinsTogether(rows, bins, k), TallyOf(rows).weight;
            Ratio(Gap(t), total) <= ExpectedError(rows, bins, k) <= Ratio(t.error, total)
  {
    hide Times, Ratio, InBin, TallyOf;
    var total := TallyOf(rows).weight;
    if k == 0 {
      ZeroRatio(total);
    } else {
      var t, u := BinsTogether(rows, bins, k - 1), TallyOf(InBin(rows, bins, k - 1));
      ErrorBetween(rows, bins, k - 1);
      TallyBounds(InBin(rows, bins, k - 1));
      ShareIs(u, total);
      GapSplits(t, u);
      RatioOrder(Gap(Plus(t, u)), Gap(t) + Gap(u), total);
      RatioPlus(Gap(t), Gap(u), total);
      RatioOrder(Gap(u), u.error, total);
      RatioPlus(t.error, u.error, total);
    }
  }

  /** The expected calibration error lies between the calibration in the large and the mean absolute error. */
  lemma ExpectedErrorSandwich(rows: seq<ScoredRow>, bins: nat)
    requires ValidScores(rows) && bins > 0 && rows != []
    ensures var t := TallyOf(rows);
            && t.weight > 0.0
            && Abs(Ratio(t.probability, t.weight) - Ratio(t.events, t.weight)) <= ExpectedError(rows, bins, bins)
            && ExpectedError(rows, bins, bins) <= Ratio(t.error, t.weight)
  {
    hide Times, Ratio, TallyOf, BinsTogether, ExpectedError;
    var t := TallyOf(rows);
    TallyBounds(rows);
    BinsConserve(rows, bins);
    ErrorBetween(rows, bins, bins);
    GapOfMeans(t.weight, t.probability, t.events);
  }

  lemma GapOfMeans(w: real, p: real, e: real)
    requires w > 0.0
    ensures Abs(Ratio(p, w) - Ratio(e, w)) == Ratio(Abs(p - e), w)
  {
    var d := p / w - e / w;
    AbsScales(d, w);
    assert d * w == p - e;
  }
}
