/** The conjugate Normal-Inverse-Gamma step, in exact arithmetic. */
module NormalInverseGamma {
  import opened RealSums

  datatype Nig = Nig(mu: real, kappa: real, alpha: real, beta: real) {
    predicate Valid() { kappa > 0.0 && alpha > 0.0 && beta > 0.0 }
  }

  /** The posterior after one observation; every intermediate value is finite here. */
  function Updated(s: Nig, value: real): (r: Nig)
    requires s.Valid()
    ensures r.Valid()
  {
    var nextKappa := s.kappa + 1.0;
    var nextMu := (s.kappa * s.mu + value) / nextKappa;
    var deviation := value - s.mu;
    var increment := s.kappa * (deviation * deviation) / (2.0 * nextKappa);
    EnergyStep(s, value, nextMu, increment);
    Nig(nextMu, nextKappa, s.alpha + 0.5, s.beta + increment)
  }

  /** Completing the square: the update adds exactly `value^2` to `2 beta + kappa mu^2`. */
  lemma EnergyStep(s: Nig, value: real, nextMu: real, increment: real)
    requires s.Valid()
    requires nextMu == (s.kappa * s.mu + value) / (s.kappa + 1.0)
    requires increment == s.kappa * ((value - s.mu) * (value - s.mu)) / (2.0 * (s.kappa + 1.0))
    ensures increment >= 0.0
    ensures 2.0 * (s.beta + increment) + (s.kappa + 1.0) * nextMu * nextMu
            == 2.0 * s.beta + s.kappa * s.mu * s.mu + value * value
  {
    var k, m, n, d := s.kappa, s.mu, s.kappa + 1.0, value - s.mu;
    assert n * nextMu == k * m + value;
    assert 2.0 * n * increment == k * (d * d) by {
      assert (2.0 * n) * (k * (d * d) / (2.0 * n)) == k * (d * d);
    }
    SquareSign(d);
    ProductNonNegative(k, Square(d));
    FactorOrder(0.0, increment, 2.0 * n);
    var lhs := 2.0 * increment + n * nextMu * nextMu;
    assert n * lhs == k * (d * d) + (k * m + value) * (k * m + value);
    assert k * (d * d) == k * value * value - 2.0 * k * m * value + k * m * m;
    assert (k * m + value) * (k * m + value) == k * k * m * m + 2.0 * k * m * value + value * value;
    var rhs := k * m * m + value * value;
    assert n * rhs == k * k * m * m + k * value * value + k * m * m + value * value;
    FactorOrder(lhs, rhs, n);
  }

  /** The prior updated on a batch of observations, oldest first. */
  function Batch(prior: Nig, xs: seq<real>): (r: Nig)
    requires prior.Valid()
    ensures r.Valid()
  {
    if xs == [] then prior else Updated(Batch(prior, xs[..|xs| - 1]), xs[|xs| - 1])
  }

  function Energy(s: Nig): (r: real) { 2.0 * s.beta + s.kappa * s.mu * s.mu }

  lemma UpdatedTotals(s: Nig, value: real)
    requires s.Valid()
    ensures var r := Updated(s, value);
            && r.kappa == s.kappa + 1.0
            && r.kappa * r.mu == s.kappa * s.mu + value
            && r.alpha == s.alpha + 0.5
  {}

  lemma UpdatedEnergy(s: Nig, value: real)
    requires s.Valid()
    ensures Energy(Updated(s, value)) == Energy(s) + value * value
  {
    var nextMu := (s.kappa * s.mu + value) / (s.kappa + 1.0);
    EnergyStep(s, value, nextMu, s.kappa * ((value - s.mu) * (value - s.mu)) / (2.0 * (s.kappa + 1.0)));
  }

  /** The running totals behind the closed form. */
  lemma {:induction false} BatchTotals(prior: Nig, xs: seq<real>)
    requires prior.Valid()
    ensures var r := Batch(prior, xs);
            && r.kappa == prior.kappa + |xs| as real
            && r.kappa * r.mu == prior.kappa * prior.mu + Sum(xs)
            && r.alpha == prior.alpha + |xs| as real / 2.0
  {
    hide Updated;
    if xs != [] {
      var init, x := xs[..|xs| - 1], xs[|xs| - 1];
      BatchTotals(prior, init);
      UpdatedTotals(Batch(prior, init), x);
    }
  }

  lemma {:induction false} BatchEnergy(prior: Nig, xs: seq<real>)
    requires prior.Valid()
    ensures Energy(Batch(prior, xs)) == Energy(prior) + SumSquares(xs)
  {
    hide Updated, Energy;
    if xs != [] {
      var init, x := xs[..|xs| - 1], xs[|xs| - 1];
      BatchEnergy(prior, init);
      UpdatedEnergy(Batch(prior, init), x);
    }
  }

  /** Sequential conjugate updating equals the closed batch form. */
  lemma {:induction false} BatchClosedForm(prior: Nig, xs: seq<real>)
    requires prior.Valid()
    ensures var r, n := Batch(prior, xs), |xs| as real;
            && r.kappa == prior.kappa + n
            && r.mu == (prior.kappa * prior.mu + Sum(xs)) / (prior.kappa + n)
            && r.alpha == prior.alpha + n / 2.0
            && 2.0 * r.beta + r.kappa * r.mu * r.mu
               == 2.0 * prior.beta + prior.kappa * prior.mu * prior.mu + SumSquares(xs)
  {
    hide Updated, Batch, Sum;
    BatchTotals(prior, xs);
    BatchEnergy(prior, xs);
  }

  lemma EnergyInjective(a: Nig, b: Nig)
    requires a.mu == b.mu && a.kappa == b.kappa && Energy(a) == Energy(b)
    ensures a.beta == b.beta
  {}

  /** The batch posterior does not depend on the order of its observations. */
  lemma BatchOrderIndependent(prior: Nig, xs: seq<real>, ys: seq<real>)
    requires prior.Valid()
    requires multiset(xs) == multiset(ys)
    ensures Batch(prior, xs) == Batch(prior, ys)
  {
    hide Updated, Batch, Sum, Energy, SumSquares;
    SumPermutation(xs, ys);
    SquaresPermutation(xs, ys);
    assert |multiset(xs)| == |xs| && |multiset(ys)| == |ys|;
    var a, b := Batch(prior, xs), Batch(prior, ys);
    BatchTotals(prior, xs);
    BatchTotals(prior, ys);
    assert a.mu == b.mu by {
      assert a.kappa * (a.mu - b.mu) == 0.0;
    }
    assert a.beta == b.beta by {
      BatchEnergy(prior, xs);
      BatchEnergy(prior, ys);
      EnergyInjective(a, b);
    }
  }
}
