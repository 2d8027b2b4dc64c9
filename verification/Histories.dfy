/**
 The brute-force reading of online changepoint detection: a sum over every
 run-length history, against which the bounded recurrence is proved.
 */
module Histories {
  import opened RealSums
  import opened NormalInverseGamma

  /** One entry per observation: `true` lets the run grow, `false` restarts it. */
  type History = seq<bool>

  /** What the sum needs to know: the conjugate prior, the hazard, the bound and the predictive density. */
  datatype Model = Model(prior: Nig, hazard: real, maxRunLength: nat, density: (Nig, real) -> real) {
    ghost predicate Valid() {
      prior.Valid() && 0.0 < hazard < 1.0 && maxRunLength >= 1
    }
  }

  function RunLength(h: History): (r: nat)
    ensures r <= |h|
  {
    if h == [] then 0 else if h[|h| - 1] then RunLength(h[..|h| - 1]) + 1 else 0
  }

  /** No prefix of the history ever exceeds the run-length bound. */
  ghost predicate Admissible(h: History, bound: nat) {
    forall i :: 0 <= i <= |h| ==> RunLength(h[..i]) <= bound
  }

  /** The statistic a run of length `r` holds: the prior updated on the last `r` observations. */
  function RunStatistic(prior: Nig, xs: seq<real>, r: nat): (s: Nig)
    requires prior.Valid() && r <= |xs|
    ensures s.Valid()
  {
    Batch(prior, xs[|xs| - r..])
  }

  /** The predictive density of `x` after `xs`, for the run of length `r`. */
  function Predictive(m: Model, xs: seq<real>, r: nat, x: real): (d: real)
    requires m.prior.Valid() && r <= |xs|
  {
    m.density(RunStatistic(m.prior, xs, r), x)
  }

  /** The weight of one step out of run length `r`: predict `x`, then survive or restart. */
  function Transition(m: Model, xs: seq<real>, r: nat, x: real, grow: bool): (t: real)
    requires m.prior.Valid() && r <= |xs|
  {
    Times(Predictive(m, xs, r, x), if grow then 1.0 - m.hazard else m.hazard)
  }

  /** The joint weight of one history and the observations. */
  function Weight(m: Model, xs: seq<real>, h: History): (w: real)
    requires m.prior.Valid() && |h| == |xs|
  {
    if h == [] then 1.0
    else
      var n := |h| - 1;
      Times(Weight(m, xs[..n], h[..n]), Transition(m, xs[..n], RunLength(h[..n]), xs[n], h[n]))
  }

  function Children(h: History, bound: nat): (hs: seq<History>) {
    if RunLength(h) < bound then [h + [false], h + [true]] else [h + [false]]
  }

  function Extend(hs: seq<History>, bound: nat): (r: seq<History>) {
    if hs == [] then [] else Extend(hs[..|hs| - 1], bound) + Children(hs[|hs| - 1], bound)
  }

  /** Every admissible history over `n` observations. */
  function AllHistories(n: nat, bound: nat): (hs: seq<History>) {
    if n == 0 then [[]] else Extend(AllHistories(n - 1, bound), bound)
  }

  ghost predicate OfLength(hs: seq<History>, n: nat) { forall h :: h in hs ==> |h| == n }

  /** The total weight of the histories in `hs` that end in run length `r`. */
  function Mass(m: Model, xs: seq<real>, hs: seq<History>, r: nat): (w: real)
    requires m.prior.Valid() && OfLength(hs, |xs|)
  {
    if hs == [] then 0.0
    else
      var n := |hs| - 1;
      Mass(m, xs, hs[..n], r) + (if RunLength(hs[n]) == r then Weight(m, xs, hs[n]) else 0.0)
  }

  /** The total weight of all histories in `hs`. */
  function TotalMass(m: Model, xs: seq<real>, hs: seq<History>): (w: real)
    requires m.prior.Valid() && OfLength(hs, |xs|)
  {
    if hs == [] then 0.0 else TotalMass(m, xs, hs[..|hs| - 1]) + Weight(m, xs, hs[|hs| - 1])
  }

  // ----- The enumeration is exactly the admissible histories, each once -----

  lemma AdmissibleSnoc(h: History, grow: bool, bound: nat)
    ensures Admissible(h + [grow], bound) <==> Admissible(h, bound) && RunLength(h + [grow]) <= bound
  {
    var e := h + [grow];
    assert e[..|e|] == e;
    assert forall i :: 0 <= i <= |h| ==> e[..i] == h[..i];
    if Admissible(e, bound) {
      forall i | 0 <= i <= |h| ensures RunLength(h[..i]) <= bound {
        assert RunLength(e[..i]) <= bound;
      }
    }
  }

  lemma {:induction false} ExtendMember(hs: seq<History>, bound: nat, e: History)
    ensures e in Extend(hs, bound) <==> e != [] && e[..|e| - 1] in hs && e in Children(e[..|e| - 1], bound)
  {
    if hs != [] {
      var n := |hs| - 1;
      ExtendMember(hs[..n], bound, e);
      assert hs == hs[..n] + [hs[n]];
      assert hs[n] == (hs[n] + [false])[..|hs[n]|] == (hs[n] + [true])[..|hs[n]|];
    }
  }

  lemma ChildMember(p: History, grow: bool, bound: nat)
    requires RunLength(p) <= bound
    ensures p + [grow] in Children(p, bound) <==> RunLength(p + [grow]) <= bound
  {
    assert (p + [grow])[..|p|] == p;
    assert (p + [false])[|p|] != (p + [true])[|p|];
  }

  lemma {:induction false} AllHistoriesExact(n: nat, bound: nat, h: History)
    ensures h in AllHistories(n, bound) <==> |h| == n && Admissible(h, bound)
  {
    hide Admissible, RunLength, Children, Extend;
    if n == 0 {
      EmptyAdmissible(bound);
    } else {
      ExtendMember(AllHistories(n - 1, bound), bound, h);
      if h != [] {
        var p, grow := h[..|h| - 1], h[|h| - 1];
        AllHistoriesExact(n - 1, bound, p);
        assert h == p + [grow];
        AdmissibleSnoc(p, grow, bound);
        if Admissible(p, bound) {
          AdmissibleEnd(p, bound);
          ChildMember(p, grow, bound);
        }
      }
    }
  }

  lemma EmptyAdmissible(bound: nat)
    ensures Admissible([], bound)
  {}

  lemma AdmissibleEnd(h: History, bound: nat)
    requires Admissible(h, bound)
    ensures RunLength(h) <= bound
  {
    assert h[..|h|] == h;
  }

  lemma AllHistoriesLength(n: nat, bound: nat)
    ensures OfLength(AllHistories(n, bound), n)
    ensures forall h :: h in AllHistories(n, bound) ==> RunLength(h) <= RealSums.Min(n, bound)
  {
    forall h | h in AllHistories(n, bound) ensures |h| == n && RunLength(h) <= RealSums.Min(n, bound) {
      AllHistoriesExact(n, bound, h);
      AdmissibleEnd(h, bound);
    }
  }

  ghost predicate Distinct<T>(s: seq<T>) { forall i, j :: 0 <= i < j < |s| ==> s[i] != s[j] }

  lemma {:induction false} ExtendDistinct(hs: seq<History>, bound: nat)
    requires Distinct(hs)
    ensures Distinct(Extend(hs, bound))
  {
    if hs != [] {
      var n := |hs| - 1;
      var front, kids := Extend(hs[..n], bound), Children(hs[n], bound);
      ExtendDistinct(hs[..n], bound);
      forall e | e in kids ensures e !in front {
        ExtendMember(hs[..n], bound, e);
        assert e[..|e| - 1] == hs[n];
      }
      assert |kids| == 2 ==> kids[0][|hs[n]|] != kids[1][|hs[n]|];
      var all := front + kids;
      forall i, j | 0 <= i < j < |all| ensures all[i] != all[j] {
        if i < |front| <= j {
          assert kids[j - |front|] in kids;
        }
      }
    }
  }

  lemma {:induction false} AllHistoriesDistinct(n: nat, bound: nat)
    ensures Distinct(AllHistories(n, bound))
  {
    if n > 0 {
      AllHistoriesDistinct(n - 1, bound);
      ExtendDistinct(AllHistories(n - 1, bound), bound);
    }
  }

  // ----- The recurrence on masses -----

  lemma {:induction false} ExtendLength(hs: seq<History>, bound: nat, n: nat)
    requires OfLength(hs, n)
    ensures OfLength(Extend(hs, bound), n + 1)
  {
    forall e | e in Extend(hs, bound) ensures |e| == n + 1 {
      ExtendMember(hs, bound, e);
    }
  }

  /** The mass of a list of histories splits over concatenation. */
  lemma {:induction false} MassConcat(m: Model, xs: seq<real>, a: seq<History>, b: seq<History>, r: nat)
    requires m.prior.Valid() && OfLength(a, |xs|) && OfLength(b, |xs|)
    ensures OfLength(a + b, |xs|)
    ensures Mass(m, xs, a + b, r) == Mass(m, xs, a, r) + Mass(m, xs, b, r)
  {
    if b == [] {
      assert a + b == a;
    } else {
      MassConcat(m, xs, a, b[..|b| - 1], r);
      assert (a + b)[..|a + b| - 1] == a + b[..|b| - 1];
    }
  }

  lemma MassSingle(m: Model, xs: seq<real>, h: History, r: nat)
    requires m.prior.Valid() && |h| == |xs|
    ensures Mass(m, xs, [h], r) == if RunLength(h) == r then Weight(m, xs, h) else 0.0
  {
    assert [h][..0] == [];
  }

  lemma ChildWeight(m: Model, xs: seq<real>, x: real, h: History, grow: bool)
    requires m.prior.Valid() && |h| == |xs|
    ensures Weight(m, xs + [x], h + [grow]) == Times(Weight(m, xs, h), Transition(m, xs, RunLength(h), x, grow))
    ensures RunLength(h + [grow]) == if grow then RunLength(h) + 1 else 0
  {
    hide Transition, Times;
    assert (h + [grow])[..|h|] == h && (xs + [x])[..|xs|] == xs;
  }

  /** The children of one history put weight only on the restarted run and the grown run. */
  lemma ChildrenMass(m: Model, xs: seq<real>, x: real, h: History, r: nat)
    requires m.prior.Valid() && |h| == |xs| && RunLength(h) <= m.maxRunLength
    ensures OfLength(Children(h, m.maxRunLength), |xs| + 1)
    ensures Mass(m, xs + [x], Children(h, m.maxRunLength), r)
            == if r == 0 then Times(Weight(m, xs, h), Transition(m, xs, RunLength(h), x, false))
               else if RunLength(h) == r - 1 && r <= m.maxRunLength
               then Times(Weight(m, xs, h), Transition(m, xs, RunLength(h), x, true))
               else 0.0
  {
    hide Transition, Weight, Times, Mass, RunLength;
    var f, t, ys := h + [false], h + [true], xs + [x];
    ChildWeight(m, xs, x, h, false);
    ChildWeight(m, xs, x, h, true);
    MassSingle(m, ys, f, r);
    MassSingle(m, ys, t, r);
    if RunLength(h) < m.maxRunLength {
      MassConcat(m, ys, [f], [t], r);
      assert [f] + [t] == [f, t];
    }
  }

  /** A run of length `r + 1` can only come from a run of length `r` that survived. */
  lemma {:induction false} GrowMass(m: Model, xs: seq<real>, x: real, hs: seq<History>, r: nat)
    requires m.prior.Valid() && OfLength(hs, |xs|) && r < m.maxRunLength && r <= |xs|
    requires forall h :: h in hs ==> RunLength(h) <= m.maxRunLength
    ensures OfLength(Extend(hs, m.maxRunLength), |xs| + 1)
    ensures Mass(m, xs + [x], Extend(hs, m.maxRunLength), r + 1)
            == Times(Mass(m, xs, hs, r), Transition(m, xs, r, x, true))
  {
    hide Transition, Weight, Children, RunLength, Times;
    ExtendLength(hs, m.maxRunLength, |xs|);
    if hs == [] {
      TimesDistributes(0.0, 0.0, Transition(m, xs, r, x, true));
    } else {
      var n := |hs| - 1;
      var h, rest, bound := hs[n], hs[..n], m.maxRunLength;
      GrowMass(m, xs, x, rest, r);
      ChildrenMass(m, xs, x, h, r + 1);
      MassConcat(m, xs + [x], Extend(rest, bound), Children(h, bound), r + 1);
      var before, w, t := Mass(m, xs, rest, r), Weight(m, xs, h), Transition(m, xs, r, x, true);
      TimesDistributes(before, w, t);
    }
  }

  /** The restarting masses of `hs` at run lengths `0 .. size`. */
  function RestartMasses(m: Model, xs: seq<real>, x: real, hs: seq<History>, size: nat): (s: seq<real>)
    requires m.prior.Valid() && OfLength(hs, |xs|) && size <= |xs| + 1
    ensures |s| == size
  {
    seq(size, r requires 0 <= r < size => Times(Mass(m, xs, hs, r), Transition(m, xs, r, x, false)))
  }

  /** Every run can restart, so the restarted mass gathers a term from every run length. */
  lemma {:induction false} ResetMass(m: Model, xs: seq<real>, x: real, hs: seq<History>, size: nat)
    requires m.prior.Valid() && OfLength(hs, |xs|) && size <= |xs| + 1
    requires forall h :: h in hs ==> RunLength(h) <= m.maxRunLength && RunLength(h) < size
    ensures OfLength(Extend(hs, m.maxRunLength), |xs| + 1)
    ensures Mass(m, xs + [x], Extend(hs, m.maxRunLength), 0) == Sum(RestartMasses(m, xs, x, hs, size))
  {
    hide Transition, Weight, Children, RunLength, Times, Mass, Extend, RestartMasses;
    ExtendLength(hs, m.maxRunLength, |xs|);
    if hs == [] {
      RestartNothing(m, xs, x, size);
    } else {
      var n := |hs| - 1;
      var h, rest := hs[n], hs[..n];
      ExtendStep(hs, m.maxRunLength);
      ResetMass(m, xs, x, rest, size);
      ChildrenMass(m, xs, x, h, 0);
      MassConcat(m, xs + [x], Extend(rest, m.maxRunLength), Children(h, m.maxRunLength), 0);
      RestartMassesStep(m, xs, x, hs, size);
      var r, before := RunLength(h), RestartMasses(m, xs, x, rest, size);
      SumUpdate(before, r, before[r] + Times(Weight(m, xs, h), Transition(m, xs, r, x, false)));
    }
  }

  lemma ExtendStep(hs: seq<History>, bound: nat)
    requires hs != []
    ensures Extend(hs, bound) == Extend(hs[..|hs| - 1], bound) + Children(hs[|hs| - 1], bound)
  {}

  lemma RestartNothing(m: Model, xs: seq<real>, x: real, size: nat)
    requires m.prior.Valid() && size <= |xs| + 1
    ensures Extend([], m.maxRunLength) == []
    ensures Mass(m, xs + [x], [], 0) == Sum(RestartMasses(m, xs, x, [], size)) == 0.0
  {
    var all := RestartMasses(m, xs, x, [], size);
    SumScale(all, all, 0.0);
  }

  /** One more history adds to the entry of its own run length only. */
  lemma RestartMassesStep(m: Model, xs: seq<real>, x: real, hs: seq<History>, size: nat)
    requires m.prior.Valid() && OfLength(hs, |xs|) && size <= |xs| + 1
    requires hs != [] && RunLength(hs[|hs| - 1]) < size
    ensures var h, rest := hs[|hs| - 1], hs[..|hs| - 1];
            var r, before := RunLength(h), RestartMasses(m, xs, x, rest, size);
            var added := Times(Weight(m, xs, h), Transition(m, xs, r, x, false));
            RestartMasses(m, xs, x, hs, size) == before[r := before[r] + added]
  {
    hide Transition, Weight, RunLength, Times, Mass;
    var h, rest := hs[|hs| - 1], hs[..|hs| - 1];
    var r := RunLength(h);
    var all, before := RestartMasses(m, xs, x, hs, size), RestartMasses(m, xs, x, rest, size);
    var added := Times(Weight(m, xs, h), Transition(m, xs, r, x, false));
    forall i | 0 <= i < size ensures all[i] == before[r := before[r] + added][i] {
      MassSnoc(m, xs, hs, i);
      TimesDistributes(Mass(m, xs, rest, i), Weight(m, xs, h), Transition(m, xs, i, x, false));
    }
  }

  lemma NoMass(m: Model, xs: seq<real>, r: nat)
    requires m.prior.Valid()
    ensures Mass(m, xs, [], r) == 0.0
  {}

  lemma MassSnoc(m: Model, xs: seq<real>, hs: seq<History>, r: nat)
    requires m.prior.Valid() && OfLength(hs, |xs|) && hs != []
    ensures var h, rest := hs[|hs| - 1], hs[..|hs| - 1];
            Mass(m, xs, hs, r) == Mass(m, xs, rest, r) + if RunLength(h) == r then Weight(m, xs, h) else 0.0
  {}

  /** Splitting by the final run length loses nothing. */
  lemma {:induction false} TotalIsSumOfMasses(m: Model, xs: seq<real>, hs: seq<History>, size: nat, masses: seq<real>)
    requires m.prior.Valid() && OfLength(hs, |xs|)
    requires forall h :: h in hs ==> RunLength(h) < size
    requires |masses| == size && forall r :: 0 <= r < size ==> masses[r] == Mass(m, xs, hs, r)
    ensures TotalMass(m, xs, hs) == Sum(masses)
  {
    hide Weight, RunLength, Mass;
    if hs == [] {
      forall i | 0 <= i < size ensures masses[i] == 0.0 { NoMass(m, xs, i); }
      SumScale(masses, masses, 0.0);
    } else {
      var n := |hs| - 1;
      var before := seq(size, r requires 0 <= r < size => Mass(m, xs, hs[..n], r));
      TotalIsSumOfMasses(m, xs, hs[..n], size, before);
      var r := RunLength(hs[n]);
      forall i | 0 <= i < size ensures masses[i] == before[r := before[r] + Weight(m, xs, hs[n])][i] {
        MassSnoc(m, xs, hs, i);
      }
      assert masses == before[r := before[r] + Weight(m, xs, hs[n])];
      SumUpdate(before, r, before[r] + Weight(m, xs, hs[n]));
    }
  }
}
