/** Episode clusters of validation rows: what summing rows by cluster keeps. */
module Clusters {
  import opened RealSums

  /** An entity and one of its episodes. */
  datatype Key = Key(entity: string, episode: string)

  datatype Row = Row(cluster: Key, weight: real, outcome: bool)

  /** Everything a support summary reads off its rows, in one pass. */
  datatype Totals = Totals(observations: nat, positives: nat, weight: real, positiveWeight: real,
                           scale: real, squares: real, clusters: map<Key, real>)

  const EMPTY := Totals(0, 0, 0.0, 0.0, 0.0, 0.0, map[])

  function Get(m: map<Key, real>, k: Key): (w: real) { if k in m then m[k] else 0.0 }

  function Added(m: map<Key, real>, k: Key, w: real): (r: map<Key, real>) { m[k := Get(m, k) + w] }

  function Absorb(t: Totals, row: Row): (r: Totals) {
    Totals(t.observations + 1,
           t.positives + (if row.outcome then 1 else 0),
           t.weight + row.weight,
           t.positiveWeight + (if row.outcome then row.weight else 0.0),
           Max(t.scale, row.weight),
           t.squares + Square(row.weight),
           Added(t.clusters, row.cluster, row.weight))
  }

  function Gather(rows: seq<Row>): (t: Totals) {
    if rows == [] then EMPTY else Absorb(Gather(rows[..|rows| - 1]), rows[|rows| - 1])
  }

  // ----- Row order does not matter -----

  lemma AbsorbCommutes(t: Totals, x: Row, y: Row)
    ensures Absorb(Absorb(t, x), y) == Absorb(Absorb(t, y), x)
  {
    hide Square;
    AddedCommutes(t.clusters, x, y);
  }

  lemma AddedCommutes(m: map<Key, real>, x: Row, y: Row)
    ensures Added(Added(m, x.cluster, x.weight), y.cluster, y.weight)
            == Added(Added(m, y.cluster, y.weight), x.cluster, x.weight)
  {
    var a := Added(Added(m, x.cluster, x.weight), y.cluster, y.weight);
    var b := Added(Added(m, y.cluster, y.weight), x.cluster, x.weight);
    assert a.Keys == b.Keys;
    assert forall k :: k in a ==> a[k] == b[k];
  }

  lemma GatherSnoc(rows: seq<Row>, x: Row)
    ensures Gather(rows + [x]) == Absorb(Gather(rows), x)
  {
    assert (rows + [x])[..|rows|] == rows;
  }

  lemma {:induction false} GatherMoves(front: seq<Row>, x: Row, back: seq<Row>)
    ensures Gather(front + [x] + back) == Absorb(Gather(front + back), x)
  {
    hide Absorb, Gather;
    if back == [] {
      assert front + [x] + back == front + [x] && front + back == front;
      GatherSnoc(front, x);
    } else {
      var init, y := back[..|back| - 1], back[|back| - 1];
      GatherMoves(front, x, init);
      assert front + [x] + back == (front + [x] + init) + [y] && front + back == (front + init) + [y];
      GatherSnoc(front + [x] + init, y);
      GatherSnoc(front + init, y);
      AbsorbCommutes(Gather(front + init), x, y);
    }
  }

  lemma {:induction false} GatherPermutation(a: seq<Row>, b: seq<Row>)
    requires multiset(a) == multiset(b)
    ensures Gather(a) == Gather(b)
  {
    hide Absorb;
    if a == [] {
      assert |multiset(b)| == 0;
    } else {
      var i := FindLast(a, b);
      GatherPermutation(a[..|a| - 1], b[..i] + b[i + 1..]);
      GatherMoves(b[..i], b[i], b[i + 1..]);
    }
  }

  // ----- Summing two disjoint sets of clusters -----

  function KeysOf(rows: seq<Row>): (s: set<Key>) { set i | 0 <= i < |rows| :: rows[i].cluster }

  lemma {:induction false} GatherKeys(rows: seq<Row>)
    ensures Gather(rows).clusters.Keys == KeysOf(rows)
  {
    hide Absorb;
    if rows != [] {
      var n := |rows| - 1;
      GatherKeys(rows[..n]);
      AbsorbKeys(Gather(rows[..n]), rows[n]);
      assert rows == rows[..n] + [rows[n]];
    }
  }

  lemma AbsorbKeys(t: Totals, row: Row)
    ensures Absorb(t, row).clusters.Keys == t.clusters.Keys + {row.cluster}
  {}

  /** The totals of two groups of rows that share no cluster. */
  function Joined(a: Totals, b: Totals): (t: Totals) {
    Totals(a.observations + b.observations, a.positives + b.positives, a.weight + b.weight,
           a.positiveWeight + b.positiveWeight, Max(a.scale, b.scale), a.squares + b.squares,
           a.clusters + b.clusters)
  }

  lemma {:induction false} GatherConcat(a: seq<Row>, b: seq<Row>)
    requires KeysOf(a) !! KeysOf(b)
    ensures Gather(a + b) == Joined(Gather(a), Gather(b))
  {
    hide Absorb;
    if b == [] {
      assert a + b == a;
      ScaleNonNegative(a);
      JoinedEmpty(Gather(a));
    } else {
      var init, x := b[..|b| - 1], b[|b| - 1];
      assert KeysOf(init) <= KeysOf(b);
      GatherConcat(a, init);
      assert a + b == (a + init) + [x];
      GatherSnoc(a + init, x);
      GatherKeys(a);
      assert x.cluster in KeysOf(b);
      JoinedAbsorbs(Gather(a), Gather(init), x);
    }
  }

  lemma ScaleNonNegative(rows: seq<Row>)
    ensures Gather(rows).scale >= 0.0
  {}

  lemma JoinedEmpty(a: Totals)
    requires a.scale >= 0.0
    ensures Joined(a, EMPTY) == a
  {
    assert a.clusters + map[] == a.clusters;
  }

  lemma JoinedAbsorbs(a: Totals, b: Totals, x: Row)
    requires x.cluster !in a.clusters
    ensures Joined(a, Absorb(b, x)) == Absorb(Joined(a, b), x)
  {
    hide Square;
    var l, r := Joined(a, Absorb(b, x)).clusters, Absorb(Joined(a, b), x).clusters;
    assert l.Keys == r.Keys;
    assert forall k :: k in l ==> l[k] == r[k];
  }

  // ----- Reading a map as a list -----

  /** Some listing of a set, each element once. */
  ghost function Listing(s: set<Key>): (ks: seq<Key>)
    ensures multiset(ks) == multiset(s)
  {
    if s == {} then [] else
      var k :| k in s;
      Listing(s - {k}) + [k]
  }

  function Read(m: map<Key, real>, ks: seq<Key>): (ws: seq<real>)
    ensures |ws| == |ks|
  {
    if ks == [] then [] else Read(m, ks[..|ks| - 1]) + [Get(m, ks[|ks| - 1])]
  }

  lemma {:induction false} ReadConcat(m: map<Key, real>, ks: seq<Key>, ls: seq<Key>)
    ensures Read(m, ks + ls) == Read(m, ks) + Read(m, ls)
  {
    hide Get;
    if ls == [] {
      assert ks + ls == ks;
    } else {
      ReadConcat(m, ks, ls[..|ls| - 1]);
      assert (ks + ls)[..|ks + ls| - 1] == ks + ls[..|ls| - 1];
    }
  }

  lemma {:induction false} ReadAgrees(m: map<Key, real>, other: map<Key, real>, ks: seq<Key>)
    requires forall i :: 0 <= i < |ks| ==> Get(m, ks[i]) == Get(other, ks[i])
    ensures Read(m, ks) == Read(other, ks)
  {
    hide Get;
    if ks != [] { ReadAgrees(m, other, ks[..|ks| - 1]); }
  }

  ghost function Values(m: map<Key, real>): (ws: seq<real>)
    ensures |ws| == |m|
  {
    var ks := Listing(m.Keys);
    assert |multiset(ks)| == |ks| && |multiset(m.Keys)| == |m.Keys|;
    Read(m, ks)
  }

  lemma InsertedAnywhere(c: seq<real>, front: seq<real>, x: real, back: seq<real>)
    requires multiset(c) == multiset(front + back)
    ensures multiset(c + [x]) == multiset(front + [x] + back)
  {}

  /** Any two listings give the same values up to order. */
  lemma {:induction false} ReadPermutation(m: map<Key, real>, ks: seq<Key>, ls: seq<Key>)
    requires multiset(ks) == multiset(ls)
    ensures multiset(Read(m, ks)) == multiset(Read(m, ls))
  {
    hide Get, Read;
    if ks == [] {
      assert |multiset(ls)| == 0;
    } else {
      var n := |ks| - 1;
      var i := FindLast(ks, ls);
      var front, back, k := ls[..i], ls[i + 1..], ls[i];
      ReadPermutation(m, ks[..n], front + back);
      ReadConcat(m, front, back);
      ReadInsert(m, front, k, back);
      assert ks == ks[..n] + [k] + [];
      ReadInsert(m, ks[..n], k, []);
      InsertedAnywhere(Read(m, ks[..n]), Read(m, front), Get(m, k), Read(m, back));
    }
  }

  lemma ReadInsert(m: map<Key, real>, front: seq<Key>, k: Key, back: seq<Key>)
    ensures Read(m, front + [k] + back) == Read(m, front) + [Get(m, k)] + Read(m, back)
  {
    hide Get;
    ReadConcat(m, front + [k], back);
    ReadConcat(m, front, [k]);
    ReadOne(m, k);
  }

  lemma ReadOne(m: map<Key, real>, k: Key)
    ensures Read(m, [k]) == [Get(m, k)]
  {
    hide Get;
    assert [k][..0] == [];
  }

  lemma ValuesOfUnion(a: map<Key, real>, b: map<Key, real>)
    requires a.Keys !! b.Keys
    ensures multiset(Values(a + b)) == multiset(Values(a) + Values(b))
  {
    hide Get;
    hide Listing, Read;
    var m, ks, ls := a + b, Listing(a.Keys), Listing(b.Keys);
    assert m.Keys == a.Keys + b.Keys;
    assert multiset(ks + ls) == multiset(m.Keys);
    ReadPermutation(m, Listing(m.Keys), ks + ls);
    ReadConcat(m, ks, ls);
    forall i | 0 <= i < |ks| ensures Get(m, ks[i]) == Get(a, ks[i]) { ReadLeft(a, b, ks, i); }
    forall i | 0 <= i < |ls| ensures Get(m, ls[i]) == Get(b, ls[i]) { ReadRight(a, b, ls, i); }
    ReadAgrees(m, a, ks);
    ReadAgrees(m, b, ls);
  }

  lemma ReadLeft(a: map<Key, real>, b: map<Key, real>, ks: seq<Key>, i: nat)
    requires a.Keys !! b.Keys && multiset(ks) == multiset(a.Keys) && i < |ks|
    ensures Get(a + b, ks[i]) == Get(a, ks[i])
  {
    assert ks[i] in multiset(ks);
  }

  lemma ReadRight(a: map<Key, real>, b: map<Key, real>, ks: seq<Key>, i: nat)
    requires multiset(ks) == multiset(b.Keys) && i < |ks|
    ensures Get(a + b, ks[i]) == Get(b, ks[i])
  {
    assert ks[i] in multiset(ks);
  }

  lemma ValuesOfNew(m: map<Key, real>, k: Key, w: real)
    requires k !in m
    ensures multiset(Values(m[k := w])) == multiset(Values(m) + [w])
  {
    hide Values;
    assert m[k := w] == m + map[k := w];
    ValuesOfUnion(m, map[k := w]);
    ValuesOfOne(k, w);
  }

  lemma ValuesOfOne(k: Key, w: real)
    ensures Values(map[k := w]) == [w]
  {
    var one := map[k := w];
    assert one.Keys == {k};
    var ks := Listing(one.Keys);
    assert |multiset(ks)| == |ks| == 1;
    assert ks[0] in multiset(ks);
    assert ks == [k];
    ReadOne(one, k);
  }

  lemma SumOfNew(m: map<Key, real>, k: Key, w: real)
    requires k !in m
    ensures Sum(Values(m[k := w])) == Sum(Values(m)) + w
  {
    hide Values;
    ValuesOfNew(m, k, w);
    SumPermutation(Values(m[k := w]), Values(m) + [w]);
    SumSnoc(Values(m), w);
  }

  /** One row moves the sum over clusters by its own weight, whether its cluster is new or not. */
  lemma AddedSum(m: map<Key, real>, k: Key, w: real)
    ensures Sum(Values(Added(m, k, w))) == Sum(Values(m)) + w
  {
    hide Values, Sum, Added;
    if k !in m {
      AddedNew(m, k, w);
      SumOfNew(m, k, w);
    } else {
      var rest := Without(m, k);
      AddedAgain(m, k, w);
      SumOfNew(rest, k, m[k]);
      SumOfNew(rest, k, m[k] + w);
    }
  }

  function Without(m: map<Key, real>, k: Key): (r: map<Key, real>)
    ensures k !in r
  {
    m - {k}
  }

  lemma AddedNew(m: map<Key, real>, k: Key, w: real)
    requires k !in m
    ensures Added(m, k, w) == m[k := w]
  {}

  lemma AddedAgain(m: map<Key, real>, k: Key, w: real)
    requires k in m
    ensures Without(m, k)[k := m[k]] == m
    ensures Without(m, k)[k := m[k] + w] == Added(m, k, w)
  {}

  /** Grouping by cluster conserves the total weight. */
  lemma {:induction false} ClustersConserve(rows: seq<Row>)
    ensures Sum(Values(Gather(rows).clusters)) == Gather(rows).weight
  {
    hide Values, Added;
    if rows == [] {
      NoValues();
    } else {
      var n := |rows| - 1;
      ClustersConserve(rows[..n]);
      AddedSum(Gather(rows[..n]).clusters, rows[n].cluster, rows[n].weight);
    }
  }

  lemma NoValues()
    ensures Sum(Values(map[])) == 0.0
  {
    assert Values(map[]) == [];
  }
}
