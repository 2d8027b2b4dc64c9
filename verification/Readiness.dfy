/**
 Exactly when "ready" means "complete": a watch that stirs without being set, in
 the middle of one poll of the consumer, ends the run as if the fixture were over.
 */
module Readiness {
  import opened Results
  import opened Ingestion
  import opened Runtime
  import opened Lifecycle

  /** The first `k` records of the fixture replay to an engine the final check accepts. */
  predicate ReplaysReady<B>(c: Config<B>, k: nat)
    requires k <= |c.fixture|
  {
    var s := Recover(c.venue, c.fixture[..k]);
    s.error.None? && Presentable(c, s.engine)
  }

  predicate IsReady<B>(w: World<B>) { w.phase.Down? && w.phase.outcome.Ready? }

  // ----- A first run that has ingested k records and rests -----

  function Ingested<B>(c: Config<B>, k: nat): (r: Run<B>)
    requires k <= |c.fixture|
  {
    Run(Recover(c.venue, c.fixture[..k]).engine, 0, 1, k + 1, 0, c.fixture[k..], true, false, c.fixture[..k], [],
        Nothing, Due, false, false, false)
  }

  function FirstLog<B>(c: Config<B>, k: nat): (log: seq<WalRecord>)
    requires k <= |c.fixture|
  {
    if k == 0 then [] else FirstLog(c, k - 1) + [WalRecord(c.fixture[k - 1], Some(Metadata(0, 7, 1, k, 0)))]
  }

  lemma {:induction false} FirstLogPayloads<B>(c: Config<B>, k: nat)
    requires k <= |c.fixture|
    ensures |FirstLog(c, k)| == k && Payloads(FirstLog(c, k)) == c.fixture[..k]
  {
    if k > 0 { FirstLogPayloads(c, k - 1); }
  }

  lemma FirstStart<B>(c: Config<B>)
    ensures Enabled(c, Init(), Start) && Take(c, Init(), Start) == World([], Live(Ingested(c, 0)))
  {
    hide WellFormedLog, Recover;
    EmptyLogGood(c);
    RecoverNothing(c);
    assert c.fixture[0..] == c.fixture && c.fixture[..0] == [];
  }

  lemma RecoverNothing<B>(c: Config<B>)
    ensures Recover(c.venue, c.fixture[..0]) == Step(Fresh(c.venue), None)
  {}

  /** What one move does, as one step of a world. */
  ghost predicate Steps<B>(c: Config<B>, w: World<B>, m: Move, next: World<B>) {
    Enabled(c, w, Within(m)) && Take(c, w, Within(m)) == next
  }

  lemma OfferAndTake<B>(c: Config<B>, log: seq<WalRecord>, r: Run<B>)
    requires c.capacity >= 1 && r.remaining != [] && r.queue == [] && r.inFlight == Nothing && r.poll == Due
    requires r.producing && !r.stirred && !r.closed
    ensures var x := r.remaining[0];
            var offered := r.(queue := [x], accepted := r.accepted + [x], remaining := r.remaining[1..]);
            && Steps(c, World(log, Live(r)), Produce, World(log, Live(offered)))
            && Steps(c, World(log, Live(offered)), SeeWatch, World(log, Live(offered.(poll := WatchSeen))))
            && Steps(c, World(log, Live(offered.(poll := WatchSeen))), Receive,
                     World(log, Live(offered.(queue := [], inFlight := Taken(x)))))
  {
    assert [] + [r.remaining[0]] == [r.remaining[0]];
    assert [r.remaining[0]][1..] == [];
  }

  lemma PersistAndApply<B>(c: Config<B>, log: seq<WalRecord>, r: Run<B>, x: Payload)
    requires r.inFlight == Taken(x) && r.nextSequence < U64_MAX && r.clock == 0
    requires Process(c.venue, r.engine, x).error.None?
    ensures var longer, kept := log + [Record(r, 0)],
                                r.(nextSequence := r.nextSequence + 1, inFlight := Persisted(x));
            && Steps(c, World(log, Live(r)), Append(Durable, 0), World(longer, Live(kept)))
            && Steps(c, World(longer, Live(kept)), ProcessRecord,
                     World(longer, Live(kept.(engine := Process(c.venue, r.engine, x).engine, inFlight := Nothing))))
  {
    hide Process;
  }

  /** Five moves ingest one more record. */
  lemma OneMoreIngested<B>(c: Config<B>, k: nat, actions: seq<Action>) returns (more: seq<Action>)
    requires c.capacity >= 1 && k < |c.fixture| && |c.fixture| < U64_MAX
    requires Recover(c.venue, c.fixture[..k + 1]).error.None?
    requires After(c, actions) == Some(World(FirstLog(c, k), Live(Ingested(c, k))))
    ensures After(c, more) == Some(World(FirstLog(c, k + 1), Live(Ingested(c, k + 1))))
  {
    hide After, Recover, Process, Take, Enabled, MoveTo;
    var log, r, x := FirstLog(c, k), Ingested(c, k), c.fixture[k];
    RecoverSnoc(c.venue, c.fixture, k);
    OfferAndTake(c, log, r);
    var offered := r.(queue := [x], accepted := r.accepted + [x], remaining := r.remaining[1..]);
    var taken := offered.(queue := [], inFlight := Taken(x));
    PersistAndApply(c, log, taken, x);
    AfterSnoc(c, actions, Within(Produce));
    var a1 := actions + [Within(Produce)];
    AfterSnoc(c, a1, Within(SeeWatch));
    var a2 := a1 + [Within(SeeWatch)];
    AfterSnoc(c, a2, Within(Receive));
    var a3 := a2 + [Within(Receive)];
    AfterSnoc(c, a3, Within(Append(Durable, 0)));
    var a4 := a3 + [Within(Append(Durable, 0))];
    AfterSnoc(c, a4, Within(ProcessRecord));
    more := a4 + [Within(ProcessRecord)];
    assert c.fixture[k..][1..] == c.fixture[k + 1..] && c.fixture[..k] + [x] == c.fixture[..k + 1];
  }

  lemma {:induction false} IngestPrefix<B>(c: Config<B>, k: nat) returns (actions: seq<Action>)
    requires c.capacity >= 1 && k <= |c.fixture| < U64_MAX && Recover(c.venue, c.fixture[..k]).error.None?
    ensures After(c, actions) == Some(World(FirstLog(c, k), Live(Ingested(c, k))))
  {
    hide After, Recover;
    if k == 0 {
      FirstStart(c);
      AfterNothing(c);
      AfterSnoc(c, [], Start);
      actions := [] + [Start];
    } else {
      if Recover(c.venue, c.fixture[..k - 1]).error.Some? { RecoverErrorStays(c.venue, c.fixture, k - 1, k); }
      var before := IngestPrefix(c, k - 1);
      actions := OneMoreIngested(c, k - 1, before);
    }
  }

  /** The watch stirs, unset, after the consumer looked at it and before it looked at the queue. */
  lemma CutShort<B>(c: Config<B>, log: seq<WalRecord>, r: Run<B>)
    requires r.queue == [] && r.inFlight == Nothing && r.poll == Due && r.producing && !r.producerFailed
    requires !r.stirred && !r.cancelSet && !r.closed && Presentable(c, r.engine)
    ensures var seen := r.(poll := WatchSeen);
            var stirred := seen.(stirred := true);
            && Steps(c, World(log, Live(r)), SeeWatch, World(log, Live(seen)))
            && Steps(c, World(log, Live(seen)), Signalled(false), World(log, Live(stirred)))
            && Steps(c, World(log, Live(stirred)), ProducerEnds, World(log, Live(stirred.(producing := false))))
            && Steps(c, World(log, Live(stirred.(producing := false))), Finish,
                     World(log, Down(Ready(r.engine, true))))
  {}

  /** A run over a prefix that already looks final can report ready right there. */
  lemma PrefixReportsReady<B>(c: Config<B>, k: nat) returns (actions: seq<Action>)
    requires c.capacity >= 1 && k <= |c.fixture| < U64_MAX && ReplaysReady(c, k)
    ensures After(c, actions).Some? && IsReady(After(c, actions).value)
    ensures Payloads(After(c, actions).value.log) == c.fixture[..k]
  {
    hide After, Recover, Presentable, Take, Enabled;
    var a0 := IngestPrefix(c, k);
    var log, r := FirstLog(c, k), Ingested(c, k);
    CutShort(c, log, r);
    FirstLogPayloads(c, k);
    AfterSnoc(c, a0, Within(SeeWatch));
    var a1 := a0 + [Within(SeeWatch)];
    AfterSnoc(c, a1, Within(Signalled(false)));
    var a2 := a1 + [Within(Signalled(false))];
    AfterSnoc(c, a2, Within(ProducerEnds));
    var a3 := a2 + [Within(ProducerEnds)];
    AfterSnoc(c, a3, Within(Finish));
    actions := a3 + [Within(Finish)];
  }

  /** Every ready run has logged the whole fixture exactly when no shorter prefix already passes the final check. */
  lemma ReadyMeansCompleteIff<B>(c: Config<B>)
    requires c.capacity >= 1 && |c.fixture| < U64_MAX
    ensures (forall actions: seq<Action> ::
               After(c, actions).Some? && IsReady(After(c, actions).value) ==>
                 Payloads(After(c, actions).value.log) == c.fixture)
            <==> forall k :: 0 <= k < |c.fixture| ==> !ReplaysReady(c, k)
  {
    hide After, Recover, Presentable;
    if k :| 0 <= k < |c.fixture| && ReplaysReady(c, k) {
      var actions := PrefixReportsReady(c, k);
      assert |Payloads(After(c, actions).value.log)| == k;
    } else {
      forall actions: seq<Action> | After(c, actions).Some? && IsReady(After(c, actions).value)
        ensures Payloads(After(c, actions).value.log) == c.fixture
      {
        var w := After(c, actions).value;
        ReadyMatchesUninterrupted(c, actions, w.phase.outcome.engine, w.phase.outcome.stirred);
        assert |Payloads(w.log)| < |c.fixture| ==> ReplaysReady(c, |w.log|);
      }
    }
  }

  /** So a fixture that ends ready and is then lengthened can be cut short at its old end. */
  lemma LengthenedFixtureCutsShort<B>(c: Config<B>, more: seq<Payload>) returns (actions: seq<Action>)
    requires c.capacity >= 1 && more != [] && |c.fixture + more| < U64_MAX && ReplaysReady(c, |c.fixture|)
    ensures var longer := c.(fixture := c.fixture + more);
            && After(longer, actions).Some? && IsReady(After(longer, actions).value)
            && Payloads(After(longer, actions).value.log) == c.fixture != longer.fixture
  {
    hide After, Recover;
    var longer, k := c.(fixture := c.fixture + more), |c.fixture|;
    assert longer.fixture[..k] == c.fixture[..k] == c.fixture;
    assert |longer.fixture| > |c.fixture|;
    actions := PrefixReportsReady(longer, k);
  }
}
