/**
 Whole lives of the daemon: any number of starts, partial ingests, cancellations,
 failures and crashes over one durable log.
 */
module Lifecycle {
  import opened Results
  import opened Ingestion
  import opened Runtime

  /** The foreign book, the frozen fixture, the queue bound and the best prices a finished run must show. */
  datatype Config<!B> = Config(
    venue: Venue<B>,
    fixture: seq<Payload>,
    capacity: nat,
    bestBid: int,
    bestAsk: int)

  const EXPECTED_SOURCE: string := "binance-fixture"
  const EXPECTED_INSTRUMENT: string := "BTCUSDT"
  const EXPECTED_FINAL_SEQUENCE: nat := 102

  predicate FinalSnapshot<B>(c: Config<B>, p: Published, health: Health) {
    && p.source == EXPECTED_SOURCE
    && p.instrument == EXPECTED_INSTRUMENT
    && p.sequence == EXPECTED_FINAL_SEQUENCE
    && p.bestBid == c.bestBid
    && p.bestAsk == c.bestAsk
    && health == Healthy
  }

  /** What an engine must show before the daemon may report ready. */
  predicate Presentable<B>(c: Config<B>, e: Engine<B>) {
    e.published.Some? && FinalSnapshot(c, e.published.value, e.health)
  }

  /** One poll of the consumer's biased select: not begun, watch seen unchanged, or parked until something happens. */
  datatype Poll = Due | WatchSeen | Parked

  /** The record the consumer holds between the queue and the engine. */
  datatype InFlight = Nothing | Taken(payload: Payload) | Persisted(payload: Payload)

  /**
   One run. The watch is `stirred` once anyone sends to it or its owner drops it;
   `cancelSet` is the value it holds.
   */
  datatype Run<B> = Run(
    engine: Engine<B>,
    recovered: nat,
    epoch: nat,
    nextSequence: nat,
    clock: nat,
    remaining: seq<Payload>,
    producing: bool,
    producerFailed: bool,
    accepted: seq<Payload>,
    queue: seq<Payload>,
    inFlight: InFlight,
    poll: Poll,
    stirred: bool,
    cancelSet: bool,
    closed: bool)

  datatype Outcome<B> =
    | NeverStarted
    | Crashed
    | Cancelled
    | Stopped(error: RuntimeError)
    | Ready(engine: Engine<B>, stirred: bool)

  datatype Phase<B> = Down(outcome: Outcome<B>) | Live(run: Run<B>)

  datatype World<B> = World(log: seq<WalRecord>, phase: Phase<B>)

  /** Replay a list of records into a fresh engine, stopping at the first error. */
  function Recover<B>(v: Venue<B>, raws: seq<Payload>): (s: Step<B>) {
    if raws == [] then Step(Fresh(v), None)
    else
      var before := Recover(v, raws[..|raws| - 1]);
      if before.error.Some? then before else Process(v, before.engine, raws[|raws| - 1])
  }

  function NextEpoch(log: seq<WalRecord>): (e: nat) {
    match LastCapture(log)
    case None => 1
    case Some(c) => c.epoch + 1
  }

  /** What the producer, the consumer and the outside can do inside one run. */
  datatype Move =
    | Produce
    | ProducerSeesClosed
    | ProducerEnds
    | SeeWatch
    | Park
    | Receive
    | Append(fate: AppendFate, now: nat)
    | ProcessRecord
    | Signalled(cancelSet: bool)
    | Close
    | Finish

  datatype Action = Start | CancelStartup | Crash | Within(move: Move)

  predicate CanMove<B>(c: Config<B>, r: Run<B>, m: Move) {
    match m
    case Produce => r.producing && r.remaining != [] && !r.closed && |r.queue| < c.capacity
    case ProducerSeesClosed => r.producing && r.remaining != [] && r.closed
    case ProducerEnds => r.producing && (r.remaining == [] || r.stirred)
    case SeeWatch => r.inFlight.Nothing? && r.poll == Due && (!r.stirred || r.closed)
    case Park => r.poll == WatchSeen && r.queue == [] && r.producing
    case Receive => r.poll == WatchSeen && r.queue != []
    case Append(fate, now) => r.inFlight.Taken? && now >= r.clock
    case ProcessRecord => r.inFlight.Persisted?
    case Signalled(cancelSet) => true
    case Close => r.inFlight.Nothing? && r.poll != WatchSeen && r.stirred && !r.closed
    case Finish => r.poll == WatchSeen && r.queue == [] && !r.producing
  }

  predicate Enabled<B>(c: Config<B>, w: World<B>, a: Action) {
    match a
    case Start => w.phase.Down?
    case CancelStartup => w.phase.Down?
    case Crash => w.phase.Live?
    case Within(move) => w.phase.Live? && CanMove(c, w.phase.run, move)
  }

  function Begin<B>(c: Config<B>, log: seq<WalRecord>): (p: Phase<B>) {
    if !(IsPrefix(Payloads(log), c.fixture) && WellFormedLog(log)) then Down(Stopped(RecoveryMismatch))
    else if NextEpoch(log) > U64_MAX then Down(Stopped(RecordSequenceOverflow))
    else
      var s := Recover(c.venue, c.fixture[..|log|]);
      if s.error.Some? then Down(Stopped(s.error.value))
      else Live(Run(s.engine, |log|, NextEpoch(log), 1, 0, c.fixture[|log|..], true, false, [], [], Nothing, Due,
                    false, false, false))
  }

  function Record<B>(r: Run<B>, now: nat): (w: WalRecord)
    requires r.inFlight.Taken?
  {
    WalRecord(r.inFlight.payload, Some(Metadata(0, 7, r.epoch, r.nextSequence, now)))
  }

  function AppendRecord<B>(log: seq<WalRecord>, r: Run<B>, fate: AppendFate, now: nat): (w: World<B>)
    requires r.inFlight.Taken?
  {
    if r.nextSequence >= U64_MAX || fate == Lost then World(log, Down(Stopped(Persistence)))
    else
      var longer := log + [Record(r, now)];
      if fate == DurableButFailed then World(longer, Down(Stopped(Persistence)))
      else World(longer, Live(r.(nextSequence := r.nextSequence + 1, clock := now,
                                 inFlight := Persisted(r.inFlight.payload))))
  }

  /** The consumer loop has ended: join the producer, then report. */
  function Conclude<B>(c: Config<B>, r: Run<B>): (o: Outcome<B>) {
    if r.producerFailed then Stopped(QueueClosed)
    else if r.closed || r.cancelSet then Cancelled
    else match r.engine.published
      case None => Stopped(MissingSnapshot)
      case Some(p) =>
        if !FinalSnapshot(c, p, r.engine.health) then Stopped(UnexpectedFinalSnapshot)
        else Ready(r.engine, r.stirred)
  }

  /** A parked consumer polls again when the queue changes under it. */
  function Woken(p: Poll): (q: Poll) { if p == Parked then Due else p }

  function MoveTo<B>(c: Config<B>, log: seq<WalRecord>, r: Run<B>, m: Move): (w: World<B>)
    requires CanMove(c, r, m)
  {
    match m
    case Produce =>
      World(log, Live(r.(queue := r.queue + [r.remaining[0]], accepted := r.accepted + [r.remaining[0]],
                         remaining := r.remaining[1..], poll := Woken(r.poll))))
    case ProducerSeesClosed =>
      if r.cancelSet then World(log, Live(r.(remaining := r.remaining[1..])))
      else World(log, Live(r.(producing := false, producerFailed := true, poll := Woken(r.poll))))
    case ProducerEnds => World(log, Live(r.(producing := false, poll := Woken(r.poll))))
    case SeeWatch => World(log, Live(r.(poll := WatchSeen)))
    case Park => World(log, Live(r.(poll := Parked)))
    case Receive => World(log, Live(r.(queue := r.queue[1..], inFlight := Taken(r.queue[0]), poll := Due)))
    case Append(fate, now) => AppendRecord(log, r, fate, now)
    case ProcessRecord =>
      var s := Process(c.venue, r.engine, r.inFlight.payload);
      if s.error.Some? then World(log, Down(Stopped(s.error.value)))
      else World(log, Live(r.(engine := s.engine, inFlight := Nothing)))
    case Signalled(cancelSet) => World(log, Live(r.(stirred := true, cancelSet := cancelSet)))
    case Close => World(log, Live(r.(closed := true, poll := Due)))
    case Finish => World(log, Down(Conclude(c, r)))
  }

  function Take<B>(c: Config<B>, w: World<B>, a: Action): (w': World<B>)
    requires Enabled(c, w, a)
  {
    match a
    case Start => World(w.log, Begin(c, w.log))
    case CancelStartup => World(w.log, Down(Cancelled))
    case Crash => World(w.log, Down(Crashed))
    case Within(move) => MoveTo(c, w.log, w.phase.run, move)
  }

  function Init<B>(): (w: World<B>) { World([], Down(NeverStarted)) }

  /** The world a list of actions leads to, when each is enabled in turn. */
  function After<B>(c: Config<B>, actions: seq<Action>): (w: Option<World<B>>) {
    if actions == [] then Some(Init())
    else
      var n := |actions| - 1;
      var before := After(c, actions[..n]);
      if before.Some? && Enabled(c, before.value, actions[n]) then Some(Take(c, before.value, actions[n])) else None
  }

  // ----- What every step keeps -----

  /** The records between the log and what the producer has yet to offer. */
  function Pending<B>(r: Run<B>): (ps: seq<Payload>) {
    (if r.inFlight.Taken? then [r.inFlight.payload] else []) + r.queue
  }

  function Processed<B>(w: World<B>, r: Run<B>): (n: int) { if r.inFlight.Persisted? then |w.log| - 1 else |w.log| }

  /** Log, pending records and the producer's rest spell out the fixture, in order. */
  ghost predicate InOrder<B>(c: Config<B>, log: seq<WalRecord>, r: Run<B>) {
    && IsPrefix(Payloads(log) + Pending(r), c.fixture)
    && (!r.closed ==> Payloads(log) + Pending(r) + r.remaining == c.fixture)
    && r.recovered <= |log|
    && Payloads(log)[r.recovered..] + Pending(r) == r.accepted
    && |r.queue| <= c.capacity
    && (r.inFlight.Persisted? ==> |log| > r.recovered && log[|log| - 1].payload == r.inFlight.payload)
  }

  ghost predicate Handshake<B>(r: Run<B>) {
    && (r.closed ==> r.stirred)
    && (r.producerFailed ==> r.closed && !r.producing)
    && (!r.producing && !r.stirred ==> r.remaining == [])
    && (!r.inFlight.Nothing? ==> r.poll == Due)
    && (r.poll == Parked ==> r.queue == [] && r.producing)
  }

  /** The sink continues exactly where the log stands. */
  ghost predicate SinkPosition<B>(log: seq<WalRecord>, r: Run<B>) {
    && 1 <= r.epoch <= U64_MAX
    && 1 <= r.nextSequence <= U64_MAX
    && if r.recovered == |log| then r.nextSequence == 1 && r.epoch == NextEpoch(log)
       else
         && LastCapture(log).Some?
         && LastCapture(log).value.epoch == r.epoch
         && LastCapture(log).value.sequence == r.nextSequence - 1
         && LastCapture(log).value.monotonic <= r.clock
  }

  ghost predicate EngineCurrent<B>(c: Config<B>, w: World<B>, r: Run<B>) {
    && 0 <= Processed(w, r) <= |c.fixture|
    && Recover(c.venue, c.fixture[..Processed(w, r)]) == Step(r.engine, None)
  }

  ghost predicate LogGood<B>(c: Config<B>, log: seq<WalRecord>) {
    IsPrefix(Payloads(log), c.fixture) && WellFormedLog(log)
  }

  ghost predicate Inv<B>(c: Config<B>, w: World<B>) {
    && LogGood(c, w.log)
    && match w.phase
       case Live(r) => InOrder(c, w.log, r) && Handshake(r) && SinkPosition(w.log, r) && EngineCurrent(c, w, r)
       case Down(Ready(e, stirred)) =>
         && Presentable(c, e)
         && Recover(c.venue, c.fixture[..|w.log|]) == Step(e, None)
         && (!stirred ==> |w.log| == |c.fixture|)
       case Down(_) => true
  }

  /** Processing reports neither a recovery mismatch nor a closed queue; other parts of the daemon do. */
  lemma {:induction false} RecoverErrors<B>(v: Venue<B>, raws: seq<Payload>)
    ensures Recover(v, raws).error != Some(RecoveryMismatch) && Recover(v, raws).error != Some(QueueClosed)
  {
    if raws != [] { RecoverErrors(v, raws[..|raws| - 1]); }
  }

  lemma RecoverSnoc<B>(v: Venue<B>, fixture: seq<Payload>, n: nat)
    requires n < |fixture|
    ensures Recover(v, fixture[..n + 1])
            == var s := Recover(v, fixture[..n]); if s.error.Some? then s else Process(v, s.engine, fixture[n])
  {
    hide Process;
    assert fixture[..n + 1][..n] == fixture[..n];
  }

  /** A start never rejects a log this system wrote. */
  lemma BeginKeeps<B>(c: Config<B>, log: seq<WalRecord>)
    requires LogGood(c, log)
    ensures Inv(c, World(log, Begin(c, log)))
    ensures Begin(c, log) != Down(Stopped(RecoveryMismatch))
  {
    hide Recover, WellFormedLog;
    RecoverErrors(c.venue, c.fixture[..|log|]);
    var ps := Payloads(log);
    assert ps + [] == ps && ps[|log|..] == [];
    assert ps + c.fixture[|log|..] == c.fixture;
  }

  lemma ProduceInOrder<B>(c: Config<B>, log: seq<WalRecord>, r: Run<B>)
    requires InOrder(c, log, r) && CanMove(c, r, Produce)
    ensures InOrder(c, log, MoveTo(c, log, r, Produce).phase.run)
  {
    hide Payloads, IsPrefix;
    var r' := MoveTo(c, log, r, Produce).phase.run;
    var ps, x := Payloads(log), r.remaining[0];
    assert Pending(r') == Pending(r) + [x];
    assert r.remaining == [x] + r'.remaining;
    OneOffered(ps, Pending(r), x, r'.remaining, c.fixture, r.recovered, r.accepted);
  }

  lemma OneOffered(ps: seq<Payload>, pending: seq<Payload>, x: Payload, rest: seq<Payload>, fixture: seq<Payload>,
                   from: nat, accepted: seq<Payload>)
    requires ps + pending + ([x] + rest) == fixture && from <= |ps| && ps[from..] + pending == accepted
    ensures ps + (pending + [x]) + rest == fixture && IsPrefix(ps + (pending + [x]), fixture)
    ensures ps[from..] + (pending + [x]) == accepted + [x]
  {
    assert ps + (pending + [x]) + rest == ps + pending + ([x] + rest);
  }

  lemma ProduceKeeps<B>(c: Config<B>, w: World<B>)
    requires Inv(c, w) && Enabled(c, w, Within(Produce))
    ensures Inv(c, Take(c, w, Within(Produce)))
  {
    hide Recover, LogGood, LastCapture, InOrder;
    ProduceInOrder(c, w.log, w.phase.run);
  }

  lemma ReceiveKeeps<B>(c: Config<B>, w: World<B>)
    requires Inv(c, w) && Enabled(c, w, Within(Receive))
    ensures Inv(c, Take(c, w, Within(Receive)))
  {
    hide Recover, WellFormedLog, LastCapture;
    var r, r' := w.phase.run, Take(c, w, Within(Receive)).phase.run;
    assert Pending(r') == Pending(r);
  }

  lemma ClosedProducerKeeps<B>(c: Config<B>, w: World<B>)
    requires Inv(c, w) && Enabled(c, w, Within(ProducerSeesClosed))
    ensures Inv(c, Take(c, w, Within(ProducerSeesClosed)))
  {
    hide Recover, WellFormedLog, LastCapture;
    var r, r' := w.phase.run, Take(c, w, Within(ProducerSeesClosed)).phase.run;
    assert Pending(r') == Pending(r);
  }

  lemma QuietMoveKeeps<B>(c: Config<B>, w: World<B>, m: Move)
    requires Inv(c, w) && Enabled(c, w, Within(m)) && !(m.Produce? || m.ProducerSeesClosed? || m.Receive?)
    requires !(m.Append? || m.ProcessRecord? || m.Finish?)
    ensures Inv(c, Take(c, w, Within(m)))
  {
    hide Recover, WellFormedLog, LastCapture;
    var r, r' := w.phase.run, Take(c, w, Within(m)).phase.run;
    assert Pending(r') == Pending(r);
  }

  lemma SinkRecordFollows<B>(log: seq<WalRecord>, r: Run<B>, now: nat)
    requires SinkPosition(log, r) && r.nextSequence < U64_MAX && now >= r.clock && r.recovered <= |log|
    ensures PositionMatches(LastCapture(log), Metadata(0, 7, r.epoch, r.nextSequence, now))
  {}

  /** Whatever reaches the log leaves it a log that replay accepts. */
  lemma AppendKeepsLog<B>(c: Config<B>, w: World<B>, r: Run<B>, now: nat)
    requires Inv(c, w) && w.phase == Live(r) && r.inFlight.Taken? && r.nextSequence < U64_MAX && now >= r.clock
    ensures LogGood(c, w.log + [Record(r, now)])
    ensures Payloads(w.log + [Record(r, now)]) == Payloads(w.log) + [r.inFlight.payload]
  {
    hide Recover, PositionMatches, LastCapture, EngineCurrent;
    var log := w.log + [Record(r, now)];
    var ps, p := Payloads(w.log), r.inFlight.payload;
    assert Payloads(log) == ps + [p];
    assert (ps + Pending(r))[..|w.log| + 1] == ps + [p];
    SinkRecordFollows(w.log, r, now);
    LogSnoc(log, |w.log|);
    assert log[..|w.log|] == w.log && log[..|w.log| + 1] == log;
  }

  lemma AppendKeeps<B>(c: Config<B>, w: World<B>, fate: AppendFate, now: nat)
    requires Inv(c, w) && Enabled(c, w, Within(Append(fate, now)))
    ensures Inv(c, Take(c, w, Within(Append(fate, now))))
  {
    hide Recover, WellFormedLog, PositionMatches;
    var r, w' := w.phase.run, Take(c, w, Within(Append(fate, now)));
    if r.nextSequence < U64_MAX && fate != Lost {
      AppendKeepsLog(c, w, r, now);
      if fate == Durable {
        var r' := w'.phase.run;
        assert Payloads(w'.log) + Pending(r') == Payloads(w.log) + Pending(r);
        assert Payloads(w'.log)[r.recovered..] + Pending(r') == Payloads(w.log)[r.recovered..] + Pending(r);
      }
    }
  }

  lemma ProcessKeeps<B>(c: Config<B>, w: World<B>)
    requires Inv(c, w) && Enabled(c, w, Within(ProcessRecord))
    ensures Inv(c, Take(c, w, Within(ProcessRecord)))
  {
    hide Recover, WellFormedLog, LastCapture, Process;
    var r, n := w.phase.run, |w.log| - 1;
    assert Payloads(w.log)[n] == r.inFlight.payload == c.fixture[n];
    RecoverSnoc(c.venue, c.fixture, n);
    var w' := Take(c, w, Within(ProcessRecord));
    if w'.phase.Live? {
      assert Pending(w'.phase.run) == Pending(r);
    }
  }

  lemma FinishKeeps<B>(c: Config<B>, w: World<B>)
    requires Inv(c, w) && Enabled(c, w, Within(Finish))
    ensures Inv(c, Take(c, w, Within(Finish)))
  {
    hide Recover, WellFormedLog, LastCapture;
    var r := w.phase.run;
    assert Pending(r) == [];
    if !r.closed && !r.stirred {
      assert Payloads(w.log) + [] + [] == Payloads(w.log);
    }
  }

  /** Every action keeps the invariant. */
  lemma ActionKeeps<B>(c: Config<B>, w: World<B>, a: Action)
    requires Inv(c, w) && Enabled(c, w, a)
    ensures Inv(c, Take(c, w, a))
  {
    hide LogGood, InOrder, Handshake, SinkPosition, EngineCurrent, Recover;
    match a
    case Start => BeginKeeps(c, w.log);
    case CancelStartup =>
    case Crash =>
    case Within(m) => MoveKeeps(c, w, m);
  }

  lemma MoveKeeps<B>(c: Config<B>, w: World<B>, m: Move)
    requires Inv(c, w) && Enabled(c, w, Within(m))
    ensures Inv(c, Take(c, w, Within(m)))
  {
    hide Inv, Take;
    match m
    case Produce => ProduceKeeps(c, w);
    case ProducerSeesClosed => ClosedProducerKeeps(c, w);
    case Receive => ReceiveKeeps(c, w);
    case Append(fate, now) => AppendKeeps(c, w, fate, now);
    case ProcessRecord => ProcessKeeps(c, w);
    case Finish => FinishKeeps(c, w);
    case ProducerEnds => QuietMoveKeeps(c, w, m);
    case SeeWatch => QuietMoveKeeps(c, w, m);
    case Park => QuietMoveKeeps(c, w, m);
    case Signalled(_) => QuietMoveKeeps(c, w, m);
    case Close => QuietMoveKeeps(c, w, m);
  }

  /** The invariant holds after every possible list of actions. */
  lemma {:induction false} AlwaysSafe<B>(c: Config<B>, actions: seq<Action>)
    requires After(c, actions).Some?
    ensures Inv(c, After(c, actions).value)
  {
    hide Enabled, Take, LogGood;
    if actions == [] {
      EmptyLogGood(c);
    } else {
      var n := |actions| - 1;
      AlwaysSafe(c, actions[..n]);
      ActionKeeps(c, After(c, actions[..n]).value, actions[n]);
    }
  }

  lemma EmptyLogGood<B>(c: Config<B>)
    ensures LogGood(c, [])
  {}

  // ----- Crashes do not show -----

  /**
   Over any number of starts, partial ingests, cancellations, failures and
   crashes, the log stays a fixture prefix that the replay check accepts.
   */
  lemma LogAlwaysReplays<B>(c: Config<B>, actions: seq<Action>)
    requires After(c, actions).Some?
    ensures var w := After(c, actions).value;
            && IsPrefix(Payloads(w.log), c.fixture)
            && WellFormedLog(w.log)
            && Begin(c, w.log) != Down(Stopped(RecoveryMismatch))
  {
    hide After, Begin, WellFormedLog;
    AlwaysSafe(c, actions);
    BeginKeeps(c, After(c, actions).value.log);
  }

  /** Between records, a running engine is in the state of a run that never crashed. */
  lemma RunningMatchesUninterrupted<B>(c: Config<B>, actions: seq<Action>)
    requires After(c, actions).Some? && After(c, actions).value.phase.Live?
    requires !After(c, actions).value.phase.run.inFlight.Persisted?
    ensures var w := After(c, actions).value;
            Recover(c.venue, Payloads(w.log)) == Step(w.phase.run.engine, None)
  {
    hide After, Recover, WellFormedLog;
    AlwaysSafe(c, actions);
  }

  /** A daemon that becomes ready has logged what its engine replays, and all of the fixture if undisturbed. */
  lemma ReadyMatchesUninterrupted<B>(c: Config<B>, actions: seq<Action>, e: Engine<B>, stirred: bool)
    requires After(c, actions).Some? && After(c, actions).value.phase == Down(Ready(e, stirred))
    ensures var ps := Payloads(After(c, actions).value.log);
            && IsPrefix(ps, c.fixture)
            && Recover(c.venue, ps) == Step(e, None)
            && Presentable(c, e)
            && (!stirred ==> ps == c.fixture)
  {
    hide After, Recover, WellFormedLog, Presentable;
    AlwaysSafe(c, actions);
  }

  lemma AfterNothing<B>(c: Config<B>)
    ensures After(c, []) == Some(Init())
  {}

  lemma AfterSnoc<B>(c: Config<B>, actions: seq<Action>, a: Action)
    requires After(c, actions).Some? && Enabled(c, After(c, actions).value, a)
    ensures After(c, actions + [a]) == Some(Take(c, After(c, actions).value, a))
  {
    hide Take, Enabled;
    assert (actions + [a])[..|actions|] == actions;
  }

  lemma {:induction false} RecoverErrorStays<B>(v: Venue<B>, fixture: seq<Payload>, k: nat, n: nat)
    requires k <= n <= |fixture| && Recover(v, fixture[..k]).error.Some?
    ensures Recover(v, fixture[..n]) == Recover(v, fixture[..k])
  {
    hide Recover;
    if k < n {
      RecoverErrorStays(v, fixture, k, n - 1);
      RecoverSnoc(v, fixture, n - 1);
    }
  }

  /**
   A record the engine refuses is durable before it is refused, so once it is
   logged every later start stops at the same error and no start ever succeeds.
   */
  lemma RefusedRecordStopsEveryStart<B>(c: Config<B>, actions: seq<Action>, k: nat)
    requires After(c, actions).Some? && k <= |c.fixture| && Recover(c.venue, c.fixture[..k]).error.Some?
    ensures var w := After(c, actions).value;
            && (|w.log| >= k && NextEpoch(w.log) <= U64_MAX ==>
                  Begin(c, w.log) == Down(Stopped(Recover(c.venue, c.fixture[..k]).error.value)))
            && (w.phase.Down? && w.phase.outcome.Ready? ==> |w.log| < k)
  {
    hide After, Recover, WellFormedLog, NextEpoch;
    AlwaysSafe(c, actions);
    var w := After(c, actions).value;
    if |w.log| >= k {
      RecoverErrorStays(c.venue, c.fixture, k, |w.log|);
    }
  }

  // ----- The queue -----

  /** Whenever the consumer loop ends, everything the queue ever accepted has been appended, once and in order. */
  lemma LoopEndsDrained<B>(c: Config<B>, actions: seq<Action>)
    requires After(c, actions).Some? && Enabled(c, After(c, actions).value, Within(Finish))
    ensures var w := After(c, actions).value;
            var r := w.phase.run;
            && r.recovered <= |w.log| <= |c.fixture|
            && Payloads(w.log)[r.recovered..] == r.accepted
            && Payloads(w.log) == c.fixture[..r.recovered] + r.accepted
            && (!r.stirred ==> Payloads(w.log) == c.fixture)
  {
    hide After, Recover, WellFormedLog;
    AlwaysSafe(c, actions);
    var w := After(c, actions).value;
    var ps, r := Payloads(w.log), w.phase.run;
    assert Pending(r) == [];
    assert ps + [] == ps;
    assert ps == ps[..r.recovered] + ps[r.recovered..];
    assert ps[..r.recovered] == c.fixture[..r.recovered];
  }

  /** Every message to the watch sets it: nobody resends false and nobody drops it unset. */
  ghost predicate OnlySet(actions: seq<Action>) {
    forall i :: 0 <= i < |actions| ==> actions[i] != Within(Signalled(false))
  }

  /** Then the watch holds true as soon as it stirs, and the producer never mistakes a closed queue for a failure. */
  lemma {:induction false} SetWatchNeverFails<B>(c: Config<B>, actions: seq<Action>)
    requires After(c, actions).Some? && OnlySet(actions)
    ensures var w := After(c, actions).value;
            && (w.phase.Live? ==> (w.phase.run.stirred ==> w.phase.run.cancelSet) && !w.phase.run.producerFailed)
            && w.phase != Down(Stopped(QueueClosed))
            && (w.phase.Down? && w.phase.outcome.Ready? ==> !w.phase.outcome.stirred)
  {
    hide Recover, WellFormedLog, Process, FinalSnapshot;
    if actions != [] {
      var n := |actions| - 1;
      SetWatchNeverFails(c, actions[..n]);
      AlwaysSafe(c, actions[..n]);
      SetWatchStep(c, After(c, actions[..n]).value, actions[n]);
    }
  }

  lemma SetWatchStep<B>(c: Config<B>, w: World<B>, a: Action)
    requires Inv(c, w) && Enabled(c, w, a) && a != Within(Signalled(false))
    requires w.phase.Live? ==> (w.phase.run.stirred ==> w.phase.run.cancelSet) && !w.phase.run.producerFailed
    ensures var w' := Take(c, w, a);
            && (w'.phase.Live? ==> (w'.phase.run.stirred ==> w'.phase.run.cancelSet) && !w'.phase.run.producerFailed)
            && w'.phase != Down(Stopped(QueueClosed))
            && (w'.phase.Down? && w'.phase.outcome.Ready? ==> !w'.phase.outcome.stirred)
  {
    hide Recover, WellFormedLog, FinalSnapshot, InOrder, SinkPosition, EngineCurrent;
    RecoverErrors(c.venue, c.fixture[..|w.log|]);
  }

  /** With the watch only ever set, a ready daemon has logged the whole fixture. */
  lemma SetWatchReadyIsComplete<B>(c: Config<B>, actions: seq<Action>)
    requires After(c, actions).Some? && OnlySet(actions)
    requires After(c, actions).value.phase.Down? && After(c, actions).value.phase.outcome.Ready?
    ensures Payloads(After(c, actions).value.log) == c.fixture
  {
    hide After, Presentable;
    SetWatchNeverFails(c, actions);
    var o := After(c, actions).value.phase.outcome;
    ReadyMatchesUninterrupted(c, actions, o.engine, o.stirred);
  }

  /** The moves a run can still make before it must end. */
  function Fuel<B>(r: Run<B>): (n: nat) {
    7 * |r.remaining| + 4 * |r.queue|
    + (match r.inFlight case Nothing => 0 case Taken(_) => 2 case Persisted(_) => 1)
    + (match r.poll case Due => 2 case WatchSeen => 1 case Parked => 0)
    + (if r.producing then 3 else 0)
    + (if r.closed then 0 else 3)
  }

  /** Every move of the daemon uses fuel or ends the run, and the outside never adds any: no run goes on forever. */
  lemma MovesBurnFuel<B>(c: Config<B>, log: seq<WalRecord>, r: Run<B>, m: Move)
    requires CanMove(c, r, m) && Handshake(r)
    ensures var w := MoveTo(c, log, r, m);
            w.phase.Live? ==> if m.Signalled? then Fuel(w.phase.run) == Fuel(r) else Fuel(w.phase.run) < Fuel(r)
  {
    hide Process;
  }

  /** With any room in the queue, a live run always has a move of its own: no interleaving deadlocks. */
  lemma NoDeadlock<B>(c: Config<B>, actions: seq<Action>)
    requires c.capacity >= 1 && After(c, actions).Some? && After(c, actions).value.phase.Live?
    ensures exists m: Move :: CanMove(c, After(c, actions).value.phase.run, m) && !m.Signalled?
  {
    hide After, Recover, WellFormedLog;
    AlwaysSafe(c, actions);
    var r := After(c, actions).value.phase.run;
    var m :=
      match r.inFlight
      case Taken(_) => Append(Durable, r.clock)
      case Persisted(_) => ProcessRecord
      case Nothing =>
        match r.poll
        case Due => if r.stirred && !r.closed then Close else SeeWatch
        case WatchSeen => if r.queue != [] then Receive else if r.producing then Park else Finish
        case Parked =>
          if r.remaining == [] then ProducerEnds else if r.closed then ProducerSeesClosed else Produce;
    assert CanMove(c, r, m);
  }

  // ----- Epoch numbering -----

  /** How many of the first `n` records carry epoch `e`. */
  function EpochCount(log: seq<WalRecord>, n: nat, e: nat): (k: nat)
    requires n <= |log|
    ensures k <= n
  {
    if n == 0 then 0
    else EpochCount(log, n - 1, e)
         + (if log[n - 1].metadata.Some? && log[n - 1].metadata.value.epoch == e then 1 else 0)
  }

  ghost predicate NoneLater(log: seq<WalRecord>, n: nat, last: nat)
    requires n <= |log|
  {
    forall e :: last < e ==> EpochCount(log, n, e) == 0
  }

  /** A log replay accepts numbers its epochs 1, 2, 3, ... without gaps and each epoch's records 1, 2, 3, ... */
  lemma {:induction false} EpochNumbering(log: seq<WalRecord>, n: nat)
    requires WellFormedLog(log) && n < |log| < U64_MAX
    ensures var m := log[n].metadata.value;
            && 1 <= m.epoch <= n + 1
            && m.sequence == EpochCount(log, n + 1, m.epoch)
            && NoneLater(log, n + 1, m.epoch)
            && (n == 0 ==> m.epoch == 1)
            && (n > 0 ==> m.epoch == log[n - 1].metadata.value.epoch || m.epoch == log[n - 1].metadata.value.epoch + 1)
  {
    hide EpochCount, NoneLater;
    var m := log[n].metadata.value;
    EpochCountStep(log, n, m.epoch);
    if n == 0 {
      assert log[..0] == [];
      NoneLaterStep(log, 0, 0);
    } else {
      EpochNumbering(log, n - 1);
      var p := log[n - 1].metadata.value;
      assert LastCapture(log[..n]) == Some(CaptureOf(p));
      assert PositionMatches(Some(CaptureOf(p)), m);
      NoneLaterStep(log, n, p.epoch);
    }
  }

  lemma EpochCountStep(log: seq<WalRecord>, n: nat, e: nat)
    requires n < |log| && log[n].metadata.Some?
    ensures EpochCount(log, n + 1, e) == EpochCount(log, n, e) + (if e == log[n].metadata.value.epoch then 1 else 0)
    ensures n == 0 ==> EpochCount(log, n, e) == 0
  {}

  /** A record that stays in the last epoch, or opens the next one, leaves later epochs empty. */
  lemma NoneLaterStep(log: seq<WalRecord>, n: nat, last: nat)
    requires n < |log| && log[n].metadata.Some? && last <= log[n].metadata.value.epoch
    requires n > 0 ==> NoneLater(log, n, last)
    ensures NoneLater(log, n + 1, log[n].metadata.value.epoch)
    ensures n > 0 && last < log[n].metadata.value.epoch ==> EpochCount(log, n, log[n].metadata.value.epoch) == 0
  {
    hide EpochCount;
    var k := n + 1;
    forall e: nat | log[n].metadata.value.epoch < e ensures EpochCount(log, k, e) == 0 {
      EpochCountStep(log, n, e);
    }
  }
}
