/**
 The ingestion engine: persist a record, then normalise it, apply it to the order
 book and publish. The parser and the order book are foreign; they enter as
 arbitrary deterministic functions.
 */
module Ingestion {
  import opened Results

  newtype Byte = x: int | 0 <= x < 256

  type Payload = seq<Byte>

  datatype Session = Session(connectionEpoch: nat, subscriptionEpoch: nat, instrumentGeneration: nat)

  /** A normalised event, as far as the engine looks into it. */
  datatype Event = Event(
    source: string,
    instrument: Option<string>,
    session: Session,
    snapshot: bool,
    exchangeTime: Option<int>,
    receiveTime: int)

  datatype View = View(sequence: nat, bestBid: Option<int>, bestAsk: Option<int>)

  datatype ApplyResult = Applied | Duplicate | GapDetected | ChecksumMismatch | SnapshotRequired | Failed

  /** The parser and the order book the engine calls. */
  datatype Venue<!B> = Venue(
    parse: Payload -> Option<Event>,
    emptyBook: B,
    session: B -> Option<Session>,
    startSession: (B, Session) -> (B, bool),
    apply: (B, Event) -> (B, ApplyResult),
    view: B -> Option<View>)

  datatype Published = Published(
    source: string,
    instrument: string,
    sequence: nat,
    bestBid: int,
    bestAsk: int,
    eventTime: int,
    receiveTime: int,
    freshnessMillis: nat)

  datatype Health = Initializing | Healthy | Degraded

  datatype RuntimeError =
    | Persistence
    | Parse
    | Book
    | MissingInstrument
    | MissingTimestamp
    | MissingBestPrices
    | RecordSequenceOverflow
    | RecoveryMismatch
    | QueueClosed
    | MissingSnapshot
    | UnexpectedFinalSnapshot

  /** The engine's state besides its log. */
  datatype Engine<B> = Engine(book: B, published: Option<Published>, health: Health)

  /** The state after a call, and the error it returned, if any. */
  datatype Step<B> = Step(engine: Engine<B>, error: Option<RuntimeError>)

  function Fresh<B>(v: Venue<B>): (e: Engine<B>) { Engine(v.emptyBook, None, Initializing) }

  function Reject<B>(e: Engine<B>, error: RuntimeError): (s: Step<B>) {
    Step(e.(health := Degraded), Some(error))
  }

  function AbsoluteMillis(receive: int, event: int): (m: nat) {
    (if receive >= event then receive - event else event - receive) / 1_000_000
  }

  /** Publish the book's best prices; refuse when either side is empty. */
  function Publish<B>(v: Venue<B>, e: Engine<B>, event: Event, instrument: string, eventTime: int): (s: Step<B>) {
    match v.view(e.book)
    case None => Step(e, Some(Book))
    case Some(view) =>
      if view.bestBid.None? || view.bestAsk.None? then Step(e, Some(MissingBestPrices))
      else
        Step(e.(published := Some(Published(event.source, instrument, view.sequence, view.bestBid.value,
                                            view.bestAsk.value, eventTime, event.receiveTime,
                                            AbsoluteMillis(event.receiveTime, eventTime))),
                health := Healthy), None)
  }

  /** Apply an event to a book already in its session. */
  function ApplyEvent<B>(v: Venue<B>, e: Engine<B>, event: Event, instrument: string, eventTime: int): (s: Step<B>) {
    var (book, result) := v.apply(e.book, event);
    var after := e.(book := book);
    match result
    case Applied | Duplicate =>
      if after.health != Degraded || event.snapshot then Publish(v, after, event, instrument, eventTime)
      else Step(after, None)
    case GapDetected => Reject(after, Book)
    case ChecksumMismatch => Reject(after, Book)
    case SnapshotRequired => Reject(after, Book)
    case Failed => Reject(after, Book)
  }

  /** Normalise, sequence and apply one record that is already durable. */
  function Process<B>(v: Venue<B>, e: Engine<B>, raw: Payload): (s: Step<B>) {
    match v.parse(raw)
    case None => Reject(e, Parse)
    case Some(event) =>
      if event.instrument.None? then Step(e, Some(MissingInstrument))
      else if event.exchangeTime.None? then Step(e, Some(MissingTimestamp))
      else
        var instrument, eventTime := event.instrument.value, event.exchangeTime.value;
        if v.session(e.book) == Some(event.session) then ApplyEvent(v, e, event, instrument, eventTime)
        else if !event.snapshot then Reject(e, Book)
        else
          var (book, started) := v.startSession(e.book, event.session);
          if !started then Step(e.(book := book), Some(Book))
          else ApplyEvent(v, e.(book := book), event, instrument, eventTime)
  }

  // ----- The log -----

  datatype Metadata = Metadata(flags: nat, streamId: nat, epoch: nat, sequence: nat, monotonic: nat)

  datatype WalRecord = WalRecord(payload: Payload, metadata: Option<Metadata>)

  function Payloads(log: seq<WalRecord>): (ps: seq<Payload>)
    ensures |ps| == |log|
  {
    seq(|log|, i requires 0 <= i < |log| => log[i].payload)
  }

  /** How an append ends: durable, not durable, or durable but reported as an error. */
  datatype AppendFate = Durable | Lost | DurableButFailed

  // ----- Degraded gating -----

  /** Whether the call applied an event of snapshot kind. */
  predicate AppliesSnapshot<B>(v: Venue<B>, e: Engine<B>, raw: Payload) {
    v.parse(raw).Some? && v.parse(raw).value.snapshot && Process(v, e, raw).error.None?
  }

  /** One call can only leave the degraded state, or publish from it, by applying a snapshot. */
  lemma DegradedStep<B>(v: Venue<B>, e: Engine<B>, raw: Payload)
    requires e.health == Degraded && !AppliesSnapshot(v, e, raw)
    ensures var after := Process(v, e, raw).engine;
            after.health == Degraded && after.published == e.published
  {}

  function ProcessAll<B>(v: Venue<B>, e: Engine<B>, raws: seq<Payload>): (r: Engine<B>) {
    if raws == [] then e else Process(v, ProcessAll(v, e, raws[..|raws| - 1]), raws[|raws| - 1]).engine
  }

  /** Over any run of calls without an applied snapshot, a rejected engine publishes nothing and stays degraded. */
  lemma {:induction false} DegradedUntilSnapshot<B>(v: Venue<B>, e: Engine<B>, raws: seq<Payload>)
    requires e.health == Degraded
    requires forall i :: 0 <= i < |raws| ==> !AppliesSnapshot(v, ProcessAll(v, e, raws[..i]), raws[i])
    ensures var after := ProcessAll(v, e, raws);
            after.health == Degraded && after.published == e.published
  {
    hide Process, AppliesSnapshot;
    if raws != [] {
      var n := |raws| - 1;
      forall i | 0 <= i < n ensures !AppliesSnapshot(v, ProcessAll(v, e, raws[..n][..i]), raws[..n][i]) {
        assert raws[..n][..i] == raws[..i];
      }
      DegradedUntilSnapshot(v, e, raws[..n]);
      DegradedStep(v, ProcessAll(v, e, raws[..n]), raws[n]);
    }
  }

  /** The order book evolves by the records alone; health and publication never feed back into it. */
  lemma BookIgnoresHealth<B>(v: Venue<B>, e: Engine<B>, f: Engine<B>, raw: Payload)
    requires e.book == f.book
    ensures Process(v, e, raw).engine.book == Process(v, f, raw).engine.book
  {}

  /** The book after a list of records, from an empty one. */
  function BookAfter<B>(v: Venue<B>, raws: seq<Payload>): (b: B) { ProcessAll(v, Fresh(v), raws).book }

  // ----- The engine -----

  class IngestionEngine<B> {
    const venue: Venue<B>
    const connectionEpoch: nat
    var log: seq<WalRecord>
    var nextSequence: nat
    var state: Engine<B>
    /** The records whose append was acknowledged, in order. */
    ghost var acknowledged: seq<Payload>

    /**
     Write-ahead: what the book holds comes from acknowledged records only, and
     every published snapshot was read from such a book.
     */
    ghost predicate Valid()
      reads this
    {
      && 1 <= nextSequence <= U64_MAX
      && Subsequence(acknowledged, Payloads(log))
      && state.book == BookAfter(venue, acknowledged)
      && (state.published.Some? ==>
            exists k :: 0 < k <= |acknowledged| && PublishedFrom(venue, acknowledged[..k], state.published.value))
    }

    constructor (v: Venue<B>, epoch: nat, recovered: seq<WalRecord>)
      ensures Valid() && venue == v && connectionEpoch == epoch
      ensures log == recovered && nextSequence == 1 && state == Fresh(v) && acknowledged == []
    {
      venue, connectionEpoch := v, epoch;
      log, nextSequence, state := recovered, 1, Fresh(v);
      acknowledged := [];
      new;
      EmptySubsequence(Payloads(log));
    }

    /** Append with the next sequence number; only an acknowledged append consumes it. */
    method AppendAndSync(payload: Payload, now: nat, fate: AppendFate) returns (ok: bool)
      requires Valid()
      modifies this
      ensures Valid() && state == old(state)
      ensures ok <==> old(nextSequence) < U64_MAX && fate == Durable
      ensures acknowledged == old(acknowledged)
      ensures nextSequence == old(nextSequence) + (if ok then 1 else 0)
      ensures log == if old(nextSequence) < U64_MAX && fate != Lost
                     then old(log) + [WalRecord(payload, Some(Metadata(0, 7, connectionEpoch, old(nextSequence), now)))]
                     else old(log)
    {
      if nextSequence == U64_MAX || fate == Lost {
        return false;
      }
      var record := WalRecord(payload, Some(Metadata(0, 7, connectionEpoch, nextSequence, now)));
      SubsequenceGrows(acknowledged, Payloads(log), payload);
      assert Payloads(log + [record]) == Payloads(log) + [payload];
      log := log + [record];
      if fate == DurableButFailed {
        return false;
      }
      nextSequence := nextSequence + 1;
      return true;
    }

    /** Persist first, process second; a failed append rejects without touching the book. */
    method ProcessNew(raw: Payload, now: nat, fate: AppendFate) returns (error: Option<RuntimeError>)
      requires Valid()
      modifies this
      ensures Valid()
      ensures var appended := old(nextSequence) < U64_MAX && fate == Durable;
              && (!appended ==>
                    && error == Some(Persistence)
                    && state == Reject(old(state), Persistence).engine
                    && acknowledged == old(acknowledged)
                    && nextSequence == old(nextSequence))
              && (appended ==>
                    && Step(state, error) == Process(venue, old(state), raw)
                    && acknowledged == old(acknowledged) + [raw]
                    && Payloads(log) == Payloads(old(log)) + [raw]
                    && nextSequence == old(nextSequence) + 1)
    {
      hide Process, Subsequence, PublishedFrom;
      ghost var before := Payloads(log);
      ghost var was := acknowledged;
      var ok := AppendAndSync(raw, now, fate);
      if !ok {
        state := Reject(state, Persistence).engine;
        return Some(Persistence);
      }
      assert Payloads(log) == before + [raw];
      SubsequenceExtends(acknowledged, before, raw);
      ProcessedBook(venue, state, acknowledged, raw);
      ProcessedPublication(venue, state, acknowledged, raw);
      var step := Process(venue, state, raw);
      acknowledged := acknowledged + [raw];
      state := step.engine;
      if state.published.Some? {
        KeepsPublication(venue, was, acknowledged, state.published.value);
      }
      return step.error;
    }
  }

  /** `small` is obtained from `large` by leaving records out. */
  ghost predicate Subsequence(small: seq<Payload>, large: seq<Payload>) {
    if small == [] then true
    else if large == [] then false
    else if small[|small| - 1] == large[|large| - 1] && Subsequence(small[..|small| - 1], large[..|large| - 1])
    then true
    else Subsequence(small, large[..|large| - 1])
  }

  lemma EmptySubsequence(large: seq<Payload>)
    ensures Subsequence([], large)
  {}

  lemma SubsequenceGrows(small: seq<Payload>, large: seq<Payload>, x: Payload)
    requires Subsequence(small, large)
    ensures Subsequence(small, large + [x])
  {
    assert (large + [x])[..|large|] == large;
  }

  lemma SubsequenceExtends(small: seq<Payload>, large: seq<Payload>, x: Payload)
    requires Subsequence(small, large)
    ensures Subsequence(small + [x], large + [x])
  {
    assert (large + [x])[..|large|] == large && (small + [x])[..|small|] == small;
  }

  /** The snapshot was read from the book those records built, while handling the last of them. */
  ghost predicate PublishedFrom<B>(v: Venue<B>, raws: seq<Payload>, p: Published) {
    && raws != []
    && v.parse(raws[|raws| - 1]).Some?
    && var event, view := v.parse(raws[|raws| - 1]).value, v.view(BookAfter(v, raws));
    && view.Some?
    && event.instrument == Some(p.instrument)
    && event.exchangeTime == Some(p.eventTime)
    && p.source == event.source
    && p.receiveTime == event.receiveTime
    && p.sequence == view.value.sequence
    && view.value.bestBid == Some(p.bestBid)
    && view.value.bestAsk == Some(p.bestAsk)
  }

  lemma ProcessedBook<B>(v: Venue<B>, e: Engine<B>, raws: seq<Payload>, raw: Payload)
    requires e.book == BookAfter(v, raws)
    ensures Process(v, e, raw).engine.book == BookAfter(v, raws + [raw])
  {
    hide Process;
    BookIgnoresHealth(v, e, ProcessAll(v, Fresh(v), raws), raw);
    assert (raws + [raw])[..|raws|] == raws;
  }

  /** Whatever a call publishes anew, it read from the book it just updated. */
  lemma ProcessedPublication<B>(v: Venue<B>, e: Engine<B>, raws: seq<Payload>, raw: Payload)
    requires e.book == BookAfter(v, raws)
    ensures var after := Process(v, e, raw).engine;
            after.published == e.published
            || (after.published.Some? && PublishedFrom(v, raws + [raw], after.published.value))
  {
    ProcessedBook(v, e, raws, raw);
  }

  lemma KeepsPublication<B>(v: Venue<B>, raws: seq<Payload>, more: seq<Payload>, p: Published)
    requires |more| == |raws| + 1 && more[..|raws|] == raws
    requires (exists k :: 0 < k <= |raws| && PublishedFrom(v, raws[..k], p)) || PublishedFrom(v, more, p)
    ensures exists k :: 0 < k <= |more| && PublishedFrom(v, more[..k], p)
  {
    hide PublishedFrom;
    if PublishedFrom(v, more, p) {
      assert more[..|more|] == more;
      assert PublishedFrom(v, more[..|more|], p);
    } else {
      var k :| 0 < k <= |raws| && PublishedFrom(v, raws[..k], p);
      assert more[..k] == raws[..k];
    }
  }
}
