/**
 The fixture runtime as a transition system: start and replay the log, feed a
 bounded queue, append, process, cancel, fail, crash, and start again.
 */
module Runtime {
  import opened Results
  import opened Ingestion

  // ----- Replay -----

  /** Where the last accepted record stood: epoch, sequence, monotonic time. */
  datatype Capture = Capture(epoch: nat, sequence: nat, monotonic: nat)

  function Saturating(n: nat): (r: nat) { if n >= U64_MAX then U64_MAX else n + 1 }

  /** The position rule between neighbouring records. */
  predicate PositionMatches(previous: Option<Capture>, m: Metadata) {
    match previous
    case None => m.epoch == 1 && m.sequence == 1
    case Some(p) =>
      if m.epoch == p.epoch then m.sequence == Saturating(p.sequence) && m.monotonic >= p.monotonic
      else m.epoch == Saturating(p.epoch) && m.sequence == 1
  }

  function CaptureOf(m: Metadata): (c: Capture) { Capture(m.epoch, m.sequence, m.monotonic) }

  function LastCapture(log: seq<WalRecord>): (c: Option<Capture>) {
    if log == [] || log[|log| - 1].metadata.None? then None else Some(CaptureOf(log[|log| - 1].metadata.value))
  }

  /** Every record is a capture of this stream and follows its neighbour. */
  predicate WellFormedLog(log: seq<WalRecord>) {
    forall i :: 0 <= i < |log| ==>
      && log[i].metadata.Some?
      && log[i].metadata.value.flags == 0
      && log[i].metadata.value.streamId == 7
      && PositionMatches(LastCapture(log[..i]), log[i].metadata.value)
  }

  predicate IsPrefix(ps: seq<Payload>, fixture: seq<Payload>) { |ps| <= |fixture| && ps == fixture[..|ps|] }

  /** The replay closure accepts exactly the well-formed logs whose payloads are a fixture prefix. */
  method Replay(fixture: seq<Payload>, log: seq<WalRecord>)
    returns (recovered: nat, mismatch: bool, previous: Option<Capture>)
    ensures recovered == |log|
    ensures !mismatch <==> IsPrefix(Payloads(log), fixture) && WellFormedLog(log)
    ensures !mismatch ==> previous == LastCapture(log)
  {
    recovered, mismatch, previous := 0, false, None;
    while recovered < |log|
      invariant recovered <= |log|
      invariant !mismatch <==> IsPrefix(Payloads(log[..recovered]), fixture) && WellFormedLog(log[..recovered])
      invariant !mismatch ==> previous == LastCapture(log[..recovered])
    {
      var record := log[recovered];
      var payloadMatches := recovered < |fixture| && record.payload == fixture[recovered];
      var metadataMatches := false;
      LogSnoc(log, recovered);
      PrefixSnoc(fixture, log, recovered);
      if record.metadata.Some? {
        var m := record.metadata.value;
        var positionMatches := PositionMatches(previous, m);
        if positionMatches {
          previous := Some(CaptureOf(m));
        }
        metadataMatches := m.flags == 0 && m.streamId == 7 && positionMatches;
      }
      mismatch := mismatch || !payloadMatches || !metadataMatches;
      recovered := recovered + 1;
    }
    assert log[..|log|] == log;
  }

  lemma LogSnoc(log: seq<WalRecord>, n: nat)
    requires n < |log|
    ensures var r := log[n];
            WellFormedLog(log[..n + 1]) <==>
              && WellFormedLog(log[..n])
              && r.metadata.Some? && r.metadata.value.flags == 0 && r.metadata.value.streamId == 7
              && PositionMatches(LastCapture(log[..n]), r.metadata.value)
  {
    hide PositionMatches, LastCapture;
    var more, less := log[..n + 1], log[..n];
    assert forall i :: 0 <= i <= n ==> more[..i] == log[..i];
    assert forall i :: 0 <= i < n ==> less[..i] == log[..i];
    assert more[n] == log[n];
    assert forall i :: 0 <= i < n ==> more[i] == less[i];
    if WellFormedLog(more) {
      forall i | 0 <= i < n
        ensures less[i].metadata.Some? && less[i].metadata.value.flags == 0 && less[i].metadata.value.streamId == 7
        ensures PositionMatches(LastCapture(less[..i]), less[i].metadata.value)
      {
        assert more[i].metadata.Some?;
      }
    }
  }

  lemma PrefixSnoc(fixture: seq<Payload>, log: seq<WalRecord>, n: nat)
    requires n < |log|
    ensures IsPrefix(Payloads(log[..n + 1]), fixture) <==>
              IsPrefix(Payloads(log[..n]), fixture) && n < |fixture| && log[n].payload == fixture[n]
  {
    var more, less := Payloads(log[..n + 1]), Payloads(log[..n]);
    assert more == less + [log[n].payload];
    if n < |fixture| {
      assert fixture[..n + 1] == fixture[..n] + [fixture[n]];
    }
  }
}
