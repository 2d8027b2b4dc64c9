/** Exactly which inputs the 64-bit estimate overflows on, read off the input in unbounded integers. */
module CapacityFits {
  import opened Results
  import opened Checked
  import opened Capacity

  predicate Room(n: int) { n <= U64_MAX }

  const ROUND: nat := MILLION - 1
  const ROUND_NANOS: nat := 999_999_999

  /** Events per second with the demand uncertainty, rounded up. */
  function Raised(events: nat, w: Workload): (n: nat) { CeilDiv(events * w.demandUncertainty, MILLION) }

  predicate FlowRoom(events: nat, w: Workload) {
    && Room(events * w.demandUncertainty + ROUND)
    && Room(Raised(events, w) * w.rawBytes * w.walAmplification + ROUND)
    && Room(Raised(events, w) * w.normalizedBytes * w.parquetAmplification + ROUND)
  }

  function ReplayNanos(w: Workload): (n: nat) {
    CeilDiv(Raised(w.replayEvents, w) * w.featureCpuNanos * w.replayCpuMultiplier, MILLION)
  }

  predicate ReplayRoom(w: Workload)
    requires ValidReplay(w)
  {
    !w.concurrentReplay
    || (&& Room(w.replayEvents * w.demandUncertainty + ROUND)
        && Room(ReplayNanos(w) * MILLION + ROUND_NANOS)
        && Room(w.replayEventCount * (w.rawBytes + w.normalizedBytes))
        && Room(w.replayEventCount * w.featureCpuNanos * w.replayCpuMultiplier + ROUND)
        && Room(w.replayEventCount + (w.replayEvents - 1)))
  }

  /** The whole condition: nothing else the estimate computes can overflow. */
  predicate InputRoom(input: Input)
    requires ValidInput(input)
  {
    var h, w, p := input.hardware, input.workload, input.policy;
    var left := MILLION - h.evidence.capacityUncertainty;
    && FlowRoom(w.burstEvents, w)
    && Room(Raised(w.sustainedEvents, w) * w.featureCpuNanos * MILLION + ROUND_NANOS)
    && ReplayRoom(w)
    && Room(h.logicalCpus * MILLION * left)
    && Room(PeakMemory(w))
    && Room(h.memoryBytes * (MILLION - p.memoryReserve))
    && Room(h.freeDiskBytes * (MILLION - p.diskReserve))
    && Room(h.burstEvents * left)
    && Room(h.burstInbound * left)
    && Room(h.burstDiskWrite * left)
  }

  // ----- One operation at a time -----

  lemma Grows(a: nat, b: nat)
    requires b > 0
    ensures a <= a * b
  {
    MulMonotone(a, a, 1, b);
  }

  lemma PpmFits(v: U64, p: U64)
    ensures Ppm(v, p).Value? <==> Room(v * p + ROUND)
    ensures Ppm(v, p).Value? ==>
              Ppm(v, p).value == CeilDiv(v * p, MILLION) && Ppm(v, p).value * MILLION <= U64_MAX
              && v * p <= Ppm(v, p).value * MILLION <= v * p + ROUND
  {
    CeilDivBounds(v * p, MILLION);
  }

  lemma RatioCeilFits(d: U64, unit: U64)
    requires unit > 0
    ensures RatioCeil(d, unit).Value? <==> Room(d * MILLION + (unit - 1))
    ensures RatioCeil(d, unit).Value? ==> RatioCeil(d, unit).value * unit <= U64_MAX
  {
    CeilDivBounds(d * MILLION, unit);
  }

  lemma BudgetFits(total: U64, reserve: U64)
    requires reserve <= MILLION
    ensures Budget(total, reserve).Value? <==> Room(total * (MILLION - reserve))
    ensures Budget(total, reserve).Value? ==> Budget(total, reserve).value * MILLION <= total * (MILLION - reserve)
  {
    FloorDivBounds(total * (MILLION - reserve), MILLION);
  }

  lemma LessRoom(a: nat, a': nat, b: nat)
    requires a <= a'
    ensures Room(a' * b) ==> Room(a * b)
  {
    MulMonotone(a, a', b, b);
  }

  // ----- Flows -----

  /** Below a raised rate, the products before scaling fit if the scaled ones do. */
  lemma ScaledProductFits(rate: U64, bytes: U64, amplification: U32)
    requires amplification > 0
    ensures Room(rate * bytes * amplification + ROUND) ==> Room(rate * bytes)
    ensures Mul(rate, bytes).Value? && Ppm(Mul(rate, bytes).value, amplification).Value? <==>
              Room(rate * bytes * amplification + ROUND)
  {
    hide Ppm;
    Grows(rate * bytes, amplification);
    if Room(rate * bytes) { PpmFits(rate * bytes, amplification); }
  }

  lemma FlowFits(events: U64, w: Workload)
    requires ValidWorkload(w)
    ensures FlowOf(events, w).Value? <==> FlowRoom(events, w)
    ensures FlowOf(events, w).Value? ==>
              var f := FlowOf(events, w).value;
              && f.events == Raised(events, w) && f.totalWrite * MILLION <= 2 * U64_MAX
              && f.inbound <= f.totalWrite && f.normalized <= f.totalWrite
  {
    hide Ppm, Mul, CeilDiv;
    PpmFits(events, w.demandUncertainty);
    if Ppm(events, w.demandUncertainty).Value? {
      var rate := Ppm(events, w.demandUncertainty).value;
      ScaledProductFits(rate, w.rawBytes, w.walAmplification);
      ScaledProductFits(rate, w.normalizedBytes, w.parquetAmplification);
      var inbound, normalized := Mul(rate, w.rawBytes), Mul(rate, w.normalizedBytes);
      if inbound.Value? && normalized.Value? {
        WriteFits(inbound.value, w.walAmplification, normalized.value, w.parquetAmplification);
      }
    }
  }

  /** Two scaled rates never overflow when added, and each is at least what it scales. */
  lemma WriteFits(inbound: U64, wal: U32, normalized: U64, parquet: U32)
    requires wal >= MILLION && parquet >= MILLION
    ensures Ppm(inbound, wal).Value? ==> inbound <= Ppm(inbound, wal).value
    ensures Ppm(normalized, parquet).Value? ==> normalized <= Ppm(normalized, parquet).value
    ensures Ppm(inbound, wal).Value? && Ppm(normalized, parquet).Value? ==>
              var total := Ppm(inbound, wal).value + Ppm(normalized, parquet).value;
              Room(total) && total * MILLION <= 2 * U64_MAX
  {
    hide Ppm;
    PpmFits(inbound, wal);
    PpmFits(normalized, parquet);
    MulMonotone(inbound, inbound, MILLION, wal);
    MulMonotone(normalized, normalized, MILLION, parquet);
  }

  /** A smaller load overflows no earlier. */
  lemma FlowRoomShrinks(events: nat, more: nat, w: Workload)
    requires events <= more && FlowRoom(more, w)
    ensures FlowRoom(events, w) && Raised(events, w) <= Raised(more, w)
  {
    hide CeilDiv;
    MulMonotone(events, more, w.demandUncertainty, w.demandUncertainty);
    RaisedMonotone(events * w.demandUncertainty, more * w.demandUncertainty);
    var a, b := Raised(events, w), Raised(more, w);
    MulMonotone(a, b, w.rawBytes, w.rawBytes);
    MulMonotone(a * w.rawBytes, b * w.rawBytes, w.walAmplification, w.walAmplification);
    MulMonotone(a, b, w.normalizedBytes, w.normalizedBytes);
    MulMonotone(a * w.normalizedBytes, b * w.normalizedBytes, w.parquetAmplification, w.parquetAmplification);
  }

  lemma RaisedMonotone(n: nat, m: nat)
    requires n <= m
    ensures CeilDiv(n, MILLION) <= CeilDiv(m, MILLION)
  {
    DivMonotone(n + MILLION - 1, m + MILLION - 1, MILLION);
  }

  /** A day of writes fits whenever the flow does. */
  lemma DayFits(rate: U64, total: U64)
    requires rate <= total && total * MILLION <= 2 * U64_MAX
    ensures Mul(rate, SECONDS_PER_DAY).Value?
  {}

  // ----- Cores, replay, memory, margins -----

  lemma FeatureCoresFit(f: Flow, w: Workload)
    ensures FeatureCores(f, w).Value? <==> Room(f.events * w.featureCpuNanos * MILLION + ROUND_NANOS)
    ensures FeatureCores(f, w).Value? ==> FeatureCores(f, w).value * NANOS_PER_SECOND <= U64_MAX
  {
    hide RatioCeil;
    var n := f.events * w.featureCpuNanos;
    if Room(n) { RatioCeilFits(n, NANOS_PER_SECOND); }
  }

  lemma ReplayCoresFit(w: Workload)
    requires ValidWorkload(w) && w.concurrentReplay
    ensures ReplayCores(w).Value? <==>
              Room(w.replayEvents * w.demandUncertainty + ROUND) && Room(ReplayNanos(w) * MILLION + ROUND_NANOS)
    ensures ReplayCores(w).Value? ==> ReplayCores(w).value * NANOS_PER_SECOND <= U64_MAX
  {
    hide Ppm, RatioCeil, Mul, CeilDiv;
    PpmFits(w.replayEvents, w.demandUncertainty);
    if Ppm(w.replayEvents, w.demandUncertainty).Value? {
      var rate := Ppm(w.replayEvents, w.demandUncertainty).value;
      ScaledProductFits(rate, w.featureCpuNanos, w.replayCpuMultiplier);
      RoundedProduct(rate * w.featureCpuNanos * w.replayCpuMultiplier);
      if Mul(rate, w.featureCpuNanos).Value? {
        MulIs(rate, w.featureCpuNanos);
        PpmFits(rate * w.featureCpuNanos, w.replayCpuMultiplier);
        var scaled := Ppm(rate * w.featureCpuNanos, w.replayCpuMultiplier);
        if scaled.Value? { RatioCeilFits(scaled.value, NANOS_PER_SECOND); }
      }
    }
  }

  lemma MulIs(a: U64, b: U64)
    requires Mul(a, b).Value?
    ensures Mul(a, b).value == a * b
  {}

  /** Rounding a product up to millions leaves room for the rounding term that came before. */
  lemma RoundedProduct(n: nat)
    ensures Room(CeilDiv(n, MILLION) * MILLION + ROUND_NANOS) ==> Room(n + ROUND)
  {
    CeilDivBounds(n, MILLION);
  }

  lemma ReplayFits(w: Workload)
    requires ValidWorkload(w)
    ensures ReplayCores(w).Value? && ReplayOf(w).Value? <==> ReplayRoom(w)
    ensures ReplayCores(w).Value? ==> ReplayCores(w).value * NANOS_PER_SECOND <= U64_MAX
  {
    hide ReplayCores, ReplayOf, ReplayNanos;
    if w.concurrentReplay {
      ReplayCoresFit(w);
      ReplayCostFits(w);
    } else {
      NoReplayFits(w);
    }
  }

  lemma NoReplayFits(w: Workload)
    requires ValidWorkload(w) && !w.concurrentReplay
    ensures ReplayCores(w) == Value(0) && ReplayOf(w).Value?
  {}

  lemma ReplayCostFits(w: Workload)
    requires ValidWorkload(w) && w.concurrentReplay
    ensures ReplayOf(w).Value? <==>
              && Room(w.replayEventCount * (w.rawBytes + w.normalizedBytes))
              && Room(w.replayEventCount * w.featureCpuNanos * w.replayCpuMultiplier + ROUND)
              && Room(w.replayEventCount + (w.replayEvents - 1))
  {
    hide Ppm, Mul;
    var count, bytes := w.replayEventCount, w.rawBytes + w.normalizedBytes;
    Grows(bytes, count);
    ScaledProductFits(count, w.featureCpuNanos, w.replayCpuMultiplier);
    if Mul(count, w.featureCpuNanos).Value? {
      PpmFits(Mul(count, w.featureCpuNanos).value, w.replayCpuMultiplier);
    }
    if Room(bytes) { MulRoom(count, bytes); }
  }

  lemma MulRoom(a: U64, b: U64)
    ensures Mul(a, b).Value? <==> Room(a * b)
  {}

  lemma UsableCoresFit(h: Hardware, p: Policy)
    requires h.evidence.capacityUncertainty < MILLION && p.cpuReserve < MILLION
    ensures UsableCores(h, p).Value? <==> Room(h.logicalCpus * MILLION * (MILLION - h.evidence.capacityUncertainty))
  {
    hide Budget;
    var total, u := h.logicalCpus * MILLION, h.evidence.capacityUncertainty;
    BudgetFits(total, u);
    if Budget(total, u).Value? {
      var adjusted := Budget(total, u).value;
      BudgetFits(adjusted, p.cpuReserve);
      MulMonotone(adjusted, adjusted, MILLION - p.cpuReserve, MILLION);
    }
  }

  lemma ProductRoom(a: U64, b: U64)
    ensures a * b >= 0
    ensures Mul(a, b) == if Room(a * b) then Value(a * b) else Overflow
  {
    MulMonotone(0, a, 0, b);
  }

  lemma BooksFit(w: Workload)
    ensures Books(w) >= 0
    ensures BookMemory(w) == if Room(Books(w)) then Value(Books(w)) else Overflow
  {
    hide Mul;
    ProductRoom(w.tierAInstruments, w.tierABookMemory);
    ProductRoom(w.tierBInstruments, w.tierBBookMemory);
    ProductRoom(w.tierCInstruments, w.tierCBookMemory);
    var a, b, c := w.tierAInstruments * w.tierABookMemory, w.tierBInstruments * w.tierBBookMemory,
                   w.tierCInstruments * w.tierCBookMemory;
    assert Books(w) == a + b + c;
  }

  lemma FeaturesFit(w: Workload)
    requires w.featureMemory > 0
    ensures Instruments(w) * w.featureMemory >= 0
    ensures FeatureMemory(w) == if Room(Instruments(w) * w.featureMemory)
                                then Value(Instruments(w) * w.featureMemory) else Overflow
  {
    hide Mul;
    ProductRoom(Instruments(w), w.featureMemory);
  }

  lemma MemoryFits(w: Workload)
    requires ValidWorkload(w)
    ensures MemoryOf(w).Value? <==> Room(PeakMemory(w))
  {
    hide BookMemory, FeatureMemory, Books;
    BooksFit(w);
    FeaturesFit(w);
    var books, features := Books(w), Instruments(w) * w.featureMemory;
    assert PeakMemory(w) == books + features + w.modelMemory + w.ingestionQueueMemory + w.rpcInflightMemory
                            + w.runtimeMemory;
  }

  lemma MarginFits(capacity: U64, more: U64, u: U64, demand: U64)
    requires u <= MILLION && demand > 0 && capacity <= more && Room(more * (MILLION - u))
    ensures Budget(capacity, u).Value? && Headroom(Budget(capacity, u).value, demand).Value?
  {
    hide Budget;
    LessRoom(capacity, more, MILLION - u);
    BudgetFits(capacity, u);
  }

  lemma MarginsFit(f: Flow, u: U64, events: U64, bandwidth: U64, write: U64, moreEvents: U64, moreBandwidth: U64,
                   moreWrite: U64)
    requires u <= MILLION && f.events > 0 && f.inbound > 0 && f.totalWrite > 0
    requires events <= moreEvents && bandwidth <= moreBandwidth && write <= moreWrite
    requires Room(moreEvents * (MILLION - u)) && Room(moreBandwidth * (MILLION - u)) && Room(moreWrite * (MILLION - u))
    ensures MarginsOf(f, u, events, bandwidth, write).Value?
  {
    hide Budget, Headroom;
    MarginFits(events, moreEvents, u, f.events);
    MarginFits(bandwidth, moreBandwidth, u, f.inbound);
    MarginFits(write, moreWrite, u, f.totalWrite);
  }

  lemma MarginsNeed(f: Flow, u: U64, events: U64, bandwidth: U64, write: U64)
    requires u <= MILLION && f.events > 0 && f.inbound > 0 && f.totalWrite > 0
    requires MarginsOf(f, u, events, bandwidth, write).Value?
    ensures Room(events * (MILLION - u)) && Room(bandwidth * (MILLION - u)) && Room(write * (MILLION - u))
  {
    hide Budget, Headroom;
    BudgetFits(events, u);
    BudgetFits(bandwidth, u);
    BudgetFits(write, u);
  }

  // ----- The estimate -----

  /** The estimate exists exactly when these figures of the input fit 64 bits; no later product or sum can overflow. */
  lemma CalculateFitsIff(input: Input)
    requires ValidInput(input)
    ensures Calculate(input).Value? <==> InputRoom(input)
  {
    hide Calculate, Fits, InputRoom;
    CalculateStages(input);
    if Fits(input) { RoomNeeded(input); }
    if InputRoom(input) { RoomSuffices(input); }
  }

  lemma RoomNeeded(input: Input)
    requires ValidInput(input) && Fits(input)
    ensures InputRoom(input)
  {
    hide FlowOf, FlowRoom, Mul, Add, Budget, FeatureCores, ReplayCores, ReplayOf, ReplayRoom, UsableCores, MemoryOf,
         MarginsOf, PeakMemory, Raised, Room;
    var h, w, p := input.hardware, input.workload, input.policy;
    FlowFits(w.sustainedEvents, w);
    FlowFits(w.burstEvents, w);
    FeatureCoresFit(FlowOf(w.sustainedEvents, w).value, w);
    ReplayFits(w);
    UsableCoresFit(h, p);
    MemoryFits(w);
    BudgetFits(h.memoryBytes, p.memoryReserve);
    BudgetFits(h.freeDiskBytes, p.diskReserve);
    MarginsNeed(FlowOf(w.burstEvents, w).value, h.evidence.capacityUncertainty, h.burstEvents, h.burstInbound,
                h.burstDiskWrite);
  }

  lemma RoomSuffices(input: Input)
    requires ValidInput(input) && InputRoom(input)
    ensures Fits(input)
  {
    hide FlowOf, FlowRoom, Mul, Budget, FeatureCores, ReplayCores, ReplayOf, ReplayRoom, UsableCores, MemoryOf,
         MarginsOf, PeakMemory, Raised, Room;
    var h, w, p := input.hardware, input.workload, input.policy;
    var u := h.evidence.capacityUncertainty;
    FlowRoomShrinks(w.sustainedEvents, w.burstEvents, w);
    FlowFits(w.sustainedEvents, w);
    FlowFits(w.burstEvents, w);
    var f, g := FlowOf(w.sustainedEvents, w).value, FlowOf(w.burstEvents, w).value;
    FlowPositive(w.sustainedEvents, w);
    FlowPositive(w.burstEvents, w);
    DayFits(f.inbound, f.totalWrite);
    DayFits(f.normalized, f.totalWrite);
    DayFits(f.totalWrite, f.totalWrite);
    FeatureCoresFit(f, w);
    ReplayFits(w);
    UsableCoresFit(h, p);
    MemoryFits(w);
    BudgetFits(h.memoryBytes, p.memoryReserve);
    BudgetFits(h.freeDiskBytes, p.diskReserve);
    MarginsFit(f, u, h.sustainedEvents, h.sustainedInbound, h.sustainedDiskWrite, h.burstEvents, h.burstInbound,
               h.burstDiskWrite);
    MarginsFit(g, u, h.burstEvents, h.burstInbound, h.burstDiskWrite, h.burstEvents, h.burstInbound, h.burstDiskWrite);
  }
}
