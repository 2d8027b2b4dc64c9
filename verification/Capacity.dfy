/** Hardware, workload and policy inputs, and the checked capacity estimate over them. */
module Capacity {
  import opened Checked

  const SECONDS_PER_DAY: U64 := 86_400
  const NANOS_PER_SECOND: U64 := 1_000_000_000

  datatype EvidenceLevel = ConservativeDefault | Measured

  datatype Evidence = Evidence(
    level: EvidenceLevel,
    capacityUncertainty: U32,
    sampleCount: U32,
    observedAt: U64,
    hasMeasurement: bool)

  datatype Hardware = Hardware(
    appleSilicon: bool,
    logicalCpus: U32,
    memoryBytes: U64,
    freeDiskBytes: U64,
    sustainedInbound: U64,
    burstInbound: U64,
    sustainedDiskWrite: U64,
    burstDiskWrite: U64,
    sustainedEvents: U64,
    burstEvents: U64,
    evidence: Evidence)

  datatype Workload = Workload(
    tierAInstruments: U32,
    tierBInstruments: U32,
    tierCInstruments: U32,
    tierARetentionDays: U32,
    tierBRetentionDays: U32,
    tierCRetentionDays: U32,
    sustainedEvents: U64,
    burstEvents: U64,
    demandUncertainty: U32,
    rawBytes: U64,
    normalizedBytes: U64,
    walAmplification: U32,
    parquetAmplification: U32,
    featureCpuNanos: U64,
    tierABookMemory: U64,
    tierBBookMemory: U64,
    tierCBookMemory: U64,
    featureMemory: U64,
    modelMemory: U64,
    ingestionQueueMemory: U64,
    rpcInflightMemory: U64,
    runtimeMemory: U64,
    concurrentReplay: bool,
    replayEventCount: U64,
    replayEvents: U64,
    replayCpuMultiplier: U32)

  datatype Policy = Policy(
    memoryReserve: U32,
    diskReserve: U32,
    cpuReserve: U32,
    sustainedHeadroom: U32,
    burstHeadroom: U32,
    sustainedBandwidthHeadroom: U32,
    burstBandwidthHeadroom: U32,
    sustainedWriteHeadroom: U32,
    burstWriteHeadroom: U32)

  datatype Input = Input(hardware: Hardware, workload: Workload, policy: Policy)

  // ----- Validation -----

  predicate ValidAmplification(value: U32) { MILLION <= value <= 10 * MILLION }

  predicate ValidReserve(value: U32) { value < MILLION }

  predicate ValidEvidence(e: Evidence) {
    match e.level
    case ConservativeDefault =>
      e.capacityUncertainty >= 250_000 && e.sampleCount == 0 && e.observedAt == 0 && !e.hasMeasurement
    case Measured => e.sampleCount > 0 && e.observedAt > 0 && e.hasMeasurement
  }

  predicate ValidHardware(h: Hardware) {
    && h.logicalCpus > 0 && h.memoryBytes > 0 && h.freeDiskBytes > 0
    && 0 < h.sustainedInbound <= h.burstInbound
    && 0 < h.sustainedDiskWrite <= h.burstDiskWrite
    && 0 < h.sustainedEvents <= h.burstEvents
    && h.evidence.capacityUncertainty < MILLION
    && ValidEvidence(h.evidence)
  }

  predicate ValidReplay(w: Workload) {
    if w.concurrentReplay
    then w.replayEventCount > 0 && w.replayEvents > 0 && ValidAmplification(w.replayCpuMultiplier)
    else w.replayEventCount == 0 && w.replayEvents == 0
  }

  predicate ValidWorkload(w: Workload) {
    && w.tierAInstruments > 0 && w.tierARetentionDays > 0
    && (w.tierBInstruments == 0 <==> w.tierBRetentionDays == 0)
    && (w.tierCInstruments == 0 <==> w.tierCRetentionDays == 0)
    && 0 < w.sustainedEvents <= w.burstEvents
    && ValidAmplification(w.demandUncertainty)
    && w.rawBytes > 0 && w.normalizedBytes > 0
    && ValidAmplification(w.walAmplification) && ValidAmplification(w.parquetAmplification)
    && w.featureCpuNanos > 0
    && w.tierABookMemory > 0
    && (w.tierBInstruments == 0 || w.tierBBookMemory > 0)
    && (w.tierCInstruments == 0 || w.tierCBookMemory > 0)
    && w.featureMemory > 0
    && ValidReplay(w)
  }

  predicate ValidPolicy(p: Policy) {
    && ValidReserve(p.memoryReserve) && ValidReserve(p.diskReserve) && ValidReserve(p.cpuReserve)
    && ValidAmplification(p.sustainedHeadroom) && ValidAmplification(p.burstHeadroom)
    && ValidAmplification(p.sustainedBandwidthHeadroom) && ValidAmplification(p.burstBandwidthHeadroom)
    && ValidAmplification(p.sustainedWriteHeadroom) && ValidAmplification(p.burstWriteHeadroom)
  }

  predicate ValidInput(input: Input) {
    ValidHardware(input.hardware) && ValidWorkload(input.workload) && ValidPolicy(input.policy)
  }

  // ----- Stages of the estimate -----

  /** Event, byte and write rates at one load level, demand uncertainty included. */
  datatype Flow = Flow(events: U64, inbound: U64, normalized: U64, walWrite: U64, parquetWrite: U64, totalWrite: U64)

  function FlowOf(events: U64, w: Workload): (r: Checked<Flow>) {
    var expected :- Ppm(events, w.demandUncertainty);
    var inbound :- Mul(expected, w.rawBytes);
    var normalized :- Mul(expected, w.normalizedBytes);
    var walWrite :- Ppm(inbound, w.walAmplification);
    var parquetWrite :- Ppm(normalized, w.parquetAmplification);
    var totalWrite :- Add(walWrite, parquetWrite);
    Value(Flow(expected, inbound, normalized, walWrite, parquetWrite, totalWrite))
  }

  /** The same rates in unbounded arithmetic. */
  predicate ExactFlow(f: Flow, events: nat, w: Workload) {
    && f.events == CeilDiv(events * w.demandUncertainty, MILLION)
    && f.inbound == f.events * w.rawBytes
    && f.normalized == f.events * w.normalizedBytes
    && f.walWrite == CeilDiv(f.inbound * w.walAmplification, MILLION)
    && f.parquetWrite == CeilDiv(f.normalized * w.parquetAmplification, MILLION)
    && f.totalWrite == f.walWrite + f.parquetWrite
  }

  lemma FlowExact(events: U64, w: Workload)
    requires FlowOf(events, w).Value?
    ensures ExactFlow(FlowOf(events, w).value, events, w)
  {
    hide CeilDiv;
    var f := FlowOf(events, w).value;
    PpmExact(events, w.demandUncertainty);
    PpmExact(f.inbound, w.walAmplification);
    PpmExact(f.normalized, w.parquetAmplification);
  }

  /** Every rate of a valid workload is positive, so it can safely divide. */
  lemma FlowPositive(events: U64, w: Workload)
    requires ValidWorkload(w) && events > 0 && FlowOf(events, w).Value?
    ensures var f := FlowOf(events, w).value; f.events > 0 && f.inbound > 0 && f.totalWrite > 0
  {
    hide Ppm;
    var f := FlowOf(events, w).value;
    PpmExact(events, w.demandUncertainty);
    MulMonotone(1, f.events, 1, w.rawBytes);
    PpmExact(f.inbound, w.walAmplification);
  }

  lemma DayPositive(rate: U64)
    requires rate > 0
    ensures Mul(rate, SECONDS_PER_DAY).Value? ==> Mul(rate, SECONDS_PER_DAY).value > 0
  {}

  function FeatureCores(f: Flow, w: Workload): (r: Checked<U64>) {
    var nanos :- Mul(f.events, w.featureCpuNanos);
    RatioCeil(nanos, NANOS_PER_SECOND)
  }

  function ReplayCores(w: Workload): (r: Checked<U64>) {
    if !w.concurrentReplay then Value(0)
    else
      var events :- Ppm(w.replayEvents, w.demandUncertainty);
      var nanos :- Mul(events, w.featureCpuNanos);
      var scaled :- Ppm(nanos, w.replayCpuMultiplier);
      RatioCeil(scaled, NANOS_PER_SECOND)
  }

  function UsableCores(h: Hardware, p: Policy): (r: Checked<U64>)
    requires h.evidence.capacityUncertainty < MILLION && p.cpuReserve < MILLION
  {
    var total :- Mul(h.logicalCpus, MILLION);
    var adjusted :- Budget(total, h.evidence.capacityUncertainty);
    Budget(adjusted, p.cpuReserve)
  }

  /** Replay cost figures; reported, never decisive. */
  datatype Replay = Replay(readBytes: U64, cpuCoreSeconds: U64, durationSeconds: U64)

  function ReplayOf(w: Workload): (r: Checked<Replay>)
    requires ValidReplay(w)
  {
    if !w.concurrentReplay then Value(Replay(0, 0, 0))
    else
      var perEvent :- Add(w.rawBytes, w.normalizedBytes);
      var readBytes :- Mul(w.replayEventCount, perEvent);
      var nanos :- Mul(w.replayEventCount, w.featureCpuNanos);
      var scaled :- Ppm(nanos, w.replayCpuMultiplier);
      var seconds :- DivCeil(scaled, NANOS_PER_SECOND);
      var duration :- DivCeil(w.replayEventCount, w.replayEvents);
      Value(Replay(readBytes, seconds, duration))
  }

  datatype Memory = Memory(books: U64, features: U64, peak: U64)

  function BookMemory(w: Workload): (r: Checked<U64>) {
    var a :- Mul(w.tierAInstruments, w.tierABookMemory);
    var b :- Mul(w.tierBInstruments, w.tierBBookMemory);
    var c :- Mul(w.tierCInstruments, w.tierCBookMemory);
    var ab :- Add(a, b);
    Add(ab, c)
  }

  function FeatureMemory(w: Workload): (r: Checked<U64>) {
    var ab :- Add(w.tierAInstruments, w.tierBInstruments);
    var abc :- Add(ab, w.tierCInstruments);
    Mul(abc, w.featureMemory)
  }

  function MemoryOf(w: Workload): (r: Checked<Memory>) {
    var books :- BookMemory(w);
    var features :- FeatureMemory(w);
    var p1 :- Add(books, features);
    var p2 :- Add(p1, w.modelMemory);
    var p3 :- Add(p2, w.ingestionQueueMemory);
    var p4 :- Add(p3, w.rpcInflightMemory);
    var p5 :- Add(p4, w.runtimeMemory);
    Value(Memory(books, features, p5))
  }

  function Instruments(w: Workload): (n: nat) { w.tierAInstruments + w.tierBInstruments + w.tierCInstruments }

  /** The memory a workload needs, in unbounded arithmetic. */
  function PeakMemory(w: Workload): (n: int) {
    Books(w) + Instruments(w) * w.featureMemory
    + w.modelMemory + w.ingestionQueueMemory + w.rpcInflightMemory + w.runtimeMemory
  }

  function Books(w: Workload): (n: int) {
    w.tierAInstruments * w.tierABookMemory + w.tierBInstruments * w.tierBBookMemory
    + w.tierCInstruments * w.tierCBookMemory
  }

  lemma MemoryExact(w: Workload)
    requires MemoryOf(w).Value?
    ensures MemoryOf(w).value.peak == PeakMemory(w)
  {}

  /** Event, bandwidth and write headroom at one load level. */
  datatype Margins = Margins(events: U64, bandwidth: U64, write: U64)

  function MarginsOf(f: Flow, uncertainty: U64, events: U64, bandwidth: U64, write: U64): (r: Checked<Margins>)
    requires uncertainty <= MILLION && f.events > 0 && f.inbound > 0 && f.totalWrite > 0
  {
    var effectiveEvents :- Budget(events, uncertainty);
    var effectiveBandwidth :- Budget(bandwidth, uncertainty);
    var effectiveWrite :- Budget(write, uncertainty);
    var e :- Headroom(effectiveEvents, f.events);
    var b :- Headroom(effectiveBandwidth, f.inbound);
    var t :- Headroom(effectiveWrite, f.totalWrite);
    Value(Margins(e, b, t))
  }

  datatype Estimate = Estimate(
    sustained: Flow,
    burst: Flow,
    rawBytesPerDay: U64,
    normalizedBytesPerDay: U64,
    retainedBytesPerDay: U64,
    featureCores: U64,
    replayCores: U64,
    totalCores: U64,
    usableCores: U64,
    replay: Replay,
    memory: Memory,
    usableMemory: U64,
    usableDisk: U64,
    retentionDaysSupported: U64,
    sustainedMargins: Margins,
    burstMargins: Margins)

  function Calculate(input: Input): (r: Checked<Estimate>)
    requires ValidInput(input)
  {
    hide FlowOf, Mul, Add, Budget, FeatureCores, ReplayCores, ReplayOf, UsableCores, MemoryOf, MarginsOf;
    var h, w, p := input.hardware, input.workload, input.policy;
    var uncertainty := h.evidence.capacityUncertainty;
    var sustained :- FlowOf(w.sustainedEvents, w);
    var burst :- FlowOf(w.burstEvents, w);
    FlowPositive(w.sustainedEvents, w);
    FlowPositive(w.burstEvents, w);
    var rawPerDay :- Mul(sustained.inbound, SECONDS_PER_DAY);
    var normalizedPerDay :- Mul(sustained.normalized, SECONDS_PER_DAY);
    var retainedPerDay :- Mul(sustained.totalWrite, SECONDS_PER_DAY);
    DayPositive(sustained.totalWrite);
    var featureCores :- FeatureCores(sustained, w);
    var replayCores :- ReplayCores(w);
    var replay :- ReplayOf(w);
    var totalCores :- Add(featureCores, replayCores);
    var usableCores :- UsableCores(h, p);
    var memory :- MemoryOf(w);
    var usableMemory :- Budget(h.memoryBytes, p.memoryReserve);
    var usableDisk :- Budget(h.freeDiskBytes, p.diskReserve);
    var sustainedMargins :-
      MarginsOf(sustained, uncertainty, h.sustainedEvents, h.sustainedInbound, h.sustainedDiskWrite);
    var burstMargins :- MarginsOf(burst, uncertainty, h.burstEvents, h.burstInbound, h.burstDiskWrite);
    Value(Estimate(sustained, burst, rawPerDay, normalizedPerDay, retainedPerDay, featureCores, replayCores, totalCores,
                   usableCores, replay, memory, usableMemory, usableDisk, usableDisk / retainedPerDay,
                   sustainedMargins, burstMargins))
  }

  /** Every stage of the estimate fits in 64 bits. */
  predicate Fits(input: Input)
    requires ValidInput(input)
  {
    hide FlowOf, Mul, Add, Budget, FeatureCores, ReplayCores, ReplayOf, UsableCores, MemoryOf, MarginsOf;
    var h, w, p := input.hardware, input.workload, input.policy;
    var uncertainty := h.evidence.capacityUncertainty;
    && FlowOf(w.sustainedEvents, w).Value?
    && FlowOf(w.burstEvents, w).Value?
    && var sustained, burst := FlowOf(w.sustainedEvents, w).value, FlowOf(w.burstEvents, w).value;
    && Mul(sustained.inbound, SECONDS_PER_DAY).Value?
    && Mul(sustained.normalized, SECONDS_PER_DAY).Value?
    && Mul(sustained.totalWrite, SECONDS_PER_DAY).Value?
    && FeatureCores(sustained, w).Value?
    && ReplayCores(w).Value?
    && ReplayOf(w).Value?
    && Add(FeatureCores(sustained, w).value, ReplayCores(w).value).Value?
    && UsableCores(h, p).Value?
    && MemoryOf(w).Value?
    && Budget(h.memoryBytes, p.memoryReserve).Value?
    && Budget(h.freeDiskBytes, p.diskReserve).Value?
    && sustained.events > 0 && sustained.inbound > 0 && sustained.totalWrite > 0
    && burst.events > 0 && burst.inbound > 0 && burst.totalWrite > 0
    && MarginsOf(sustained, uncertainty, h.sustainedEvents, h.sustainedInbound, h.sustainedDiskWrite).Value?
    && MarginsOf(burst, uncertainty, h.burstEvents, h.burstInbound, h.burstDiskWrite).Value?
  }

  /** The estimate exists exactly when every stage fits, and then its figures are the stages' figures. */
  lemma CalculateStages(input: Input)
    requires ValidInput(input)
    ensures Calculate(input).Value? <==> Fits(input)
    ensures Calculate(input).Value? ==>
              var e, h, w, p := Calculate(input).value, input.hardware, input.workload, input.policy;
              && FlowOf(w.sustainedEvents, w) == Value(e.sustained)
              && FlowOf(w.burstEvents, w) == Value(e.burst)
              && Mul(e.sustained.totalWrite, SECONDS_PER_DAY) == Value(e.retainedBytesPerDay)
              && FeatureCores(e.sustained, w) == Value(e.featureCores)
              && ReplayCores(w) == Value(e.replayCores)
              && Add(e.featureCores, e.replayCores) == Value(e.totalCores)
              && UsableCores(h, p) == Value(e.usableCores)
              && MemoryOf(w) == Value(e.memory)
              && Budget(h.memoryBytes, p.memoryReserve) == Value(e.usableMemory)
              && Budget(h.freeDiskBytes, p.diskReserve) == Value(e.usableDisk)
              && e.retainedBytesPerDay > 0
              && e.retentionDaysSupported == e.usableDisk / e.retainedBytesPerDay
  {
    hide FlowOf, Mul, Add, Budget, FeatureCores, ReplayCores, ReplayOf, UsableCores, MemoryOf, MarginsOf;
    var w := input.workload;
    if FlowOf(w.sustainedEvents, w).Value? {
      FlowPositive(w.sustainedEvents, w);
      DayPositive(FlowOf(w.sustainedEvents, w).value.totalWrite);
    }
    if FlowOf(w.burstEvents, w).Value? { FlowPositive(w.burstEvents, w); }
  }

  lemma CalculateMargins(input: Input)
    requires ValidInput(input) && Calculate(input).Value?
    ensures var e, h := Calculate(input).value, input.hardware;
            var u := h.evidence.capacityUncertainty;
            && e.sustained.events > 0 && e.sustained.inbound > 0 && e.sustained.totalWrite > 0
            && e.burst.events > 0 && e.burst.inbound > 0 && e.burst.totalWrite > 0
            && MarginsOf(e.sustained, u, h.sustainedEvents, h.sustainedInbound, h.sustainedDiskWrite)
               == Value(e.sustainedMargins)
            && MarginsOf(e.burst, u, h.burstEvents, h.burstInbound, h.burstDiskWrite) == Value(e.burstMargins)
  {
    hide FlowOf, Mul, Add, Budget, FeatureCores, ReplayCores, ReplayOf, UsableCores, MemoryOf, MarginsOf;
    var w := input.workload;
    FlowPositive(w.sustainedEvents, w);
    FlowPositive(w.burstEvents, w);
  }

  // ----- The unbounded specification -----

  function ExactBudget(total: nat, reserve: nat): (b: nat)
    requires reserve <= MILLION
  {
    total * (MILLION - reserve) / MILLION
  }

  predicate ExactMargins(m: Margins, f: Flow, u: nat, events: nat, bandwidth: nat, write: nat)
    requires u <= MILLION && f.events > 0 && f.inbound > 0 && f.totalWrite > 0
  {
    && m.events == ExactBudget(events, u) * MILLION / f.events
    && m.bandwidth == ExactBudget(bandwidth, u) * MILLION / f.inbound
    && m.write == ExactBudget(write, u) * MILLION / f.totalWrite
  }

  lemma MarginsExact(f: Flow, u: U64, events: U64, bandwidth: U64, write: U64)
    requires u <= MILLION && f.events > 0 && f.inbound > 0 && f.totalWrite > 0
    requires MarginsOf(f, u, events, bandwidth, write).Value?
    ensures ExactMargins(MarginsOf(f, u, events, bandwidth, write).value, f, u, events, bandwidth, write)
  {
    hide Headroom, Budget;
    BudgetIs(events, u);
    BudgetIs(bandwidth, u);
    BudgetIs(write, u);
    HeadroomIs(Budget(events, u).value, f.events);
    HeadroomIs(Budget(bandwidth, u).value, f.inbound);
    HeadroomIs(Budget(write, u).value, f.totalWrite);
  }

  lemma BudgetIs(total: U64, reserve: U64)
    requires reserve <= MILLION && Budget(total, reserve).Value?
    ensures Budget(total, reserve).value == ExactBudget(total, reserve)
  {}

  lemma HeadroomIs(capacity: U64, demand: U64)
    requires demand > 0 && Headroom(capacity, demand).Value?
    ensures Headroom(capacity, demand).value == capacity * MILLION / demand
  {}

  function ExactFeatureCores(f: Flow, w: Workload): (c: nat) {
    CeilDiv(f.events * w.featureCpuNanos * MILLION, NANOS_PER_SECOND)
  }

  function ExactReplayCores(w: Workload): (c: nat) {
    if !w.concurrentReplay then 0
    else
      var events := CeilDiv(w.replayEvents * w.demandUncertainty, MILLION);
      var scaled := CeilDiv(events * w.featureCpuNanos * w.replayCpuMultiplier, MILLION);
      CeilDiv(scaled * MILLION, NANOS_PER_SECOND)
  }

  lemma CoresExact(f: Flow, w: Workload)
    ensures FeatureCores(f, w).Value? ==> FeatureCores(f, w).value == ExactFeatureCores(f, w)
    ensures ReplayCores(w).Value? ==> ReplayCores(w).value == ExactReplayCores(w)
  {
    hide Ppm, CeilDiv, RatioCeil;
    if FeatureCores(f, w).Value? { RatioCeilIs(f.events * w.featureCpuNanos, NANOS_PER_SECOND); }
    if w.concurrentReplay && ReplayCores(w).Value? {
      PpmExact(w.replayEvents, w.demandUncertainty);
      var nanos := Ppm(w.replayEvents, w.demandUncertainty).value * w.featureCpuNanos;
      PpmExact(nanos, w.replayCpuMultiplier);
      RatioCeilIs(Ppm(nanos, w.replayCpuMultiplier).value, NANOS_PER_SECOND);
    }
  }

  lemma RatioCeilIs(demand: U64, unit: U64)
    requires unit > 0 && RatioCeil(demand, unit).Value?
    ensures RatioCeil(demand, unit).value == CeilDiv(demand * MILLION, unit)
  {}

  /** Whenever the estimate exists, each decisive figure equals its unbounded-integer specification. */
  lemma CalculateExact(input: Input)
    requires ValidInput(input) && Calculate(input).Value?
    ensures var e, h, w, p := Calculate(input).value, input.hardware, input.workload, input.policy;
            var u := h.evidence.capacityUncertainty;
            && ExactFlow(e.sustained, w.sustainedEvents, w)
            && ExactFlow(e.burst, w.burstEvents, w)
            && e.sustained.events > 0 && e.sustained.inbound > 0 && e.sustained.totalWrite > 0
            && e.burst.events > 0 && e.burst.inbound > 0 && e.burst.totalWrite > 0
            && e.retainedBytesPerDay == e.sustained.totalWrite * SECONDS_PER_DAY > 0
            && e.totalCores == ExactFeatureCores(e.sustained, w) + ExactReplayCores(w)
            && e.usableCores == ExactBudget(ExactBudget(h.logicalCpus * MILLION, u), p.cpuReserve)
            && e.usableMemory == ExactBudget(h.memoryBytes, p.memoryReserve)
            && e.retentionDaysSupported == ExactBudget(h.freeDiskBytes, p.diskReserve) / e.retainedBytesPerDay
            && e.memory.peak == PeakMemory(w)
            && ExactMargins(e.sustainedMargins, e.sustained, u, h.sustainedEvents, h.sustainedInbound,
                            h.sustainedDiskWrite)
            && ExactMargins(e.burstMargins, e.burst, u, h.burstEvents, h.burstInbound, h.burstDiskWrite)
  {
    hide Calculate, Fits, FlowOf, Mul, Add, Budget, FeatureCores, ReplayCores, UsableCores, MemoryOf, MarginsOf,
         ExactFlow, ExactMargins, ExactBudget, ExactFeatureCores, ExactReplayCores;
    var e, h, w, p := Calculate(input).value, input.hardware, input.workload, input.policy;
    var u := h.evidence.capacityUncertainty;
    CalculateStages(input);
    CalculateMargins(input);
    FlowExact(w.sustainedEvents, w);
    FlowExact(w.burstEvents, w);
    CoresExact(e.sustained, w);
    UsableCoresExact(h, p);
    MemoryExact(w);
    BudgetIs(h.memoryBytes, p.memoryReserve);
    BudgetIs(h.freeDiskBytes, p.diskReserve);
    MarginsExact(e.sustained, u, h.sustainedEvents, h.sustainedInbound, h.sustainedDiskWrite);
    MarginsExact(e.burst, u, h.burstEvents, h.burstInbound, h.burstDiskWrite);
    SumsExact(e.sustained.totalWrite, e.featureCores, e.replayCores);
  }

  lemma UsableCoresExact(h: Hardware, p: Policy)
    requires h.evidence.capacityUncertainty < MILLION && p.cpuReserve < MILLION && UsableCores(h, p).Value?
    ensures UsableCores(h, p).value
            == ExactBudget(ExactBudget(h.logicalCpus * MILLION, h.evidence.capacityUncertainty), p.cpuReserve)
  {
    hide Budget, ExactBudget;
    BudgetIs(h.logicalCpus * MILLION, h.evidence.capacityUncertainty);
    BudgetIs(Budget(h.logicalCpus * MILLION, h.evidence.capacityUncertainty).value, p.cpuReserve);
  }

  lemma SumsExact(rate: U64, a: U64, b: U64)
    ensures Mul(rate, SECONDS_PER_DAY).Value? ==> Mul(rate, SECONDS_PER_DAY).value == rate * SECONDS_PER_DAY
    ensures Add(a, b).Value? ==> Add(a, b).value == a + b
  {}
}
