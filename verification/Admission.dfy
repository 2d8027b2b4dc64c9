/** Admission reasons, the downgrade proposal, and what both guarantee. */
module Admission {
  import opened Results
  import opened Checked
  import opened Capacity

  datatype Reason =
    | AppleSiliconRequired
    | MemoryBudgetExceeded
    | RetentionBudgetExceeded
    | CpuBudgetExceeded
    | SustainedEventHeadroomInsufficient
    | BurstEventHeadroomInsufficient
    | SustainedBandwidthHeadroomInsufficient
    | BurstBandwidthHeadroomInsufficient
    | SustainedWriteHeadroomInsufficient
    | BurstWriteHeadroomInsufficient

  datatype CapacityError = InvalidInput | ArithmeticOverflow

  function Max3(a: nat, b: nat, c: nat): (m: nat) {
    var ab := if a < b then b else a;
    if ab < c then c else ab
  }

  function RequiredDays(w: Workload): (d: nat) {
    Max3(w.tierARetentionDays, w.tierBRetentionDays, w.tierCRetentionDays)
  }

  predicate Applies(reason: Reason, input: Input, e: Estimate) {
    var p := input.policy;
    match reason
    case AppleSiliconRequired => !input.hardware.appleSilicon
    case MemoryBudgetExceeded => e.memory.peak > e.usableMemory
    case RetentionBudgetExceeded => e.retentionDaysSupported < RequiredDays(input.workload)
    case CpuBudgetExceeded => e.totalCores > e.usableCores
    case SustainedEventHeadroomInsufficient => e.sustainedMargins.events < p.sustainedHeadroom
    case BurstEventHeadroomInsufficient => e.burstMargins.events < p.burstHeadroom
    case SustainedBandwidthHeadroomInsufficient => e.sustainedMargins.bandwidth < p.sustainedBandwidthHeadroom
    case BurstBandwidthHeadroomInsufficient => e.burstMargins.bandwidth < p.burstBandwidthHeadroom
    case SustainedWriteHeadroomInsufficient => e.sustainedMargins.write < p.sustainedWriteHeadroom
    case BurstWriteHeadroomInsufficient => e.burstMargins.write < p.burstWriteHeadroom
  }

  function ReasonsOf(input: Input, e: Estimate): (rs: set<Reason>) {
    set r: Reason | Applies(r, input, e)
  }

  /** Collects each reason that applies, one insertion at a time. */
  method CollectReasons(input: Input, e: Estimate) returns (rs: set<Reason>)
    ensures rs == ReasonsOf(input, e)
  {
    hide With, RequiredDays;
    var p := input.policy;
    rs := {};
    rs := With(rs, !input.hardware.appleSilicon, AppleSiliconRequired);
    rs := With(rs, e.memory.peak > e.usableMemory, MemoryBudgetExceeded);
    rs := With(rs, e.retentionDaysSupported < RequiredDays(input.workload), RetentionBudgetExceeded);
    rs := With(rs, e.totalCores > e.usableCores, CpuBudgetExceeded);
    rs := With(rs, e.sustainedMargins.events < p.sustainedHeadroom, SustainedEventHeadroomInsufficient);
    rs := With(rs, e.burstMargins.events < p.burstHeadroom, BurstEventHeadroomInsufficient);
    rs := With(rs, e.sustainedMargins.bandwidth < p.sustainedBandwidthHeadroom, SustainedBandwidthHeadroomInsufficient);
    rs := With(rs, e.burstMargins.bandwidth < p.burstBandwidthHeadroom, BurstBandwidthHeadroomInsufficient);
    rs := With(rs, e.sustainedMargins.write < p.sustainedWriteHeadroom, SustainedWriteHeadroomInsufficient);
    rs := With(rs, e.burstMargins.write < p.burstWriteHeadroom, BurstWriteHeadroomInsufficient);
    forall r: Reason ensures r in rs <==> Applies(r, input, e) {
    }
  }

  /** Insert when the condition holds. */
  function With(rs: set<Reason>, condition: bool, reason: Reason): (more: set<Reason>)
    ensures forall r: Reason :: r in more <==> r in rs || (condition && r == reason)
  {
    if condition then rs + {reason} else rs
  }

  // ----- Rounding is on the safe side -----

  /** Events per second times the demand uncertainty, in millionths. */
  function Exposure(w: Workload, events: nat): (x: nat) { events * w.demandUncertainty }

  /** Bytes written per event, in millionths: raw to the log, normalised to columnar files. */
  function WriteUnit(w: Workload): (u: nat) {
    w.rawBytes * w.walAmplification + w.normalizedBytes * w.parquetAmplification
  }

  /** In unbounded integers: the capacity left after its uncertainty covers the load with the margin. */
  predicate Covers(capacity: nat, uncertainty: nat, margin: nat, load: nat)
    requires uncertainty <= MILLION
  {
    margin * load <= capacity * (MILLION - uncertainty) * MILLION
  }

  /** What a load level must satisfy, in exact integers, for each of its three margins. */
  predicate LoadCovered(h: Hardware, w: Workload, events: nat, capacity: nat, bandwidth: nat, write: nat,
                        eventMargin: nat, bandwidthMargin: nat, writeMargin: nat)
    requires h.evidence.capacityUncertainty < MILLION
  {
    var u, x := h.evidence.capacityUncertainty, Exposure(w, events);
    && Covers(capacity, u, eventMargin, x)
    && Covers(bandwidth, u, bandwidthMargin, x * w.rawBytes)
    && Covers(write * MILLION, u, writeMargin, x * WriteUnit(w))
  }

  lemma BudgetHeadroom(capacity: U64, u: U64, load: U64, margin: nat)
    requires u <= MILLION && load > 0 && Budget(capacity, u).Value?
    requires Headroom(Budget(capacity, u).value, load).Value?
    requires margin <= Headroom(Budget(capacity, u).value, load).value
    ensures margin * load * MILLION <= capacity * (MILLION - u) * MILLION
  {
    hide Budget, Headroom;
    var effective := Budget(capacity, u).value;
    var headroom := Headroom(effective, load).value;
    BudgetExact(capacity, u);
    HeadroomExact(effective, load);
    MulMonotone(margin, headroom, load, load);
    MulMonotone(margin * load, effective * MILLION, MILLION, MILLION);
    MulMonotone(effective * MILLION, capacity * (MILLION - u), MILLION, MILLION);
  }

  lemma ScaledLoad(margin: nat, x: nat, load: nat, bound: nat)
    requires x <= load * MILLION && margin * load * MILLION <= bound
    ensures margin * x <= bound
  {
    MulMonotone(margin, margin, x, load * MILLION);
    assert margin * (load * MILLION) == margin * load * MILLION;
  }

  lemma ScaleUnit(x: nat, load: nat, unit: nat)
    requires x <= load * MILLION
    ensures x * unit <= load * unit * MILLION
  {
    MulMonotone(x, load * MILLION, unit, unit);
    assert load * MILLION * unit == load * unit * MILLION;
  }

  lemma FlowCoversDemand(events: U64, w: Workload, x: nat)
    requires FlowOf(events, w).Value? && x == Exposure(w, events)
    ensures var f := FlowOf(events, w).value;
            && x <= f.events * MILLION
            && x * w.rawBytes <= f.inbound * MILLION
            && x * w.normalizedBytes <= f.normalized * MILLION
  {
    hide Ppm;
    var f := FlowOf(events, w).value;
    PpmExact(events, w.demandUncertainty);
    ScaleUnit(x, f.events, w.rawBytes);
    ScaleUnit(x, f.events, w.normalizedBytes);
  }

  lemma FlowCoversWrites(events: U64, w: Workload)
    requires FlowOf(events, w).Value?
    ensures var f := FlowOf(events, w).value;
            f.inbound * w.walAmplification + f.normalized * w.parquetAmplification <= f.totalWrite * MILLION
  {
    hide Ppm, Mul;
    var f := FlowOf(events, w).value;
    PpmExact(f.inbound, w.walAmplification);
    PpmExact(f.normalized, w.parquetAmplification);
    assert (f.walWrite + f.parquetWrite) * MILLION == f.walWrite * MILLION + f.parquetWrite * MILLION;
  }

  lemma ScaleAmplified(x: nat, bytes: nat, load: nat, amplification: nat)
    requires x * bytes <= load * MILLION
    ensures x * (bytes * amplification) <= load * amplification * MILLION
  {
    ScaleUnit(x * bytes, load, amplification);
    assert x * bytes * amplification == x * (bytes * amplification);
  }

  /** The exact write demand, at the amplifications, is covered by the rounded total. */
  lemma WriteCoversDemand(x: nat, rawAmplified: nat, normalizedAmplified: nat, walLoad: nat, parquetLoad: nat,
                          total: nat)
    requires x * rawAmplified <= walLoad * MILLION && x * normalizedAmplified <= parquetLoad * MILLION
    requires walLoad + parquetLoad <= total * MILLION
    ensures x * (rawAmplified + normalizedAmplified) <= total * MILLION * MILLION
  {
    assert x * (rawAmplified + normalizedAmplified) == x * rawAmplified + x * normalizedAmplified;
    MulMonotone(walLoad + parquetLoad, total * MILLION, MILLION, MILLION);
  }

  lemma WriteMargin(margin: nat, demand: nat, total: nat, bound: nat)
    requires demand <= total * MILLION * MILLION && margin * total * MILLION <= bound
    ensures margin * demand <= bound * MILLION
  {
    MulMonotone(margin, margin, demand, total * MILLION * MILLION);
    assert margin * (total * MILLION * MILLION) == margin * total * MILLION * MILLION;
    MulMonotone(margin * total * MILLION, bound, MILLION, MILLION);
  }

  /** The exact write demand, at the amplifications, is covered by the rounded total. */
  lemma FlowCoversWriteUnit(events: U64, w: Workload, x: nat)
    requires FlowOf(events, w).Value? && x == Exposure(w, events)
    ensures x * WriteUnit(w) <= FlowOf(events, w).value.totalWrite * MILLION * MILLION
  {
    hide FlowOf, Exposure;
    var f := FlowOf(events, w).value;
    FlowCoversDemand(events, w, x);
    FlowCoversWrites(events, w);
    WriteUnitCovered(x, w, f.inbound, f.normalized, f.totalWrite);
  }

  lemma WriteUnitCovered(x: nat, w: Workload, inbound: nat, normalized: nat, total: nat)
    requires x * w.rawBytes <= inbound * MILLION && x * w.normalizedBytes <= normalized * MILLION
    requires inbound * w.walAmplification + normalized * w.parquetAmplification <= total * MILLION
    ensures x * WriteUnit(w) <= total * MILLION * MILLION
  {
    ScaleAmplified(x, w.rawBytes, inbound, w.walAmplification);
    ScaleAmplified(x, w.normalizedBytes, normalized, w.parquetAmplification);
    WriteCoversDemand(x, w.rawBytes * w.walAmplification, w.normalizedBytes * w.parquetAmplification,
                      inbound * w.walAmplification, normalized * w.parquetAmplification, total);
  }

  lemma CoversEvents(capacity: U64, u: U64, margin: nat, load: U64, x: nat)
    requires u <= MILLION && load > 0 && Budget(capacity, u).Value? && x <= load * MILLION
    requires Headroom(Budget(capacity, u).value, load).Value?
    requires margin <= Headroom(Budget(capacity, u).value, load).value
    ensures Covers(capacity, u, margin, x)
  {
    hide Budget, Headroom;
    BudgetHeadroom(capacity, u, load, margin);
    ScaledLoad(margin, x, load, capacity * (MILLION - u) * MILLION);
  }

  lemma CoversWrites(capacity: U64, u: U64, margin: nat, load: U64, x: nat)
    requires u <= MILLION && load > 0 && Budget(capacity, u).Value? && x <= load * MILLION * MILLION
    requires Headroom(Budget(capacity, u).value, load).Value?
    requires margin <= Headroom(Budget(capacity, u).value, load).value
    ensures Covers(capacity * MILLION, u, margin, x)
  {
    hide Budget, Headroom;
    BudgetHeadroom(capacity, u, load, margin);
    WriteMargin(margin, x, load, capacity * (MILLION - u) * MILLION);
    assert capacity * (MILLION - u) * MILLION * MILLION == capacity * MILLION * (MILLION - u) * MILLION;
  }

  lemma MarginsAre(f: Flow, u: U64, capacity: U64, bandwidth: U64, write: U64, m: Margins)
    requires u <= MILLION && f.events > 0 && f.inbound > 0 && f.totalWrite > 0
    requires MarginsOf(f, u, capacity, bandwidth, write) == Value(m)
    ensures Budget(capacity, u).Value? && Headroom(Budget(capacity, u).value, f.events) == Value(m.events)
    ensures Budget(bandwidth, u).Value? && Headroom(Budget(bandwidth, u).value, f.inbound) == Value(m.bandwidth)
    ensures Budget(write, u).Value? && Headroom(Budget(write, u).value, f.totalWrite) == Value(m.write)
  {
    hide Budget, Headroom;
  }

  lemma LoadSound(h: Hardware, w: Workload, events: U64, f: Flow, m: Margins, capacity: U64, bandwidth: U64, write: U64,
                  eventMargin: nat, bandwidthMargin: nat, writeMargin: nat)
    requires h.evidence.capacityUncertainty < MILLION && FlowOf(events, w) == Value(f)
    requires f.events > 0 && f.inbound > 0 && f.totalWrite > 0
    requires MarginsOf(f, h.evidence.capacityUncertainty, capacity, bandwidth, write) == Value(m)
    requires eventMargin <= m.events && bandwidthMargin <= m.bandwidth && writeMargin <= m.write
    ensures LoadCovered(h, w, events, capacity, bandwidth, write, eventMargin, bandwidthMargin, writeMargin)
  {
    hide FlowOf, Budget, Headroom, MarginsOf, Covers, Exposure, WriteUnit;
    var u, x := h.evidence.capacityUncertainty, Exposure(w, events);
    MarginsAre(f, u, capacity, bandwidth, write, m);
    FlowCoversDemand(events, w, x);
    FlowCoversWriteUnit(events, w, x);
    CoversEvents(capacity, u, eventMargin, f.events, x);
    CoversEvents(bandwidth, u, bandwidthMargin, f.inbound, x * w.rawBytes);
    CoversWrites(write, u, writeMargin, f.totalWrite, x * WriteUnit(w));
  }

  /** Required cores against usable cores, in exact integers. */
  predicate CpuCovered(h: Hardware, w: Workload, p: Policy)
    requires h.evidence.capacityUncertainty < MILLION && p.cpuReserve < MILLION
  {
    var replay := if w.concurrentReplay then w.replayEvents * w.replayCpuMultiplier else 0;
    (w.sustainedEvents * MILLION + replay) * w.demandUncertainty * w.featureCpuNanos
    <= NANOS_PER_SECOND * h.logicalCpus * (MILLION - h.evidence.capacityUncertainty) * (MILLION - p.cpuReserve)
  }

  lemma FeatureCoresCover(events: U64, f: Flow, w: Workload)
    requires FlowOf(events, w) == Value(f) && FeatureCores(f, w).Value?
    ensures Exposure(w, events) * w.featureCpuNanos <= FeatureCores(f, w).value * NANOS_PER_SECOND
  {
    hide RatioCeil, FlowOf;
    FlowCoversDemand(events, w, Exposure(w, events));
    var x, nanos, cores := Exposure(w, events), f.events * w.featureCpuNanos, FeatureCores(f, w).value;
    ScaleUnit(x, f.events, w.featureCpuNanos);
    RatioCeilExact(nanos, NANOS_PER_SECOND);
  }

  lemma ReplayCoresCover(w: Workload)
    requires w.concurrentReplay && ReplayCores(w).Value?
    ensures Exposure(w, w.replayEvents) * w.featureCpuNanos * w.replayCpuMultiplier
            <= ReplayCores(w).value * NANOS_PER_SECOND * MILLION
  {
    hide RatioCeil, Ppm;
    var x := Exposure(w, w.replayEvents);
    var events := Ppm(w.replayEvents, w.demandUncertainty).value;
    var nanos := events * w.featureCpuNanos;
    var scaled := Ppm(nanos, w.replayCpuMultiplier).value;
    var cores := ReplayCores(w).value;
    PpmExact(w.replayEvents, w.demandUncertainty);
    ScaleUnit(x, events, w.featureCpuNanos);
    PpmExact(nanos, w.replayCpuMultiplier);
    RatioCeilExact(scaled, NANOS_PER_SECOND);
    ReplayChain(x * w.featureCpuNanos, nanos, w.replayCpuMultiplier, scaled, cores);
  }

  lemma ReplayChain(x: nat, nanos: nat, multiplier: nat, scaled: nat, cores: nat)
    requires x <= nanos * MILLION && nanos * multiplier <= scaled * MILLION
    requires scaled * MILLION <= cores * NANOS_PER_SECOND
    ensures x * multiplier <= cores * NANOS_PER_SECOND * MILLION
  {
    ScaleUnit(x, nanos, multiplier);
    MulMonotone(nanos * multiplier, cores * NANOS_PER_SECOND, MILLION, MILLION);
  }

  lemma UsableCoresBound(h: Hardware, p: Policy)
    requires h.evidence.capacityUncertainty < MILLION && p.cpuReserve < MILLION && UsableCores(h, p).Value?
    ensures UsableCores(h, p).value * MILLION
            <= h.logicalCpus * (MILLION - h.evidence.capacityUncertainty) * (MILLION - p.cpuReserve)
  {
    hide Budget;
    var total := h.logicalCpus * MILLION;
    var adjusted := Budget(total, h.evidence.capacityUncertainty).value;
    BudgetExact(total, h.evidence.capacityUncertainty);
    BudgetExact(adjusted, p.cpuReserve);
    CoreChain(h.logicalCpus, MILLION - h.evidence.capacityUncertainty, adjusted, MILLION - p.cpuReserve,
              UsableCores(h, p).value);
  }

  lemma CoreChain(cpus: nat, left: nat, adjusted: nat, kept: nat, usable: nat)
    requires adjusted * MILLION <= cpus * MILLION * left && usable * MILLION <= adjusted * kept
    ensures usable * MILLION <= cpus * left * kept
  {
    assert cpus * MILLION * left == cpus * left * MILLION;
    assert adjusted <= cpus * left;
    MulMonotone(adjusted, cpus * left, kept, kept);
  }

  lemma CpuSound(input: Input, e: Estimate)
    requires ValidInput(input) && Calculate(input) == Value(e) && e.totalCores <= e.usableCores
    ensures CpuCovered(input.hardware, input.workload, input.policy)
  {
    hide Calculate, Fits, FlowOf, FeatureCores, ReplayCores, UsableCores, MemoryOf, Budget, Exposure, CpuCovered;
    var h, w, p := input.hardware, input.workload, input.policy;
    CalculateStages(input);
    FeatureCoresCover(w.sustainedEvents, e.sustained, w);
    UsableCoresBound(h, p);
    if w.concurrentReplay {
      ReplayCoresCover(w);
    }
    CpuAlgebra(h, w, p, e.featureCores, e.replayCores, e.usableCores);
  }

  lemma CpuAlgebra(h: Hardware, w: Workload, p: Policy, feature: nat, replay: nat, usable: nat)
    requires h.evidence.capacityUncertainty < MILLION && p.cpuReserve < MILLION && feature + replay <= usable
    requires Exposure(w, w.sustainedEvents) * w.featureCpuNanos <= feature * NANOS_PER_SECOND
    requires w.concurrentReplay ==>
               Exposure(w, w.replayEvents) * w.featureCpuNanos * w.replayCpuMultiplier
               <= replay * NANOS_PER_SECOND * MILLION
    requires usable * MILLION <= h.logicalCpus * (MILLION - h.evidence.capacityUncertainty) * (MILLION - p.cpuReserve)
    ensures CpuCovered(h, w, p)
  {
    var s, r, d := w.sustainedEvents, w.replayEvents, w.demandUncertainty;
    var n, m := w.featureCpuNanos, w.replayCpuMultiplier;
    var cores := h.logicalCpus * (MILLION - h.evidence.capacityUncertainty) * (MILLION - p.cpuReserve);
    CoresScale(feature, replay, usable, cores);
    CpuTerms(s, d, n, feature);
    if w.concurrentReplay {
      assert (s * MILLION + r * m) * d * n == s * d * n * MILLION + r * d * n * m;
    } else {
      assert (s * MILLION + 0) * d * n == s * d * n * MILLION;
    }
    assert NANOS_PER_SECOND * cores
        == NANOS_PER_SECOND * h.logicalCpus * (MILLION - h.evidence.capacityUncertainty) * (MILLION - p.cpuReserve);
  }

  lemma CpuTerms(s: nat, d: nat, n: nat, feature: nat)
    requires s * d * n <= feature * NANOS_PER_SECOND
    ensures s * d * n * MILLION <= feature * NANOS_PER_SECOND * MILLION
  {}

  lemma CoresScale(feature: nat, replay: nat, usable: nat, cores: nat)
    requires feature + replay <= usable && usable * MILLION <= cores
    ensures feature * NANOS_PER_SECOND * MILLION + replay * NANOS_PER_SECOND * MILLION <= NANOS_PER_SECOND * cores
  {}

  lemma MemorySound(input: Input, e: Estimate)
    requires ValidInput(input) && Calculate(input) == Value(e) && e.memory.peak <= e.usableMemory
    ensures e.memory.peak * MILLION <= input.hardware.memoryBytes * (MILLION - input.policy.memoryReserve)
  {
    hide Calculate, Fits, FlowOf, FeatureCores, ReplayCores, UsableCores, MemoryOf, Budget;
    CalculateStages(input);
    BudgetExact(input.hardware.memoryBytes, input.policy.memoryReserve);
    MulMonotone(e.memory.peak, e.usableMemory, MILLION, MILLION);
  }

  /** Bytes written over the required retention at the sustained load, in millionths of millionths. */
  function DiskDemand(w: Workload): (x: nat) {
    RequiredDays(w) * SECONDS_PER_DAY * (Exposure(w, w.sustainedEvents) * WriteUnit(w))
  }

  lemma DiskDemandCovered(days: nat, exact: nat, rate: nat, bound: nat)
    requires exact <= rate * MILLION * MILLION && days * (rate * SECONDS_PER_DAY) * MILLION <= bound
    ensures days * SECONDS_PER_DAY * exact <= bound * MILLION
  {
    MulMonotone(days * SECONDS_PER_DAY, days * SECONDS_PER_DAY, exact, rate * MILLION * MILLION);
    assert days * SECONDS_PER_DAY * (rate * MILLION * MILLION)
        == days * (rate * SECONDS_PER_DAY) * MILLION * MILLION;
    MulMonotone(days * (rate * SECONDS_PER_DAY) * MILLION, bound, MILLION, MILLION);
  }

  lemma RetentionSound(input: Input, e: Estimate)
    requires ValidInput(input) && Calculate(input) == Value(e)
    requires RequiredDays(input.workload) <= e.retentionDaysSupported
    ensures DiskDemand(input.workload)
            <= input.hardware.freeDiskBytes * (MILLION - input.policy.diskReserve) * MILLION
  {
    hide Calculate, Fits, FlowOf, FeatureCores, ReplayCores, UsableCores, MemoryOf, Budget, RequiredDays, Exposure,
         WriteUnit;
    var w := input.workload;
    DailySound(input, e);
    CalculateStages(input);
    FlowCoversWriteUnit(w.sustainedEvents, w, Exposure(w, w.sustainedEvents));
    DiskDemandCovered(RequiredDays(w), Exposure(w, w.sustainedEvents) * WriteUnit(w), e.sustained.totalWrite,
                      input.hardware.freeDiskBytes * (MILLION - input.policy.diskReserve));
  }

  lemma DailySound(input: Input, e: Estimate)
    requires ValidInput(input) && Calculate(input) == Value(e)
    requires RequiredDays(input.workload) <= e.retentionDaysSupported
    ensures RequiredDays(input.workload) * e.retainedBytesPerDay * MILLION
            <= input.hardware.freeDiskBytes * (MILLION - input.policy.diskReserve)
  {
    hide Calculate, Fits, FlowOf, FeatureCores, ReplayCores, UsableCores, MemoryOf, Budget, RequiredDays;
    CalculateStages(input);
    BudgetExact(input.hardware.freeDiskBytes, input.policy.diskReserve);
    var days, daily, disk := RequiredDays(input.workload), e.retainedBytesPerDay, e.usableDisk;
    FloorDivBounds(disk, daily);
    MulMonotone(days, disk / daily, daily, daily);
    MulMonotone(days * daily, disk, MILLION, MILLION);
  }

  /**
   An input with no reasons really has the room it claims: every inequality holds
   in unbounded integers, so all rounding went the safe way.
   */
  lemma NoReasonsMeansRoom(input: Input, e: Estimate)
    requires ValidInput(input) && Calculate(input) == Value(e) && ReasonsOf(input, e) == {}
    ensures var h, w, p := input.hardware, input.workload, input.policy;
            && h.appleSilicon
            && LoadCovered(h, w, w.sustainedEvents, h.sustainedEvents, h.sustainedInbound, h.sustainedDiskWrite,
                           p.sustainedHeadroom, p.sustainedBandwidthHeadroom, p.sustainedWriteHeadroom)
            && LoadCovered(h, w, w.burstEvents, h.burstEvents, h.burstInbound, h.burstDiskWrite,
                           p.burstHeadroom, p.burstBandwidthHeadroom, p.burstWriteHeadroom)
            && CpuCovered(h, w, p)
            && PeakMemory(w) * MILLION <= h.memoryBytes * (MILLION - p.memoryReserve)
            && DiskDemand(w) <= h.freeDiskBytes * (MILLION - p.diskReserve) * MILLION
  {
    hide Calculate, Fits, FlowOf, FeatureCores, ReplayCores, UsableCores, MemoryOf, MarginsOf, Budget, Headroom,
         LoadCovered, CpuCovered, RequiredDays, PeakMemory, DiskDemand;
    var h, w, p := input.hardware, input.workload, input.policy;
    NoReasonApplies(input, e);
    CalculateStages(input);
    CalculateMargins(input);
    LoadSound(h, w, w.sustainedEvents, e.sustained, e.sustainedMargins,
              h.sustainedEvents, h.sustainedInbound, h.sustainedDiskWrite,
              p.sustainedHeadroom, p.sustainedBandwidthHeadroom, p.sustainedWriteHeadroom);
    LoadSound(h, w, w.burstEvents, e.burst, e.burstMargins, h.burstEvents, h.burstInbound, h.burstDiskWrite,
              p.burstHeadroom, p.burstBandwidthHeadroom, p.burstWriteHeadroom);
    CpuSound(input, e);
    MemoryExact(w);
    MemorySound(input, e);
    RetentionSound(input, e);
  }

  lemma NoReasonApplies(input: Input, e: Estimate)
    requires ReasonsOf(input, e) == {}
    ensures var p := input.policy;
            && input.hardware.appleSilicon
            && e.memory.peak <= e.usableMemory
            && RequiredDays(input.workload) <= e.retentionDaysSupported
            && e.totalCores <= e.usableCores
            && p.sustainedHeadroom <= e.sustainedMargins.events
            && p.burstHeadroom <= e.burstMargins.events
            && p.sustainedBandwidthHeadroom <= e.sustainedMargins.bandwidth
            && p.burstBandwidthHeadroom <= e.burstMargins.bandwidth
            && p.sustainedWriteHeadroom <= e.sustainedMargins.write
            && p.burstWriteHeadroom <= e.burstMargins.write
  {
    hide RequiredDays;
    forall r: Reason ensures !Applies(r, input, e) {
      assert r !in ReasonsOf(input, e);
    }
    assert !Applies(AppleSiliconRequired, input, e) && !Applies(MemoryBudgetExceeded, input, e);
    assert !Applies(RetentionBudgetExceeded, input, e) && !Applies(CpuBudgetExceeded, input, e);
    assert !Applies(SustainedEventHeadroomInsufficient, input, e) && !Applies(BurstEventHeadroomInsufficient, input, e);
    assert !Applies(SustainedBandwidthHeadroomInsufficient, input, e);
    assert !Applies(BurstBandwidthHeadroomInsufficient, input, e);
    assert !Applies(SustainedWriteHeadroomInsufficient, input, e) && !Applies(BurstWriteHeadroomInsufficient, input, e);
  }

  // ----- Admission -----

  datatype Proposal = Proposal(
    tierAInstruments: nat,
    tierARetentionDays: nat,
    removedTierBInstruments: nat,
    removedTierCInstruments: nat,
    removedTierBRetentionDays: nat,
    removedTierCRetentionDays: nat)

  datatype Decision =
    | EvidenceRequired(estimate: Estimate)
    | Rejected(estimate: Estimate, reasons: set<Reason>, downgrade: Option<Proposal>)

  /** The workload without tiers B and C. */
  function Baseline(input: Input): (b: Input) {
    input.(workload := input.workload.(tierBInstruments := 0, tierCInstruments := 0,
                                       tierBRetentionDays := 0, tierCRetentionDays := 0))
  }

  function ProposalFor(w: Workload): (p: Proposal) {
    Proposal(w.tierAInstruments, w.tierARetentionDays, w.tierBInstruments, w.tierCInstruments,
             w.tierBRetentionDays, w.tierCRetentionDays)
  }

  lemma BaselineValid(input: Input)
    requires ValidInput(input)
    ensures ValidInput(Baseline(input))
  {}

  function ProposeDowngrade(input: Input): (r: Checked<Option<Proposal>>)
    requires ValidInput(input)
  {
    hide Calculate;
    if input.workload.tierBInstruments == 0 && input.workload.tierCInstruments == 0 then Value(None)
    else
      BaselineValid(input);
      var estimate :- Calculate(Baseline(input));
      if ReasonsOf(Baseline(input), estimate) != {} then Value(None) else Value(Some(ProposalFor(input.workload)))
  }

  function Admit(input: Input): (r: Result<Decision, CapacityError>) {
    hide Calculate, ProposeDowngrade;
    if !ValidInput(input) then Err(InvalidInput)
    else
      match Calculate(input)
      case Overflow => Err(ArithmeticOverflow)
      case Value(estimate) =>
        var reasons := ReasonsOf(input, estimate);
        if reasons == {} then Ok(EvidenceRequired(estimate))
        else
          match ProposeDowngrade(input)
          case Overflow => Err(ArithmeticOverflow)
          case Value(downgrade) => Ok(Rejected(estimate, reasons, downgrade))
  }
}
