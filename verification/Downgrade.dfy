/** Shrinking a workload never hurts, and what follows for the downgrade proposal. */
module Downgrade {
  import opened Results
  import opened Checked
  import opened Capacity
  import opened Admission

  /** Pointwise no larger. */
  predicate Smaller(w: Workload, v: Workload) {
    && w.tierAInstruments <= v.tierAInstruments
    && w.tierBInstruments <= v.tierBInstruments
    && w.tierCInstruments <= v.tierCInstruments
    && w.tierARetentionDays <= v.tierARetentionDays
    && w.tierBRetentionDays <= v.tierBRetentionDays
    && w.tierCRetentionDays <= v.tierCRetentionDays
    && w.sustainedEvents <= v.sustainedEvents
    && w.burstEvents <= v.burstEvents
    && w.demandUncertainty <= v.demandUncertainty
    && w.rawBytes <= v.rawBytes
    && w.normalizedBytes <= v.normalizedBytes
    && w.walAmplification <= v.walAmplification
    && w.parquetAmplification <= v.parquetAmplification
    && w.featureCpuNanos <= v.featureCpuNanos
    && w.tierABookMemory <= v.tierABookMemory
    && w.tierBBookMemory <= v.tierBBookMemory
    && w.tierCBookMemory <= v.tierCBookMemory
    && w.featureMemory <= v.featureMemory
    && w.modelMemory <= v.modelMemory
    && w.ingestionQueueMemory <= v.ingestionQueueMemory
    && w.rpcInflightMemory <= v.rpcInflightMemory
    && w.runtimeMemory <= v.runtimeMemory
    && (w.concurrentReplay ==> v.concurrentReplay)
    && w.replayEventCount <= v.replayEventCount
    && w.replayEvents <= v.replayEvents
    && w.replayCpuMultiplier <= v.replayCpuMultiplier
  }

  predicate SmallerFlow(f: Flow, g: Flow) {
    f.events <= g.events && f.inbound <= g.inbound && f.normalized <= g.normalized && f.totalWrite <= g.totalWrite
  }

  lemma FlowShrinks(events: U64, w: Workload, more: U64, v: Workload)
    requires Smaller(w, v) && events <= more && FlowOf(more, v).Value?
    ensures FlowOf(events, w).Value? && SmallerFlow(FlowOf(events, w).value, FlowOf(more, v).value)
  {
    hide Ppm, Mul, Add;
    var g := FlowOf(more, v).value;
    PpmBelow(events, more, w.demandUncertainty, v.demandUncertainty);
    var e := Ppm(events, w.demandUncertainty).value;
    MulBelow(e, g.events, w.rawBytes, v.rawBytes);
    MulBelow(e, g.events, w.normalizedBytes, v.normalizedBytes);
    var i, n := Mul(e, w.rawBytes).value, Mul(e, w.normalizedBytes).value;
    PpmBelow(i, g.inbound, w.walAmplification, v.walAmplification);
    PpmBelow(n, g.normalized, w.parquetAmplification, v.parquetAmplification);
    AddBelow(Ppm(i, w.walAmplification).value, g.walWrite, Ppm(n, w.parquetAmplification).value, g.parquetWrite);
  }

  lemma FeatureCoresShrink(f: Flow, w: Workload, g: Flow, v: Workload)
    requires Smaller(w, v) && SmallerFlow(f, g)
    ensures Below(FeatureCores(f, w), FeatureCores(g, v))
  {
    hide Mul, RatioCeil;
    MulBelow(f.events, g.events, w.featureCpuNanos, v.featureCpuNanos);
    var x, y := Mul(f.events, w.featureCpuNanos), Mul(g.events, v.featureCpuNanos);
    if y.Value? { RatioCeilBelow(x.value, y.value, NANOS_PER_SECOND); }
  }

  lemma ReplayCoresShrink(w: Workload, v: Workload)
    requires Smaller(w, v)
    ensures Below(ReplayCores(w), ReplayCores(v))
  {
    hide Mul, RatioCeil, Ppm;
    if w.concurrentReplay && ReplayCores(v).Value? {
      PpmBelow(w.replayEvents, v.replayEvents, w.demandUncertainty, v.demandUncertainty);
      var x, y := Ppm(w.replayEvents, w.demandUncertainty).value, Ppm(v.replayEvents, v.demandUncertainty).value;
      MulBelow(x, y, w.featureCpuNanos, v.featureCpuNanos);
      var m, n := Mul(x, w.featureCpuNanos).value, Mul(y, v.featureCpuNanos).value;
      PpmBelow(m, n, w.replayCpuMultiplier, v.replayCpuMultiplier);
      RatioCeilBelow(Ppm(m, w.replayCpuMultiplier).value, Ppm(n, v.replayCpuMultiplier).value, NANOS_PER_SECOND);
    }
  }

  lemma ReplayShrinks(w: Workload, v: Workload)
    requires Smaller(w, v) && ValidReplay(w) && ValidReplay(v) && ReplayOf(v).Value?
    ensures ReplayOf(w).Value?
  {
    hide Mul, Ppm, Add;
    if w.concurrentReplay {
      AddBelow(w.rawBytes, v.rawBytes, w.normalizedBytes, v.normalizedBytes);
      MulBelow(w.replayEventCount, v.replayEventCount,
               Add(w.rawBytes, w.normalizedBytes).value, Add(v.rawBytes, v.normalizedBytes).value);
      MulBelow(w.replayEventCount, v.replayEventCount, w.featureCpuNanos, v.featureCpuNanos);
      var m, n := Mul(w.replayEventCount, w.featureCpuNanos).value, Mul(v.replayEventCount, v.featureCpuNanos).value;
      PpmBelow(m, n, w.replayCpuMultiplier, v.replayCpuMultiplier);
      AddBelow(Ppm(m, w.replayCpuMultiplier).value, Ppm(n, v.replayCpuMultiplier).value,
               NANOS_PER_SECOND - 1, NANOS_PER_SECOND - 1);
      AddBelow(w.replayEventCount, v.replayEventCount, w.replayEvents - 1, v.replayEvents - 1);
    }
  }

  lemma BookMemoryShrinks(w: Workload, v: Workload)
    requires Smaller(w, v)
    ensures Below(BookMemory(w), BookMemory(v))
  {
    hide Mul, Add;
    MulBelow(w.tierAInstruments, v.tierAInstruments, w.tierABookMemory, v.tierABookMemory);
    MulBelow(w.tierBInstruments, v.tierBInstruments, w.tierBBookMemory, v.tierBBookMemory);
    MulBelow(w.tierCInstruments, v.tierCInstruments, w.tierCBookMemory, v.tierCBookMemory);
    if BookMemory(v).Value? {
      var a, a' := Mul(w.tierAInstruments, w.tierABookMemory).value, Mul(v.tierAInstruments, v.tierABookMemory).value;
      var b, b' := Mul(w.tierBInstruments, w.tierBBookMemory).value, Mul(v.tierBInstruments, v.tierBBookMemory).value;
      var c, c' := Mul(w.tierCInstruments, w.tierCBookMemory).value, Mul(v.tierCInstruments, v.tierCBookMemory).value;
      AddBelow(a, a', b, b');
      AddBelow(Add(a, b).value, Add(a', b').value, c, c');
    }
  }

  lemma FeatureMemoryShrinks(w: Workload, v: Workload)
    requires Smaller(w, v)
    ensures Below(FeatureMemory(w), FeatureMemory(v))
  {
    hide Mul, Add;
    AddBelow(w.tierAInstruments, v.tierAInstruments, w.tierBInstruments, v.tierBInstruments);
    if FeatureMemory(v).Value? {
      var a, b := Add(w.tierAInstruments, w.tierBInstruments).value, Add(v.tierAInstruments, v.tierBInstruments).value;
      AddBelow(a, b, w.tierCInstruments, v.tierCInstruments);
      MulBelow(Add(a, w.tierCInstruments).value, Add(b, v.tierCInstruments).value, w.featureMemory, v.featureMemory);
    }
  }

  lemma MemoryShrinks(w: Workload, v: Workload)
    requires Smaller(w, v) && MemoryOf(v).Value?
    ensures MemoryOf(w).Value? && MemoryOf(w).value.peak <= MemoryOf(v).value.peak
  {
    hide BookMemory, FeatureMemory;
    BookMemoryShrinks(w, v);
    FeatureMemoryShrinks(w, v);
  }

  predicate RoomierMargins(m: Margins, n: Margins) {
    m.events >= n.events && m.bandwidth >= n.bandwidth && m.write >= n.write
  }

  lemma MarginsGrow(f: Flow, g: Flow, u: U64, events: U64, bandwidth: U64, write: U64)
    requires u <= MILLION && SmallerFlow(f, g) && f.events > 0 && f.inbound > 0 && f.totalWrite > 0
    requires MarginsOf(g, u, events, bandwidth, write).Value?
    ensures MarginsOf(f, u, events, bandwidth, write).Value?
    ensures RoomierMargins(MarginsOf(f, u, events, bandwidth, write).value,
                           MarginsOf(g, u, events, bandwidth, write).value)
  {
    hide Budget, Headroom;
    HeadroomAntitone(Budget(events, u).value, f.events, g.events);
    HeadroomAntitone(Budget(bandwidth, u).value, f.inbound, g.inbound);
    HeadroomAntitone(Budget(write, u).value, f.totalWrite, g.totalWrite);
  }

  /** A smaller workload overflows no earlier at any stage. */
  lemma FitsShrinks(input: Input, w: Workload)
    requires ValidInput(input) && ValidWorkload(w) && Smaller(w, input.workload) && Fits(input)
    ensures Fits(input.(workload := w))
  {
    hide FlowOf, Mul, Add, Budget, FeatureCores, ReplayCores, ReplayOf, UsableCores, MemoryOf, MarginsOf,
         SmallerFlow, Smaller;
    var h, v := input.hardware, input.workload;
    var u := h.evidence.capacityUncertainty;
    LoadsShrink(w, v);
    var f, g := FlowOf(w.sustainedEvents, w).value, FlowOf(v.sustainedEvents, v).value;
    var b, c := FlowOf(w.burstEvents, w).value, FlowOf(v.burstEvents, v).value;
    FlowPositive(w.sustainedEvents, w);
    FlowPositive(w.burstEvents, w);
    DaysShrink(f, g);
    FeatureCoresShrink(f, w, g, v);
    ReplayCoresShrink(w, v);
    ReplayShrinks(w, v);
    AddBelow(FeatureCores(f, w).value, FeatureCores(g, v).value, ReplayCores(w).value, ReplayCores(v).value);
    MemoryShrinks(w, v);
    MarginsGrow(f, g, u, h.sustainedEvents, h.sustainedInbound, h.sustainedDiskWrite);
    MarginsGrow(b, c, u, h.burstEvents, h.burstInbound, h.burstDiskWrite);
  }

  lemma LoadsShrink(w: Workload, v: Workload)
    requires Smaller(w, v) && FlowOf(v.sustainedEvents, v).Value? && FlowOf(v.burstEvents, v).Value?
    ensures FlowOf(w.sustainedEvents, w).Value? && FlowOf(w.burstEvents, w).Value?
    ensures SmallerFlow(FlowOf(w.sustainedEvents, w).value, FlowOf(v.sustainedEvents, v).value)
    ensures SmallerFlow(FlowOf(w.burstEvents, w).value, FlowOf(v.burstEvents, v).value)
  {
    hide FlowOf;
    FlowShrinks(w.sustainedEvents, w, v.sustainedEvents, v);
    FlowShrinks(w.burstEvents, w, v.burstEvents, v);
  }

  lemma DaysShrink(f: Flow, g: Flow)
    requires SmallerFlow(f, g)
    ensures Below(Mul(f.inbound, SECONDS_PER_DAY), Mul(g.inbound, SECONDS_PER_DAY))
    ensures Below(Mul(f.normalized, SECONDS_PER_DAY), Mul(g.normalized, SECONDS_PER_DAY))
    ensures Below(Mul(f.totalWrite, SECONDS_PER_DAY), Mul(g.totalWrite, SECONDS_PER_DAY))
  {
    hide Mul;
    MulBelow(f.inbound, g.inbound, SECONDS_PER_DAY, SECONDS_PER_DAY);
    MulBelow(f.normalized, g.normalized, SECONDS_PER_DAY, SECONDS_PER_DAY);
    MulBelow(f.totalWrite, g.totalWrite, SECONDS_PER_DAY, SECONDS_PER_DAY);
  }

  /** The decisive figures of the smaller estimate are all at least as good. */
  lemma EstimateShrinks(input: Input, w: Workload, e: Estimate, d: Estimate)
    requires ValidInput(input) && ValidWorkload(w) && Smaller(w, input.workload)
    requires Calculate(input) == Value(e) && Calculate(input.(workload := w)) == Value(d)
    ensures d.memory.peak <= e.memory.peak && d.usableMemory == e.usableMemory
    ensures d.retentionDaysSupported >= e.retentionDaysSupported
    ensures d.totalCores <= e.totalCores && d.usableCores == e.usableCores
    ensures RoomierMargins(d.sustainedMargins, e.sustainedMargins) && RoomierMargins(d.burstMargins, e.burstMargins)
  {
    hide Calculate, Fits, FlowOf, Mul, Add, Budget, FeatureCores, ReplayCores, ReplayOf, UsableCores, MemoryOf,
         MarginsOf, SmallerFlow, Smaller;
    var h, v := input.hardware, input.workload;
    var u := h.evidence.capacityUncertainty;
    CalculateStages(input);
    CalculateStages(input.(workload := w));
    CalculateMargins(input);
    CalculateMargins(input.(workload := w));
    LoadsShrink(w, v);
    DaysShrink(d.sustained, e.sustained);
    DivAntitone(e.usableDisk, d.retainedBytesPerDay, e.retainedBytesPerDay);
    FeatureCoresShrink(d.sustained, w, e.sustained, v);
    ReplayCoresShrink(w, v);
    AddBelow(d.featureCores, e.featureCores, d.replayCores, e.replayCores);
    MemoryShrinks(w, v);
    MarginsGrow(d.sustained, e.sustained, u, h.sustainedEvents, h.sustainedInbound, h.sustainedDiskWrite);
    MarginsGrow(d.burst, e.burst, u, h.burstEvents, h.burstInbound, h.burstDiskWrite);
  }

  lemma DaysRequiredShrink(w: Workload, v: Workload)
    requires Smaller(w, v)
    ensures RequiredDays(w) <= RequiredDays(v)
  {}

  /** Shrinking a valid workload pointwise never introduces an overflow or a reason. */
  lemma ShrinkingIsSafe(input: Input, w: Workload)
    requires ValidInput(input) && ValidWorkload(w) && Smaller(w, input.workload) && Calculate(input).Value?
    ensures var less := input.(workload := w);
            && Calculate(less).Value?
            && ReasonsOf(less, Calculate(less).value) <= ReasonsOf(input, Calculate(input).value)
  {
    hide Calculate, Fits, RequiredDays, Smaller;
    var less := input.(workload := w);
    CalculateStages(input);
    CalculateStages(less);
    FitsShrinks(input, w);
    var e, d := Calculate(input).value, Calculate(less).value;
    EstimateShrinks(input, w, e, d);
    DaysRequiredShrink(w, input.workload);
    forall r: Reason | Applies(r, less, d) ensures Applies(r, input, e) {
    }
  }

  lemma BaselineSmaller(input: Input)
    ensures Smaller(Baseline(input).workload, input.workload)
  {}

  /** Removing tiers B and C changes only memory and retention, so only those reasons can disappear. */
  lemma BaselineChangesOnlyMemoryAndRetention(input: Input, e: Estimate, d: Estimate)
    requires ValidInput(input) && Calculate(input) == Value(e)
    requires ValidInput(Baseline(input)) && Calculate(Baseline(input)) == Value(d)
    ensures forall r: Reason :: Applies(r, input, e) && r != MemoryBudgetExceeded && r != RetentionBudgetExceeded ==>
              Applies(r, Baseline(input), d)
  {
    hide Calculate, Fits, Budget, UsableCores, MemoryOf, MarginsOf, RequiredDays;
    CalculateStages(input);
    CalculateStages(Baseline(input));
    CalculateMargins(input);
    CalculateMargins(Baseline(input));
  }

  /**
   Once the estimate of a rejected input exists, looking for a downgrade cannot
   fail; a proposal removes every reason, so re-admitting it is not rejected; and
   it exists only when nothing but memory and retention stood in the way.
   */
  lemma DowngradeSound(input: Input)
    requires ValidInput(input) && Calculate(input).Value?
    ensures var r := ProposeDowngrade(input);
            && r.Value?
            && (r.value.Some? ==>
                  && Admit(Baseline(input)).Ok?
                  && Admit(Baseline(input)).value.EvidenceRequired?
                  && ReasonsOf(input, Calculate(input).value) <= {MemoryBudgetExceeded, RetentionBudgetExceeded}
                  && (input.workload.tierBInstruments > 0 || input.workload.tierCInstruments > 0))
            && (r.value.None? && (input.workload.tierBInstruments > 0 || input.workload.tierCInstruments > 0) ==>
                  Admit(Baseline(input)).Ok? && Admit(Baseline(input)).value.Rejected?)
  {
    hide Calculate, RequiredDays, Smaller;
    var base := Baseline(input);
    BaselineValid(input);
    BaselineSmaller(input);
    ShrinkingIsSafe(input, base.workload);
    assert base == input.(workload := base.workload);
    BaselineChangesOnlyMemoryAndRetention(input, Calculate(input).value, Calculate(base).value);
    BaselineHasNoLower(input);
  }

  lemma BaselineHasNoLower(input: Input)
    requires ValidInput(Baseline(input))
    ensures ProposeDowngrade(Baseline(input)) == Value(None)
  {}

  /** Admission of a valid input fails only if the estimate itself overflows. */
  lemma AdmitFailsOnlyOnOverflow(input: Input)
    requires ValidInput(input)
    ensures Admit(input).Ok? <==> Calculate(input).Value?
    ensures Admit(input).Ok? && Admit(input).value.EvidenceRequired? <==>
            Calculate(input).Value? && ReasonsOf(input, Calculate(input).value) == {}
  {
    hide Calculate, ProposeDowngrade;
    if Calculate(input).Value? { DowngradeSound(input); }
  }
}
