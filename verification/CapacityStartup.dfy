/** Fail-closed admission of the configured venues at start-up. */
module CapacityStartup {
  import opened Results
  import opened Checked
  import opened Capacity
  import opened Admission
  import opened Downgrade

  datatype Tier = A | B | C

  datatype VenueConfig = VenueConfig(enabled: bool, tier: Tier, instrumentBudget: U32, retentionDays: U32)

  datatype AppConfig = AppConfig(
    venues: seq<VenueConfig>,
    ingestionQueueCapacity: U64,
    maximumRequestBytes: U64,
    maximumConcurrentRequests: U64,
    runtimeThreads: U64)

  datatype StartupError = InputOverflow | NotAdmissible(error: CapacityError) | RejectedFor(reasons: set<Reason>)

  const MIB: U64 := 1_048_576

  /** Instruments summed and retention maximised over the enabled venues of one tier. */
  datatype TierTotal = TierTotal(instruments: nat, retention: nat)

  function TierOf(venues: seq<VenueConfig>, tier: Tier): (t: TierTotal) {
    if venues == [] then TierTotal(0, 0)
    else
      var before, v := TierOf(venues[..|venues| - 1], tier), venues[|venues| - 1];
      if v.enabled && v.tier == tier
      then TierTotal(before.instruments + v.instrumentBudget,
                     if before.retention < v.retentionDays then v.retentionDays else before.retention)
      else before
  }

  predicate TiersFit(venues: seq<VenueConfig>) {
    && TierOf(venues, A).instruments <= U32_MAX
    && TierOf(venues, B).instruments <= U32_MAX
    && TierOf(venues, C).instruments <= U32_MAX
  }

  lemma {:induction false} RetentionFits(venues: seq<VenueConfig>, tier: Tier)
    ensures TierOf(venues, tier).retention <= U32_MAX
  {
    if venues != [] { RetentionFits(venues[..|venues| - 1], tier); }
  }

  /** More venues never lower a tier total. */
  lemma TierGrows(venues: seq<VenueConfig>, v: VenueConfig, tier: Tier)
    ensures TierOf(venues, tier).instruments <= TierOf(venues + [v], tier).instruments
    ensures TierOf(venues, tier).retention <= TierOf(venues + [v], tier).retention
  {
    assert (venues + [v])[..|venues|] == venues;
  }

  lemma {:induction false} TiersFitPrefix(venues: seq<VenueConfig>, n: nat)
    requires n <= |venues| && TiersFit(venues)
    ensures TiersFit(venues[..n])
    decreases |venues| - n
  {
    if n == |venues| {
      assert venues[..n] == venues;
    } else {
      TiersFitPrefix(venues, n + 1);
      assert venues[..n + 1] == venues[..n] + [venues[n]];
      TierGrows(venues[..n], venues[n], A);
      TierGrows(venues[..n], venues[n], B);
      TierGrows(venues[..n], venues[n], C);
    }
  }

  function FoundationPolicy(): (p: Policy) {
    Policy(300_000, 200_000, 250_000, 1_250_000, 1_250_000, 1_250_000, 1_250_000, 1_250_000, 1_250_000)
  }

  /** The products the daemon forms from its configuration all fit. */
  predicate SettingsFit(c: AppConfig) {
    && c.ingestionQueueCapacity * MIB <= U64_MAX
    && c.maximumRequestBytes * c.maximumConcurrentRequests <= U64_MAX
    && c.runtimeThreads * (2 * MIB) <= U64_MAX
  }

  function FoundationWorkload(c: AppConfig): (w: Workload)
    requires TiersFit(c.venues) && SettingsFit(c)
  {
    RetentionFits(c.venues, A);
    RetentionFits(c.venues, B);
    RetentionFits(c.venues, C);
    var a, b, d := TierOf(c.venues, A), TierOf(c.venues, B), TierOf(c.venues, C);
    Workload(a.instruments, b.instruments, d.instruments, a.retention, b.retention, d.retention,
             1, 1, 1_250_000, 512, 256, 1_100_000, 1_200_000, 50_000,
             256 * MIB, 64 * MIB, 16 * MIB, 32 * MIB, 0,
             c.ingestionQueueCapacity * MIB, c.maximumRequestBytes * c.maximumConcurrentRequests,
             c.runtimeThreads * (2 * MIB), false, 0, 0, 1_000_000)
  }

  /** What the start-up decision comes to. */
  function Verdict(c: AppConfig, h: Hardware): (e: Option<StartupError>) {
    hide Admit;
    if !TiersFit(c.venues) || !SettingsFit(c) then Some(InputOverflow)
    else
      match Admit(Input(h, FoundationWorkload(c), FoundationPolicy()))
      case Err(error) => Some(NotAdmissible(error))
      case Ok(decision) => if decision.Rejected? then Some(RejectedFor(decision.reasons)) else None
  }

  /** The aggregation loop over the venues, then admission. */
  method EnforceFoundationCapacity(c: AppConfig, h: Hardware) returns (e: Option<StartupError>)
    ensures e == Verdict(c, h)
  {
    hide Admit, FoundationPolicy;
    var aInstruments: nat, bInstruments: nat, cInstruments: nat := 0, 0, 0;
    var aRetention: nat, bRetention: nat, cRetention: nat := 0, 0, 0;
    for i := 0 to |c.venues|
      invariant TierOf(c.venues[..i], A) == TierTotal(aInstruments, aRetention)
      invariant TierOf(c.venues[..i], B) == TierTotal(bInstruments, bRetention)
      invariant TierOf(c.venues[..i], C) == TierTotal(cInstruments, cRetention)
      invariant aInstruments <= U32_MAX && bInstruments <= U32_MAX && cInstruments <= U32_MAX
    {
      var v := c.venues[i];
      assert c.venues[..i + 1][..i] == c.venues[..i];
      if v.enabled {
        match v.tier
        case A =>
          aInstruments := aInstruments + v.instrumentBudget;
          aRetention := if aRetention < v.retentionDays then v.retentionDays else aRetention;
        case B =>
          bInstruments := bInstruments + v.instrumentBudget;
          bRetention := if bRetention < v.retentionDays then v.retentionDays else bRetention;
        case C =>
          cInstruments := cInstruments + v.instrumentBudget;
          cRetention := if cRetention < v.retentionDays then v.retentionDays else cRetention;
      }
      if aInstruments > U32_MAX || bInstruments > U32_MAX || cInstruments > U32_MAX {
        if TiersFit(c.venues) {
          TiersFitPrefix(c.venues, i + 1);
          assert false;
        }
        return Some(InputOverflow);
      }
    }
    assert c.venues[..|c.venues|] == c.venues;
    if !SettingsFit(c) {
      return Some(InputOverflow);
    }
    var decision := Admit(Input(h, FoundationWorkload(c), FoundationPolicy()));
    match decision
    case Err(error) => return Some(NotAdmissible(error));
    case Ok(d) =>
      if d.Rejected? {
        return Some(RejectedFor(d.reasons));
      }
      return None;
  }

  lemma FoundationGrows(c: AppConfig, v: VenueConfig)
    requires TiersFit(c.venues + [v]) && SettingsFit(c)
    ensures TiersFit(c.venues)
    ensures Smaller(FoundationWorkload(c), FoundationWorkload(c.(venues := c.venues + [v])))
  {
    TierGrows(c.venues, v, A);
    TierGrows(c.venues, v, B);
    TierGrows(c.venues, v, C);
  }

  /** Adding a venue never turns a rejected start into an accepted one. */
  lemma MoreVenuesNeverHelp(c: AppConfig, h: Hardware, v: VenueConfig)
    requires Verdict(c, h).Some? && Verdict(c, h).value.RejectedFor?
    ensures var more := Verdict(c.(venues := c.venues + [v]), h);
            && more.Some?
            && (more.value.RejectedFor? ==> Verdict(c, h).value.reasons <= more.value.reasons)
  {
    hide Calculate, ReasonsOf, FoundationWorkload, FoundationPolicy, Smaller, TiersFit;
    var larger := c.(venues := c.venues + [v]);
    if TiersFit(larger.venues) {
      FoundationGrows(c, v);
      var small, big := Input(h, FoundationWorkload(c), FoundationPolicy()),
                        Input(h, FoundationWorkload(larger), FoundationPolicy());
      if Admit(big).Ok? {
        ShrinkingIsSafe(big, small.workload);
        assert small == big.(workload := small.workload);
      }
    }
  }
}
