/** The pure admission decision: request demand, the TPS health gate, the running and window bounds. */
module Policy {
  import opened Machine
  import opened TpsWindow

  // ---------- demand ----------

  datatype Tier = TierDefault | TierFlex | TierPriority | TierUnknown

  predicate Sheddable(t: Tier) { t == TierDefault || t == TierFlex }

  predicate ValidTier(t: Tier) { t != TierUnknown }

  /** Queueing order: a higher rank is served first. */
  function Rank(t: Tier): int {
    match t
    case TierPriority => 2
    case TierDefault => 1
    case _ => 0
  }

  datatype Source = SourceRequest | SourceFallback | SourceUnknown

  datatype Demand = Demand(
    decodeSequences: int,
    source: Source,
    tier: Tier,
    prefillTokens: int,
    prefillKnown: bool)

  predicate ValidDemand(d: Demand) {
    d.decodeSequences > 0 && d.source != SourceUnknown && ValidTier(d.tier)
  }

  // ---------- projected state ----------

  datatype Reason =
    | ReasonOpen | ReasonControllerUnavailable | ReasonObservationMissing | ReasonObservationInvalid
    | ReasonObservationStale | ReasonInvalidRequest | ReasonTPSReference | ReasonRunningLimit
    | ReasonWindowConcurrency | ReasonRuntimeIdentityDrift | ReasonResourceExhausted
    | ReasonCounterOverflow | ReasonClosed

  datatype Scope = ScopeNone | ScopeRequest | ScopeLoad | ScopeAvailability

  datatype ProjectedState = ProjectedState(
    unobservedSequences: int,
    coldSheddablePending: int,
    sequenceLiabilities: int,
    liveReservations: int,
    residualDebts: int,
    rawRunning: int,
    rawWaiting: int,
    previousRawRunning: int,
    previousRawWaiting: int,
    generationDelta: nat,
    preemptionDelta: nat,
    observationInterval: int,
    observationIntervalValid: bool,
    tps: TPSSnapshot)

  predicate ValidProjectedState(s: ProjectedState) {
    && 0 <= s.unobservedSequences <= s.sequenceLiabilities
    && 0 <= s.coldSheddablePending <= s.liveReservations
    && s.residualDebts >= 0
    && s.rawRunning >= 0 && s.rawWaiting >= 0 && s.previousRawRunning >= 0 && s.previousRawWaiting >= 0
    && s.observationInterval >= 0 && (s.observationIntervalValid ==> s.observationInterval > 0)
    && ValidTPSSnapshot(s.tps)
  }

  // ---------- the TPS gate ----------

  datatype TpsResult = TpsUnknown | TpsDisabled | TpsAdmit | TpsProtect | TpsInvalid

  datatype TpsSubreason =
    | SubUnknown | SubDisabled | SubInvalidState | SubWaiting | SubPreemption | SubWarming | SubNoCurrentEvidence
    | SubHealthyWindow | SubRecoveredCurrent | SubBelowReference | SubBackendScheduled
    | SubWarmPrompt | SubColdPrompt | SubColdPromptPending

  datatype GateDecision = GateDecision(fits: bool, reason: Reason, result: TpsResult, subreason: TpsSubreason)

  datatype TpsGate = TpsGate(backendTierScheduling: bool, warmPromptTokens: int)

  predicate PromptAware(g: TpsGate) { g.warmPromptTokens > 0 }

  predicate Warm(g: TpsGate, d: Demand) {
    PromptAware(g) && d.prefillKnown && d.prefillTokens <= g.warmPromptTokens
  }

  /** A default or flex request whose uncached prompt is larger than one chunk, or unknown. */
  predicate ColdSheddable(g: TpsGate, d: Demand) {
    PromptAware(g) && Sheddable(d.tier) && !Warm(g, d)
  }

  function Protect(subreason: TpsSubreason): GateDecision {
    GateDecision(false, ReasonTPSReference, TpsProtect, subreason)
  }

  function Pass(subreason: TpsSubreason): GateDecision {
    GateDecision(true, ReasonOpen, TpsAdmit, subreason)
  }

  function EvaluateGate(g: TpsGate, state: ProjectedState, waitingAllowance: int, d: Demand): GateDecision {
    var tps := state.tps;
    if Sheddable(d.tier) && state.rawWaiting > waitingAllowance then
      Protect(SubWaiting)
    else if !tps.enabled then
      GateDecision(true, ReasonOpen, TpsDisabled, SubDisabled)
    else if !ValidTPSSnapshot(tps) || tps.reference <= 0.0 then
      GateDecision(false, ReasonResourceExhausted, TpsInvalid, SubInvalidState)
    else if Sheddable(d.tier) && state.preemptionDelta > 0 then
      Protect(SubPreemption)
    else if !tps.ready then
      Pass(SubWarming)
    else if !tps.latest.qualified then
      Pass(SubNoCurrentEvidence)
    else if ColdSheddable(g, d) && state.coldSheddablePending > 0 then
      Protect(SubColdPromptPending)
    else if tps.meanActiveTPS >= tps.reference then
      Pass(SubHealthyWindow)
    else if tps.latest.meanActiveTPS >= tps.reference then
      if ColdSheddable(g, d) then Protect(SubColdPrompt)
      else if Sheddable(d.tier) && Warm(g, d) then Pass(SubWarmPrompt)
      else Pass(SubRecoveredCurrent)
    else if !Sheddable(d.tier) && g.backendTierScheduling then
      Pass(SubBackendScheduled)
    else
      Protect(SubBelowReference)
  }

  // ---------- running and window bounds ----------

  datatype Bounds = Bounds(windowConcurrency: int, runningLimit: int, waitingAllowance: int)

  datatype BoundsDecision = BoundsDecision(fits: bool, reason: Reason, projectedRunning: int, projectedWindow: int)

  function AddSome(left: Option<int>, right: int): Option<int> {
    if left.None? then None else AddNonnegativeInt64(left.value, right)
  }

  function EvaluateBounds(b: Bounds, state: ProjectedState, d: Demand): BoundsDecision {
    var running := AddSome(AddSome(AddNonnegativeInt64(state.rawRunning, state.rawWaiting),
                                   state.unobservedSequences), d.decodeSequences);
    var window := AddNonnegativeInt64(state.unobservedSequences, d.decodeSequences);
    if !ValidDemand(d) || b.windowConcurrency <= 0 || b.runningLimit < 0 || running.None? then
      BoundsDecision(false, ReasonResourceExhausted, 0, 0)
    else if window.None? then
      BoundsDecision(false, ReasonResourceExhausted, running.value, 0)
    else if b.runningLimit > 0 && running.value > b.runningLimit then
      BoundsDecision(false, ReasonRunningLimit, running.value, window.value)
    else if window.value > b.windowConcurrency then
      BoundsDecision(false, ReasonWindowConcurrency, running.value, window.value)
    else
      BoundsDecision(true, ReasonOpen, running.value, window.value)
  }

  // ---------- the policy ----------

  datatype PolicyDecision = PolicyDecision(
    admit: bool,
    reason: Reason,
    scope: Scope,
    projectedRunning: int,
    projectedWindow: int,
    tpsResult: TpsResult,
    tpsSubreason: TpsSubreason)

  function ValueOrZero(o: Option<int>): int {
    if o.None? then 0 else o.value
  }

  function EvaluateDemand(g: TpsGate, state: ProjectedState, d: Demand, b: Bounds): PolicyDecision {
    var tps := EvaluateGate(g, state, b.waitingAllowance, d);
    if !tps.fits then
      PolicyDecision(false, tps.reason, if tps.reason == ReasonTPSReference then ScopeLoad else ScopeAvailability,
                     0, 0, tps.result, tps.subreason)
    else if !Sheddable(d.tier) then
      var running := AddNonnegativeInt64(state.rawRunning, d.decodeSequences);
      var window := AddNonnegativeInt64(state.unobservedSequences, d.decodeSequences);
      if running.None? || window.None? then
        PolicyDecision(false, ReasonResourceExhausted, ScopeAvailability,
                       ValueOrZero(running), ValueOrZero(window), tps.result, tps.subreason)
      else
        PolicyDecision(true, ReasonOpen, ScopeNone, running.value, window.value, tps.result, tps.subreason)
    else
      var bound := EvaluateBounds(b, state, d);
      var scope := if bound.fits then ScopeNone
                   else if bound.reason == ReasonRunningLimit || bound.reason == ReasonWindowConcurrency then ScopeLoad
                   else ScopeAvailability;
      PolicyDecision(bound.fits, bound.reason, scope, bound.projectedRunning, bound.projectedWindow,
                     tps.result, tps.subreason)
  }

  /** Promotion never costs admission: what is admitted as default or flex is admitted as priority. */
  lemma PriorityAdmitsMore(g: TpsGate, state: ProjectedState, d: Demand, b: Bounds)
    requires ValidDemand(d) && EvaluateDemand(g, state, d, b).admit
    ensures EvaluateDemand(g, state, d.(tier := TierPriority), b).admit
  {
  }

  /** The demand the availability snapshot asks about: one flex sequence with an unknown prompt. */
  const MINIMUM_DEMAND := Demand(1, SourceFallback, TierFlex, 0, false)

  /** If the minimum demand fits, so does every one-sequence demand of any tier and prompt size. */
  lemma MinimumIsMostRestricted(g: TpsGate, state: ProjectedState, d: Demand, b: Bounds)
    requires ValidDemand(d) && d.decodeSequences == 1
    requires EvaluateDemand(g, state, MINIMUM_DEMAND, b).admit
    ensures EvaluateDemand(g, state, d, b).admit
  {
  }

  /** Every admitted default or flex demand leaves both projections within their limits. */
  lemma SheddableWithinBounds(g: TpsGate, state: ProjectedState, d: Demand, b: Bounds)
    requires Sheddable(d.tier) && EvaluateDemand(g, state, d, b).admit
    ensures state.unobservedSequences + d.decodeSequences <= b.windowConcurrency
    ensures b.runningLimit > 0 ==>
              state.rawRunning + state.rawWaiting + state.unobservedSequences + d.decodeSequences <= b.runningLimit
    ensures state.rawWaiting <= b.waitingAllowance
  {
  }

  /** On a ready, currently qualified snapshot a cold prompt is admitted only when none is pending. */
  lemma ColdAdmittedAlone(g: TpsGate, state: ProjectedState, d: Demand, b: Bounds)
    requires ColdSheddable(g, d) && EvaluateDemand(g, state, d, b).admit
    requires state.tps.enabled && state.tps.ready && state.tps.latest.qualified
    ensures state.coldSheddablePending <= 0 && state.tps.meanActiveTPS >= state.tps.reference
  {
  }
}
