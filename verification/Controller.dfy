/** The admission controller as a state machine: each method that holds the lock is one function from
    the state before to the state after and the result. `now` is the reading of the controller's clock. */
module Controller {
  import opened Machine
  import opened Exposure
  import TW = TpsWindow
  import opened Policy
  import opened Reservations

  const MAXIMUM_RESERVATIONS: int := 1_048_576
  const DEFAULT_WINDOW_CONCURRENCY: int := 32
  const DEFAULT_WAITING_ALLOWANCE: int := 3
  const DEFAULT_LEASE: int := 1_500_000_000
  const MAXIMUM_REFERENCE: real := 1_000_000.0

  datatype LimitSource = LimitUnset | LimitUnknown | LimitEnvironment | LimitServerInfo | LimitAdmin | LimitOther

  datatype Config = Config(
    runtimeIdentity: string,
    reference: real,
    windowConcurrency: int,
    runningLimit: int,
    runningLimitSource: LimitSource,
    leaseDuration: int,
    backendTierScheduling: bool,
    warmPromptTokens: int)

  datatype Observation = Observation(
    runtimeIdentity: string,
    observedAt: Time,
    maximumAge: int,
    running: int,
    waiting: int,
    generationTokensTotal: nat,
    preemptionsTotal: nat,
    runtimeStartTime: real)

  datatype ObservedState = ObservedState(
    observation: Observation,
    sequence: nat,
    generationDelta: nat,
    preemptionDelta: nat,
    interval: int,
    previousRunning: int,
    previousWaiting: int)

  /** A sample window; `own` says that this controller issued it. */
  datatype SampleWindow = SampleWindow(
    own: bool,
    runtimeEpoch: nat,
    tpsPolicyEpoch: nat,
    id: nat,
    eventSequence: nat,
    exposure: ExposureSnapshot)

  datatype Handle = Handle(runtimeEpoch: nat, id: nat)

  datatype TerminalCause = Success | Error | Cancel | Disconnect | Timeout | Shutdown | UnknownCause

  datatype State = State(
    runtimeIdentity: string,
    gate: TpsGate,
    tpsWindow: TW.Window,
    windowConcurrency: int,
    runningLimit: int,
    waitingAllowance: int,
    runningLimitSource: LimitSource,
    leaseDuration: int,
    exposure: Ledger,
    runtimeEpoch: nat,
    eventSequence: nat,
    sampleSequence: nat,
    observationSequence: nat,
    lastPublishedSample: nat,
    lastExposure: ExposureSnapshot,
    policyRevision: nat,
    policyUpdatedAt: Time,
    tpsPolicyEpoch: nat,
    observation: Option<ObservedState>,
    closedReason: Option<Reason>,
    reservations: map<nat, Reservation>,
    overlay: Overlay,
    nextReservationID: nat,
    maximumReservations: int)

  /** What the types alone guarantee: 61 buckets, int64 active counts. */
  predicate Typed(s: State) {
    |s.tpsWindow.buckets| == TW.BUCKETS && Int64Counts(s.exposure)
  }

  // ---------- construction ----------

  function Init(c: Config): Option<State> {
    var window := if c.windowConcurrency == 0 then DEFAULT_WINDOW_CONCURRENCY else c.windowConcurrency;
    var source := if c.runningLimitSource == LimitUnset then LimitUnknown else c.runningLimitSource;
    var lease := if c.leaseDuration == 0 then DEFAULT_LEASE else c.leaseDuration;
    if c.runtimeIdentity == "" || c.reference < 0.0 || c.reference > MAXIMUM_REFERENCE ||
       window <= 0 || window > MAXIMUM_RESERVATIONS ||
       c.runningLimit < 0 || c.runningLimit > MAXIMUM_RESERVATIONS || lease < 0 || source == LimitOther ||
       (c.runningLimit > 0 && source == LimitUnknown) then
      None
    else
      Some(State(c.runtimeIdentity, TpsGate(c.backendTierScheduling, c.warmPromptTokens), TW.NewWindow(c.reference),
                 window, c.runningLimit, DEFAULT_WAITING_ALLOWANCE, source, lease, EMPTY_LEDGER,
                 1, 0, 0, 0, 0, ZERO_SNAPSHOT, 1, ZERO_TIME, 1, None, None, map[], NO_OVERLAY, 0, MAXIMUM_RESERVATIONS))
  }

  // ---------- closing ----------

  function FailClosed(s: State, reason: Reason): State {
    if s.closedReason.Some? then s
    else s.(closedReason := Some(reason),
            runtimeEpoch := if s.runtimeEpoch < MAX_UINT64 then s.runtimeEpoch + 1 else s.runtimeEpoch,
            reservations := map[],
            overlay := NO_OVERLAY,
            exposure := EMPTY_LEDGER,
            lastExposure := ZERO_SNAPSHOT,
            tpsWindow := TW.ResetWindow(s.tpsWindow))
  }

  function Close(s: State): State {
    FailClosed(s, ReasonClosed)
  }

  // ---------- sample windows ----------

  function StartSampleWindow(s: State, now: Time): (State, Option<SampleWindow>)
    requires Typed(s)
  {
    if s.closedReason.Some? then
      (s, None)
    else if s.sampleSequence == MAX_UINT64 then
      (FailClosed(s, ReasonCounterOverflow), None)
    else
      var (ledger, exposure) := Exposure.Snapshot(s.exposure, now);
      var taken := s.(exposure := ledger);
      if exposure.None? then
        (FailClosed(taken, ReasonControllerUnavailable), None)
      else
        var id := s.sampleSequence + 1;
        (taken.(sampleSequence := id),
         Some(SampleWindow(true, s.runtimeEpoch, s.tpsPolicyEpoch, id, s.eventSequence, exposure.value)))
  }

  // ---------- admission ----------

  function Project(observed: ObservedState, overlay: Overlay): Option<ProjectedState> {
    var o := observed.observation;
    var state := ProjectedState(
      overlay.unobservedSequences, overlay.coldSheddablePending, overlay.sequenceLiabilities,
      overlay.liveReservations, overlay.residualDebts, o.running, o.waiting,
      observed.previousRunning, observed.previousWaiting, observed.generationDelta, observed.preemptionDelta,
      observed.interval, 0 < observed.interval <= o.maximumAge, TW.NO_SNAPSHOT);
    if ValidProjectedState(state) then Some(state) else None
  }

  const NO_STATE := ProjectedState(0, 0, 0, 0, 0, 0, 0, 0, 0, 0, 0, 0, false, TW.NO_SNAPSHOT)

  /** The projected state a decision is made on, with the reason it is unusable if it is. */
  function StateAt(s: State, now: Time): (ProjectedState, Reason, bool) {
    if s.closedReason.Some? then
      (NO_STATE, s.closedReason.value, false)
    else if s.observation.None? then
      (NO_STATE, ReasonObservationMissing, false)
    else
      var o := s.observation.value.observation;
      var projected := Project(s.observation.value, s.overlay);
      if projected.None? then
        (NO_STATE, ReasonControllerUnavailable, false)
      else if now == ZERO_TIME || now < o.observedAt then
        (projected.value, ReasonObservationStale, false)
      else
        var state := projected.value.(tps := TW.Snapshot(s.tpsWindow, now));
        if Sub(now, o.observedAt) > o.maximumAge then (state, ReasonObservationStale, false)
        else (state, ReasonOpen, true)
  }

  datatype Decision = Decision(
    admitted: bool,
    reason: Reason,
    scope: Scope,
    demand: Demand,
    state: ProjectedState,
    projectedRunning: int,
    projectedWindow: int,
    tpsResult: TpsResult,
    tpsSubreason: TpsSubreason,
    observationSequence: nat,
    controllerSequence: nat,
    runtimeEpoch: nat,
    policyRevision: nat,
    reservationID: nat)

  datatype AdmissionResult = AdmissionResult(decision: Decision, handle: Option<Handle>)

  function BoundsOf(s: State): Bounds {
    Bounds(s.windowConcurrency, s.runningLimit, s.waitingAllowance)
  }

  function Refusal(s: State, reason: Reason, scope: Scope, demand: Demand, state: ProjectedState): AdmissionResult {
    AdmissionResult(Decision(false, reason, scope, demand, state, 0, 0, TpsUnknown, SubUnknown,
                             s.observationSequence, s.eventSequence, s.runtimeEpoch, s.policyRevision, 0), None)
  }

  function Unavailable(s: State, reason: Reason, demand: Demand, state: ProjectedState): AdmissionResult {
    Refusal(s, reason, ScopeAvailability, demand, state)
  }

  function DecisionOf(s: State, p: PolicyDecision, demand: Demand, state: ProjectedState): Decision {
    Decision(p.admit, p.reason, p.scope, demand, state, p.projectedRunning, p.projectedWindow,
             p.tpsResult, p.tpsSubreason, s.observationSequence, s.eventSequence, s.runtimeEpoch, s.policyRevision, 0)
  }

  function NewReservation(s: State, demand: Demand): Reservation {
    Reservation(s.nextReservationID + 1, s.runtimeEpoch, demand, ColdSheddable(s.gate, demand), Reserved,
                false, ZERO_TIME, 0, 0, 0)
  }

  function Admit(s: State, at: Time, demand: Demand): (State, AdmissionResult) {
    if !ValidDemand(demand) then
      (s, Refusal(s, ReasonInvalidRequest, ScopeRequest, demand, NO_STATE))
    else
      var (state, reason, ok) := StateAt(s, at);
      if !ok then
        (s, Unavailable(s, reason, demand, state))
      else
        var policy := EvaluateDemand(s.gate, state, demand, BoundsOf(s));
        if !policy.admit then
          (s, AdmissionResult(DecisionOf(s, policy, demand, state), None))
        else
          Reserve(s, demand, state, policy)
  }

  /** The policy admitted: take a reservation, or fail closed on an exhausted resource. */
  function Reserve(s: State, demand: Demand, state: ProjectedState, policy: PolicyDecision): (State, AdmissionResult) {
    if |s.reservations| >= s.maximumReservations then
      Exhausted(s, ReasonResourceExhausted, demand, state)
    else if s.nextReservationID == MAX_UINT64 then
      Exhausted(s, ReasonCounterOverflow, demand, state)
    else
      var item := NewReservation(s, demand);
      var contribution := Contribution(item);
      if contribution.None? then
        Exhausted(s, ReasonControllerUnavailable, demand, state)
      else
        var overlay := AddOverlay(s.overlay, contribution.value);
        if overlay.None? then
          Exhausted(s, ReasonResourceExhausted, demand, state)
        else if s.eventSequence == MAX_UINT64 then
          Exhausted(s, ReasonCounterOverflow, demand, state)
        else
          var sequence := s.eventSequence + 1;
          var decision := DecisionOf(s, policy, demand, state)
            .(controllerSequence := sequence, reservationID := item.id, runtimeEpoch := s.runtimeEpoch);
          (s.(eventSequence := sequence,
              nextReservationID := item.id,
              overlay := overlay.value,
              reservations := s.reservations[item.id := item.(admittedSequence := sequence)]),
           AdmissionResult(decision, Some(Handle(s.runtimeEpoch, item.id))))
  }

  function Exhausted(s: State, reason: Reason, demand: Demand, state: ProjectedState): (State, AdmissionResult) {
    var closed := FailClosed(s, reason);
    (closed, Unavailable(closed, reason, demand, state))
  }

  /** The availability an observer sees: would the minimum demand be admitted right now? */
  function Available(s: State, at: Time): bool {
    var (state, _, ok) := StateAt(s, at);
    ok && EvaluateDemand(s.gate, state, MINIMUM_DEMAND, BoundsOf(s)).admit
  }

  // ---------- the reservation's life ----------

  predicate Usable(h: Handle) {
    h.runtimeEpoch != 0 && h.id != 0
  }

  /** The reservation a handle still addresses. */
  predicate Addresses(s: State, h: Handle) {
    && Usable(h) && s.closedReason.None? && h.runtimeEpoch == s.runtimeEpoch
    && h.id in s.reservations && s.reservations[h.id].runtimeEpoch == h.runtimeEpoch
  }

  function MarkForwarded(s: State, h: Handle, now: Time): (State, bool)
    requires Typed(s)
  {
    if !Addresses(s, h) || s.reservations[h.id].phase != Reserved then
      (s, false)
    else if s.eventSequence == MAX_UINT64 then
      (FailClosed(s, ReasonCounterOverflow), false)
    else
      var item := s.reservations[h.id];
      var sequenced := s.(eventSequence := s.eventSequence + 1);
      if now == ZERO_TIME || !ValidDemand(item.demand) then
        (FailClosed(sequenced, ReasonControllerUnavailable), false)
      else
        var (ledger, ok) := AddForwarded(s.exposure, now, item.demand.decodeSequences);
        if !ok then
          (FailClosed(sequenced, ReasonControllerUnavailable), false)
        else
          (sequenced.(exposure := ledger,
                      reservations := s.reservations[h.id := item.(phase := Forwarded, forwardedAt := now,
                                                                  forwardedSequence := s.eventSequence + 1)]),
           true)
  }

  function MarkFirstByte(s: State, h: Handle, now: Time): (State, bool)
    requires Typed(s)
  {
    if !Addresses(s, h) || s.reservations[h.id].phase != Forwarded then
      (s, false)
    else
      var item := s.reservations[h.id];
      var next := item.(phase := ActiveDecode, pendingFirstByteReleased := true);
      var overlay := Replacement(s.overlay, item, next);
      if overlay.None? then
        (FailClosed(s, ReasonControllerUnavailable), false)
      else if s.eventSequence == MAX_UINT64 then
        (FailClosed(s, ReasonCounterOverflow), false)
      else
        var sequenced := s.(eventSequence := s.eventSequence + 1);
        var (ledger, ok) := AddResponse(s.exposure, now, 1);
        if !ok then
          (FailClosed(sequenced, ReasonControllerUnavailable), false)
        else
          (sequenced.(exposure := ledger, overlay := overlay.value, reservations := s.reservations[h.id := next]), true)
  }

  /** Both contributions must exist and the checked replacement must succeed. */
  function Replacement(current: Overlay, before: Reservation, after: Reservation): Option<Overlay> {
    if Contribution(before).None? || Contribution(after).None? then None
    else ReplaceOverlay(current, Contribution(before).value, Contribution(after).value)
  }

  /** What a reservation's end takes off the ledger: forwarded and responding sequences. */
  function ExposureCounts(r: Reservation): Option<(int, int)> {
    if !ValidDemand(r.demand) then None
    else match r.phase
      case Reserved => Some((0, 0))
      case Forwarded => Some((r.demand.decodeSequences, 0))
      case ActiveDecode => Some((r.demand.decodeSequences, 1))
      case ResidualDebt => None
  }

  predicate RemovedAtEnd(r: Reservation, cause: TerminalCause) {
    r.phase == Reserved || (r.phase == ActiveDecode && cause == Success)
  }

  /** The overlay once the reservation has become a debt or is gone. */
  function OverlayAfterEnd(current: Overlay, item: Reservation, remove: bool): Option<Overlay> {
    if Contribution(item).None? then None
    else if remove then ReplaceOverlay(current, Contribution(item).value, NO_OVERLAY)
    else Replacement(current, item, item.(phase := ResidualDebt))
  }

  function ExposureAfterEnd(l: Ledger, now: Time, counts: (int, int)): (Ledger, bool)
    requires Int64Counts(l)
  {
    if counts.0 > 0 then Remove(l, now, counts.0, counts.1) else (l, true)
  }

  function Terminate(s: State, h: Handle, cause: TerminalCause, now: Time): (State, bool)
    requires Typed(s)
  {
    if cause == UnknownCause || !Addresses(s, h) || s.reservations[h.id].phase == ResidualDebt then
      (s, false)
    else
      var item := s.reservations[h.id];
      var remove := RemovedAtEnd(item, cause);
      var next := item.(phase := ResidualDebt);
      var overlay := OverlayAfterEnd(s.overlay, item, remove);
      if overlay.None? then
        (FailClosed(s, ReasonControllerUnavailable), false)
      else if s.eventSequence == MAX_UINT64 then
        (FailClosed(s, ReasonCounterOverflow), false)
      else
        var sequence := s.eventSequence + 1;
        var sequenced := s.(eventSequence := sequence);
        var counts := ExposureCounts(item);
        if counts.None? then
          (FailClosed(sequenced, ReasonControllerUnavailable), false)
        else
          var (ledger, ok) := ExposureAfterEnd(s.exposure, now, counts.value);
          if !ok then
            (FailClosed(sequenced, ReasonControllerUnavailable), false)
          else
            (sequenced.(exposure := ledger, overlay := overlay.value,
                        reservations := if remove then s.reservations - {h.id}
                                        else s.reservations[h.id := next.(terminalSequence := sequence)]),
             true)
  }

  // ---------- reconciliation ----------

  predicate LeaseExpired(r: Reservation, o: Observation, at: Time, lease: int) {
    && lease > 0 && o.waiting == 0 && r.forwardedAt != ZERO_TIME && at != ZERO_TIME
    && at >= o.observedAt && Sub(at, o.observedAt) <= o.maximumAge
    && o.observedAt >= r.forwardedAt && Sub(o.observedAt, r.forwardedAt) >= lease
  }

  /** What an observation makes of one reservation; nothing is left of a debt the sample covers. */
  function Reconcile(r: Reservation, watermark: nat, o: Observation, at: Time, lease: int): Option<Reservation> {
    if r.phase == ResidualDebt && 0 < r.terminalSequence <= watermark then
      None
    else if r.phase == Forwarded && !r.pendingFirstByteReleased && 0 < r.forwardedSequence <= watermark &&
            LeaseExpired(r, o, at, lease) then
      Some(r.(pendingFirstByteReleased := true))
    else
      Some(r)
  }

  /** The map applyReconciliation leaves. */
  function Reconciled(rs: map<nat, Reservation>, watermark: nat, o: Observation, at: Time, lease: int): map<nat, Reservation> {
    map id | id in rs && Reconcile(rs[id], watermark, o, at, lease).Some? :: Reconcile(rs[id], watermark, o, at, lease).value
  }

  /** One turn of the overlay loop: the liabilities of forwarded requests, then the overlay change. */
  function ReconcileItem(r: Reservation, acc: (Overlay, int), watermark: nat, o: Observation, at: Time, lease: int)
    : Option<(Overlay, int)>
  {
    var counted := 0 < r.forwardedSequence <= watermark;
    var liabilities := if counted then AddNonnegativeInt64(acc.1, r.demand.decodeSequences) else Some(acc.1);
    if (counted && !ValidDemand(r.demand)) || liabilities.None? || Contribution(r).None? then
      None
    else
      var next := Reconcile(r, watermark, o, at, lease);
      var overlay :=
        if next.None? then SubtractOverlay(acc.0, Contribution(r).value)
        else if next.value != r then Replacement(acc.0, r, next.value)
        else Some(acc.0);
      if overlay.None? then None else Some((overlay.value, liabilities.value))
  }

  /** The overlay loop over the reservations in the order the map iteration produced them. */
  function ReconciledOverlay(order: seq<nat>, s: State, watermark: nat, o: Observation, at: Time): Option<(Overlay, int)>
    requires forall i :: 0 <= i < |order| ==> order[i] in s.reservations
  {
    if order == [] then
      Some((s.overlay, 0))
    else
      var before := ReconciledOverlay(order[..|order| - 1], s, watermark, o, at);
      if before.None? then None
      else ReconcileItem(s.reservations[order[|order| - 1]], before.value, watermark, o, at, s.leaseDuration)
  }

  /** An order in which map iteration may visit the reservations: each exactly once. */
  ghost predicate IterationOrder(order: seq<nat>, rs: map<nat, Reservation>) {
    && (forall i :: 0 <= i < |order| ==> order[i] in rs)
    && (forall i, j :: 0 <= i < j < |order| ==> order[i] != order[j])
    && (forall id :: id in rs ==> id in order)
  }

  // ---------- publication ----------

  datatype PublicationResult = PublicationResult(
    accepted: bool,
    runtimeReset: bool,
    identityDrift: bool,
    reason: Reason,
    observationSequence: nat,
    runtimeEpoch: nat)

  predicate ValidObservation(o: Observation) {
    && o.runtimeIdentity != "" && o.observedAt != ZERO_TIME && o.maximumAge > 0
    && o.running >= 0 && o.waiting >= 0 && o.runtimeStartTime >= 0.0
    && AddNonnegativeInt64(o.running, o.waiting).Some?
  }

  /** The window belongs to this controller and epoch and has not been overtaken by a published one. */
  predicate WindowCurrent(s: State, w: SampleWindow) {
    w.own && w.runtimeEpoch == s.runtimeEpoch && s.lastPublishedSample < w.id <= s.sampleSequence
  }

  predicate RuntimeReset(s: State, o: Observation) {
    s.observation.Some? &&
    var previous := s.observation.value.observation;
    || (o.runtimeStartTime > 0.0 && previous.runtimeStartTime > 0.0 && o.runtimeStartTime != previous.runtimeStartTime)
    || o.generationTokensTotal < previous.generationTokensTotal
    || o.preemptionsTotal < previous.preemptionsTotal
  }

  predicate GoesBack(s: State, o: Observation) {
    s.observation.Some? &&
    var previous := s.observation.value.observation;
    o.observedAt < previous.observedAt || (previous.runtimeStartTime > 0.0 && o.runtimeStartTime == 0.0)
  }

  function Rejected(s: State, reason: Reason): PublicationResult {
    PublicationResult(false, false, false, reason, 0, s.runtimeEpoch)
  }

  function FailPublish(s: State, reason: Reason): (State, PublicationResult) {
    var closed := FailClosed(s, reason);
    (closed, Rejected(closed, reason))
  }

  function Publish(s: State, order: seq<nat>, w: SampleWindow, o: Observation, now: Time): (State, PublicationResult)
    requires Typed(s) && forall i :: 0 <= i < |order| ==> order[i] in s.reservations
  {
    if s.closedReason.Some? then
      (s, Rejected(s, s.closedReason.value))
    else if !WindowCurrent(s, w) || w.id == 0 || !ValidObservation(o) then
      (s, Rejected(s, ReasonObservationInvalid))
    else if o.runtimeIdentity != s.runtimeIdentity then
      var closed := FailClosed(s, ReasonRuntimeIdentityDrift);
      (closed, PublicationResult(false, false, true, ReasonRuntimeIdentityDrift, 0, closed.runtimeEpoch))
    else if GoesBack(s, o) then
      (s, Rejected(s, ReasonObservationInvalid))
    else if s.observationSequence == MAX_UINT64 then
      FailPublish(s, ReasonCounterOverflow)
    else if RuntimeReset(s, o) then
      PublishReset(s, o)
    else
      PublishSample(s, order, w, o, now)
  }

  function Accept(s: State, reset: bool, observed: ObservedState): (State, PublicationResult) {
    (s.(observationSequence := observed.sequence, observation := Some(observed)),
     PublicationResult(true, reset, false, ReasonOpen, observed.sequence, s.runtimeEpoch))
  }

  /** The backend restarted: a new epoch with nothing carried over. */
  function PublishReset(s: State, o: Observation): (State, PublicationResult) {
    if s.runtimeEpoch == MAX_UINT64 then
      FailPublish(s, ReasonCounterOverflow)
    else
      var restarted := s.(runtimeEpoch := s.runtimeEpoch + 1, reservations := map[], overlay := NO_OVERLAY,
                          sampleSequence := 0, lastPublishedSample := 0, lastExposure := ZERO_SNAPSHOT,
                          exposure := EMPTY_LEDGER, tpsWindow := TW.ResetWindow(s.tpsWindow));
      Accept(restarted, true, ObservedState(o, s.observationSequence + 1, 0, 0, 0, 0, 0))
  }

  function Since(s: State, o: Observation): ObservedState {
    var sequence := s.observationSequence + 1;
    if s.observation.None? then
      ObservedState(o, sequence, 0, 0, 0, 0, 0)
    else
      var previous := s.observation.value.observation;
      ObservedState(o, sequence,
                    if o.generationTokensTotal < previous.generationTokensTotal then 0
                    else o.generationTokensTotal - previous.generationTokensTotal,
                    if o.preemptionsTotal < previous.preemptionsTotal then 0
                    else o.preemptionsTotal - previous.preemptionsTotal,
                    Sub(o.observedAt, previous.observedAt), previous.running, previous.waiting)
  }

  function SampleOf(s: State, o: Observation, exposure: ExposureSnapshot, liabilities: int): TW.Sample
    requires s.observation.Some?
  {
    var previous := s.observation.value.observation;
    TW.Sample(previous.observedAt, o.observedAt, o.maximumAge, Since(s, o).generationDelta, previous.running, o.running,
              liabilities, true, Seconds(exposure.forwarded), Seconds(exposure.response))
  }

  function PublishSample(s: State, order: seq<nat>, w: SampleWindow, o: Observation, now: Time): (State, PublicationResult)
    requires Typed(s) && forall i :: 0 <= i < |order| ==> order[i] in s.reservations
  {
    var exposure := SubtractSnapshot(w.exposure, s.lastExposure);
    if exposure.None? then
      FailPublish(s, ReasonControllerUnavailable)
    else
      var overlay := ReconciledOverlay(order, s, w.eventSequence, o, now);
      if overlay.None? then
        FailPublish(s, ReasonControllerUnavailable)
      else
        var reconciled := s.(reservations := Reconciled(s.reservations, w.eventSequence, o, now, s.leaseDuration),
                             overlay := overlay.value.0,
                             lastPublishedSample := w.id,
                             lastExposure := w.exposure);
        if s.observation.Some? && w.tpsPolicyEpoch == s.tpsPolicyEpoch && TW.Enabled(s.tpsWindow) then
          var (window, ok) := TW.Observe(s.tpsWindow, SampleOf(s, o, exposure.value, overlay.value.1));
          if !ok then FailPublish(reconciled.(tpsWindow := window), ReasonCounterOverflow)
          else Accept(reconciled.(tpsWindow := window), false, Since(s, o))
        else
          Accept(reconciled, false, Since(s, o))
  }

  // ---------- policy updates ----------

  datatype PolicyUpdate = PolicyUpdate(
    expectedRevision: nat,
    reference: Option<real>,
    windowConcurrency: Option<int>,
    runningLimit: Option<int>,
    waitingAllowance: Option<int>,
    updatedAt: Time)

  datatype PolicySnapshot = PolicySnapshot(
    revision: nat,
    reference: real,
    windowConcurrency: int,
    runningLimit: int,
    waitingAllowance: int,
    runningLimitSource: LimitSource,
    updatedAt: Time)

  function PolicyOf(s: State): PolicySnapshot {
    PolicySnapshot(s.policyRevision, s.tpsWindow.reference, s.windowConcurrency, s.runningLimit, s.waitingAllowance,
                   s.runningLimitSource, s.policyUpdatedAt)
  }

  datatype UpdateError = PolicyInvalid | PolicyRevisionConflict | PolicyUnavailable

  datatype UpdateResult = UpdateResult(
    policy: PolicySnapshot,
    previousPolicy: PolicySnapshot,
    tpsWindowReset: bool,
    error: Option<UpdateError>)

  function RefusedUpdate(s: State, error: UpdateError): UpdateResult {
    UpdateResult(PolicyOf(s), PolicyOf(s), false, Some(error))
  }

  predicate ValidUpdate(u: PolicyUpdate) {
    && u.expectedRevision != 0 && u.updatedAt != ZERO_TIME
    && (u.reference.Some? || u.windowConcurrency.Some? || u.runningLimit.Some? || u.waitingAllowance.Some?)
    && (u.reference.Some? ==> 0.0 <= u.reference.value <= MAXIMUM_REFERENCE)
    && (u.windowConcurrency.Some? ==> 0 < u.windowConcurrency.value <= MAXIMUM_RESERVATIONS)
    && (u.runningLimit.Some? ==> 0 <= u.runningLimit.value <= MAXIMUM_RESERVATIONS)
    && (u.waitingAllowance.Some? ==> 0 <= u.waitingAllowance.value <= MAXIMUM_RESERVATIONS)
  }

  function Or<T>(o: Option<T>, otherwise: T): T {
    if o.Some? then o.value else otherwise
  }

  function UpdatePolicy(s: State, u: PolicyUpdate): (State, UpdateResult) {
    if !ValidUpdate(u) then
      (s, RefusedUpdate(s, PolicyInvalid))
    else if s.closedReason.Some? || s.policyRevision == MAX_UINT64 then
      (s, RefusedUpdate(s, PolicyUnavailable))
    else if u.expectedRevision != s.policyRevision then
      (s, RefusedUpdate(s, PolicyRevisionConflict))
    else
      var reference := Or(u.reference, s.tpsWindow.reference);
      var reset := reference != s.tpsWindow.reference;
      var revised := s.(policyRevision := s.policyRevision + 1,
                        policyUpdatedAt := u.updatedAt,
                        windowConcurrency := Or(u.windowConcurrency, s.windowConcurrency),
                        runningLimit := Or(u.runningLimit, s.runningLimit),
                        waitingAllowance := Or(u.waitingAllowance, s.waitingAllowance),
                        runningLimitSource := if u.runningLimit.Some? then LimitAdmin else s.runningLimitSource);
      var next := if reset then revised.(tpsPolicyEpoch := s.tpsPolicyEpoch + 1, tpsWindow := TW.NewWindow(reference))
                  else revised;
      (next, UpdateResult(PolicyOf(next), PolicyOf(s), reset, None))
  }
}
