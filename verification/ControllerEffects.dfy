/** What each call does to a sound state, as a short relation between the states before and after:
    the internal-inconsistency branches of the code are shown never to be taken. */
module ControllerEffects {
  import opened Machine
  import opened Totals
  import opened Exposure
  import opened Policy
  import opened Reservations
  import opened Controller
  import opened ControllerRun
  import opened ControllerSound

  // ---------- admission ----------

  /** Of a sound state the projection always exists: no decision is ever refused as inconsistent. */
  lemma ProjectionExists(s: State)
    requires BooksOk(s) && ObservationOk(s) && s.observation.Some?
    ensures Project(s.observation.value, s.overlay).Some?
  {
    BooksBounds(s);
  }

  predicate PolicyAdmits(s: State, at: Time, d: Demand) {
    ValidDemand(d) &&
    var (state, _, ok) := StateAt(s, at);
    ok && EvaluateDemand(s.gate, state, d, BoundsOf(s)).admit
  }

  /** The resources an admission needs beyond the policy's consent. */
  predicate AdmissionExhausted(s: State, d: Demand) {
    || |s.reservations| >= s.maximumReservations
    || s.nextReservationID == MAX_UINT64
    || s.overlay.sequenceLiabilities + d.decodeSequences > MAX_INT64
    || s.eventSequence == MAX_UINT64
  }

  function NewItem(s: State, d: Demand): Reservation {
    NewReservation(s, d).(admittedSequence := s.eventSequence + 1)
  }

  /** A demand takes one new reservation. */
  predicate Reserves(s: State, d: Demand, s': State) {
    && AddOverlay(s.overlay, Share(NewItem(s, d))) == Some(s'.overlay)
    && s' == s.(eventSequence := s.eventSequence + 1,
                nextReservationID := s.nextReservationID + 1,
                overlay := s'.overlay,
                reservations := s.reservations[s.nextReservationID + 1 := NewItem(s, d)])
  }

  predicate AdmitRel(s: State, at: Time, d: Demand, s': State, r: AdmissionResult) {
    if !PolicyAdmits(s, at, d) then
      s' == s && r.handle.None? && !r.decision.admitted
    else if AdmissionExhausted(s, d) then
      && r.handle.None? && !r.decision.admitted
      && (s' == FailClosed(s, ReasonResourceExhausted) || s' == FailClosed(s, ReasonCounterOverflow))
    else
      && Reserves(s, d, s') && r.handle == Some(Handle(s.runtimeEpoch, s.nextReservationID + 1))
      && r.decision.state == StateAt(s, at).0 && r.decision.admitted
  }

  lemma NewItemContributes(s: State, d: Demand)
    requires ValidDemand(d) && s.runtimeEpoch != 0
    ensures var c := Contribution(NewReservation(s, d));
            c.Some? && Contribution(NewItem(s, d)) == c && Share(NewItem(s, d)) == c.value
            && c.value.sequenceLiabilities == d.decodeSequences
            && ValidOverlay(c.value) && c.value.liveReservations + c.value.residualDebts == 1
  {
  }

  lemma ReserveEffect(s: State, d: Demand, state: ProjectedState, p: PolicyDecision)
    requires ValidDemand(d) && s.runtimeEpoch != 0 && s.closedReason.None? && p.admit
    requires ValidOverlay(s.overlay)
    requires s.overlay.liveReservations + s.overlay.residualDebts <= s.overlay.sequenceLiabilities
    ensures var (s', r) := Reserve(s, d, state, p);
            if AdmissionExhausted(s, d) then r.handle.None? && !r.decision.admitted &&
              (s' == FailClosed(s, ReasonResourceExhausted) || s' == FailClosed(s, ReasonCounterOverflow))
            else Reserves(s, d, s') && r.handle == Some(Handle(s.runtimeEpoch, s.nextReservationID + 1))
                 && r.decision.state == state && r.decision.admitted
  {
    NewItemContributes(s, d);
    AddExact(s.overlay, Contribution(NewReservation(s, d)).value);
  }

  /** An admission refused by the policy changes nothing; one it grants either takes exactly one new
      reservation or, exactly when a resource is exhausted, closes the controller. */
  lemma AdmitEffect(s: State, h: History, at: Time, d: Demand)
    requires Sound(s, h)
    ensures var (s', r) := Admit(s, at, d); AdmitRel(s, at, d, s', r)
  {
    if PolicyAdmits(s, at, d) {
      BooksBounds(s);
      var state := StateAt(s, at).0;
      ReserveEffect(s, d, state, EvaluateDemand(s.gate, state, d, BoundsOf(s)));
    }
  }

  // ---------- one reservation changes phase ----------

  /** One event later, one reservation replaced, with a new ledger and overlay. */
  predicate Changes(s: State, id: nat, r: Reservation, s': State) {
    s' == s.(eventSequence := s.eventSequence + 1, exposure := s'.exposure, overlay := s'.overlay,
             reservations := s.reservations[id := r])
  }

  /** One event later, one reservation gone. */
  predicate Drops(s: State, id: nat, s': State) {
    s' == s.(eventSequence := s.eventSequence + 1, exposure := s'.exposure, overlay := s'.overlay,
             reservations := s.reservations - {id})
  }

  lemma DemandOfHeld(s: State, id: nat)
    requires BooksOk(s) && id in s.reservations
    ensures ValidDemand(s.reservations[id].demand) && s.reservations[id].demand.decodeSequences <= MAX_INT64
    ensures Contribution(s.reservations[id]).Some?
  {
    assert Held(s, id, s.reservations[id]);
  }

  // ---------- forwarding ----------

  predicate Forwardable(s: State, handle: Handle) {
    Addresses(s, handle) && s.reservations[handle.id].phase == Reserved
  }

  function ForwardedItem(s: State, id: nat, now: Time): Reservation
    requires id in s.reservations
  {
    s.reservations[id].(phase := Forwarded, forwardedAt := now, forwardedSequence := s.eventSequence + 1)
  }

  predicate ForwardRel(s: State, handle: Handle, now: Time, s': State, ok: bool)
    requires Typed(s)
  {
    if !Forwardable(s, handle) then
      s' == s && !ok
    else if s.eventSequence == MAX_UINT64 then
      s' == FailClosed(s, ReasonCounterOverflow) && !ok
    else
      && ok && Changes(s, handle.id, ForwardedItem(s, handle.id, now), s') && s'.overlay == s.overlay
      && s'.exposure == AddForwarded(s.exposure, now, s.reservations[handle.id].demand.decodeSequences).0
  }

  /** A reservation not yet on the ledger always still fits there. */
  lemma RoomOnLedger(s: State, h: History, id: nat)
    requires BooksOk(s) && LedgerOk(s, h) && id in s.reservations && s.reservations[id].phase == Reserved
    ensures s.exposure.activeForwarded + s.reservations[id].demand.decodeSequences <= MAX_INT64
  {
    var rs := s.reservations;
    TotalSplit(rs, Holding, id);
    TotalSplit(rs, Liability, id);
    forall k | k in rs ensures Holding(rs[k]) <= Liability(rs[k]) {
      assert Held(s, k, rs[k]);
    }
    TotalBelow(rs - {id}, Holding, Liability);
    assert Held(s, id, rs[id]);
  }

  lemma ForwardFits(s: State, h: History, id: nat, now: Time)
    requires Typed(s) && BooksOk(s) && LedgerOk(s, h) && Reading(h.start, now) && h.clock <= now
    requires id in s.reservations && s.reservations[id].phase == Reserved
    ensures var n := s.reservations[id].demand.decodeSequences;
            var (ledger, ok) := AddForwarded(s.exposure, now, n);
            ok && ledger.initialized && ledger.lastEventAt == now && id !in h.epoch.lives
            && Integrates(ledger, h.epoch.lives[id := Lifetime(n, now, None, None)], h.start)
            && ledger.activeForwarded == s.exposure.activeForwarded + n
  {
    assert Held(s, id, s.reservations[id]);
    assert Remembered(h.epoch.lives, id, s.reservations[id]);
    RoomOnLedger(s, h, id);
    ForwardIntegrates(s.exposure, h.epoch.lives, h.start, now, id, s.reservations[id].demand.decodeSequences);
    AdvanceIntegrates(s.exposure, h.epoch.lives, h.start, now);
  }

  /** Forwarding succeeds exactly for a reserved handle, unless the event counter is exhausted. */
  lemma ForwardEffect(s: State, h: History, handle: Handle, now: Time)
    requires Sound(s, h) && Reading(h.start, now) && h.clock <= now
    ensures var (s', ok) := MarkForwarded(s, handle, now); ForwardRel(s, handle, now, s', ok)
  {
    if Forwardable(s, handle) {
      DemandOfHeld(s, handle.id);
      ForwardFits(s, h, handle.id, now);
    }
  }

  // ---------- first byte ----------

  predicate Answerable(s: State, handle: Handle) {
    Addresses(s, handle) && s.reservations[handle.id].phase == Forwarded
  }

  function AnsweredItem(s: State, id: nat): Reservation
    requires id in s.reservations
  {
    s.reservations[id].(phase := ActiveDecode, pendingFirstByteReleased := true)
  }

  predicate AnswerRel(s: State, handle: Handle, now: Time, s': State, ok: bool)
    requires Typed(s)
  {
    if !Answerable(s, handle) then
      s' == s && !ok
    else if s.eventSequence == MAX_UINT64 then
      s' == FailClosed(s, ReasonCounterOverflow) && !ok
    else
      && ok && Changes(s, handle.id, AnsweredItem(s, handle.id), s')
      && Some(s'.overlay) == Replacement(s.overlay, s.reservations[handle.id], AnsweredItem(s, handle.id))
      && s'.exposure == AddResponse(s.exposure, now, 1).0
  }

  /** The checked overlay replacement of a later phase never fails. */
  lemma PhaseReplacement(s: State, id: nat, r: Reservation)
    requires BooksOk(s) && id in s.reservations && WellFormed(r)
    requires r.demand.decodeSequences == s.reservations[id].demand.decodeSequences
    ensures Replacement(s.overlay, s.reservations[id], r).Some?
  {
    WellFormedBooks(s);
    ReplaceReservation(s.reservations, id, r);
  }

  lemma AnswerFits(s: State, h: History, id: nat, now: Time)
    requires Typed(s) && BooksOk(s) && LedgerOk(s, h) && Reading(h.start, now) && h.clock <= now
    requires id in s.reservations && s.reservations[id].phase == Forwarded
    ensures var (ledger, ok) := AddResponse(s.exposure, now, 1);
            ok && ledger.initialized && ledger.lastEventAt == now
            && id in h.epoch.lives && h.epoch.lives[id].firstByteAt.None?
            && Integrates(ledger, h.epoch.lives[id := h.epoch.lives[id].(firstByteAt := Some(now))], h.start)
            && ledger.activeForwarded == s.exposure.activeForwarded
  {
    assert Remembered(h.epoch.lives, id, s.reservations[id]);
    RespondIntegrates(s.exposure, h.epoch.lives, h.start, now, id);
    AdvanceIntegrates(s.exposure, h.epoch.lives, h.start, now);
  }

  lemma AnswerWhenReady(s: State, handle: Handle, now: Time)
    requires Typed(s)
    requires Answerable(s, handle) ==>
               && Replacement(s.overlay, s.reservations[handle.id], AnsweredItem(s, handle.id)).Some?
               && AddResponse(s.exposure, now, 1).1
    ensures var (s', ok) := MarkFirstByte(s, handle, now); AnswerRel(s, handle, now, s', ok)
  {
  }

  /** The first byte is accepted exactly for a forwarded handle, unless the event counter is exhausted. */
  lemma AnswerEffect(s: State, h: History, handle: Handle, now: Time)
    requires Sound(s, h) && Reading(h.start, now) && h.clock <= now
    ensures var (s', ok) := MarkFirstByte(s, handle, now); AnswerRel(s, handle, now, s', ok)
  {
    if Answerable(s, handle) {
      var id := handle.id;
      assert Held(s, id, s.reservations[id]);
      PhaseReplacement(s, id, AnsweredItem(s, id));
      AnswerFits(s, h, id, now);
    }
    AnswerWhenReady(s, handle, now);
  }

  // ---------- the end ----------

  predicate Endable(s: State, handle: Handle, cause: TerminalCause) {
    cause != UnknownCause && Addresses(s, handle) && s.reservations[handle.id].phase != ResidualDebt
  }

  function DebtItem(s: State, id: nat): Reservation
    requires id in s.reservations
  {
    s.reservations[id].(phase := ResidualDebt, terminalSequence := s.eventSequence + 1)
  }

  function Responding(r: Reservation): int {
    if r.phase == ActiveDecode then 1 else 0
  }

  function LedgerAtEnd(s: State, id: nat, now: Time): Ledger
    requires Typed(s) && id in s.reservations
  {
    var r := s.reservations[id];
    if r.phase == Reserved then s.exposure else Remove(s.exposure, now, r.demand.decodeSequences, Responding(r)).0
  }

  predicate EndRel(s: State, handle: Handle, cause: TerminalCause, now: Time, s': State, ok: bool)
    requires Typed(s)
  {
    if !Endable(s, handle, cause) then
      s' == s && !ok
    else if s.eventSequence == MAX_UINT64 then
      s' == FailClosed(s, ReasonCounterOverflow) && !ok
    else
      var id := handle.id;
      var r := s.reservations[id];
      && ok && s'.exposure == LedgerAtEnd(s, id, now)
      && if RemovedAtEnd(r, cause) then
           Drops(s, id, s') && Contribution(r).Some? && Some(s'.overlay) == SubtractOverlay(s.overlay, Contribution(r).value)
         else
           Changes(s, id, DebtItem(s, id), s') && Some(s'.overlay) == Replacement(s.overlay, r, DebtItem(s, id))
  }

  lemma EndFits(s: State, h: History, id: nat, now: Time)
    requires Typed(s) && BooksOk(s) && LedgerOk(s, h) && Reading(h.start, now) && h.clock <= now
    requires id in s.reservations && (s.reservations[id].phase == Forwarded || s.reservations[id].phase == ActiveDecode)
    ensures var r := s.reservations[id];
            var (ledger, ok) := Remove(s.exposure, now, r.demand.decodeSequences, Responding(r));
            ok && ledger.initialized && ledger.lastEventAt == now
            && id in h.epoch.lives && h.epoch.lives[id].endedAt.None?
            && Integrates(ledger, h.epoch.lives[id := h.epoch.lives[id].(endedAt := Some(now))], h.start)
            && ledger.activeForwarded == s.exposure.activeForwarded - r.demand.decodeSequences
  {
    assert Remembered(h.epoch.lives, id, s.reservations[id]);
    RemoveIntegrates(s.exposure, h.epoch.lives, h.start, now, id);
    AdvanceIntegrates(s.exposure, h.epoch.lives, h.start, now);
  }

  lemma RemovalSubtracts(s: State, id: nat)
    requires BooksOk(s) && id in s.reservations
    ensures Contribution(s.reservations[id]).Some?
    ensures SubtractOverlay(s.overlay, Contribution(s.reservations[id]).value).Some?
    ensures ReplaceOverlay(s.overlay, Contribution(s.reservations[id]).value, NO_OVERLAY)
         == SubtractOverlay(s.overlay, Contribution(s.reservations[id]).value)
  {
    WellFormedBooks(s);
    BooksBounds(s);
    DropReservation(s.reservations, id);
    OverlayBounds(s.reservations - {id});
  }

  /** The debt's contribution does not depend on its terminal sequence. */
  lemma DebtReplaces(s: State, id: nat)
    requires BooksOk(s) && id in s.reservations
    ensures WellFormed(DebtItem(s, id))
    ensures Replacement(s.overlay, s.reservations[id], DebtItem(s, id)).Some?
    ensures Replacement(s.overlay, s.reservations[id], s.reservations[id].(phase := ResidualDebt))
         == Replacement(s.overlay, s.reservations[id], DebtItem(s, id))
  {
    assert Held(s, id, s.reservations[id]);
    PhaseReplacement(s, id, DebtItem(s, id));
    assert Contribution(s.reservations[id].(phase := ResidualDebt)) == Contribution(DebtItem(s, id));
  }

  /** Nothing stands in the way of ending reservation `id`. */
  predicate EndReady(s: State, id: nat, now: Time)
    requires Typed(s) && id in s.reservations
  {
    var r := s.reservations[id];
    && ValidDemand(r.demand) && Contribution(r).Some?
    && SubtractOverlay(s.overlay, Contribution(r).value).Some?
    && ReplaceOverlay(s.overlay, Contribution(r).value, NO_OVERLAY) == SubtractOverlay(s.overlay, Contribution(r).value)
    && Replacement(s.overlay, r, DebtItem(s, id)).Some?
    && Replacement(s.overlay, r, r.(phase := ResidualDebt)) == Replacement(s.overlay, r, DebtItem(s, id))
    && (r.phase != Reserved ==> Remove(s.exposure, now, r.demand.decodeSequences, Responding(r)).1)
  }

  lemma EndWhenReady(s: State, handle: Handle, cause: TerminalCause, now: Time)
    requires Typed(s) && (Endable(s, handle, cause) ==> EndReady(s, handle.id, now))
    ensures var (s', ok) := Terminate(s, handle, cause, now); EndRel(s, handle, cause, now, s', ok)
  {
  }

  /** Termination succeeds exactly once for an addressed reservation, unless the event counter is exhausted. */
  lemma EndEffect(s: State, h: History, handle: Handle, cause: TerminalCause, now: Time)
    requires Sound(s, h) && Reading(h.start, now) && h.clock <= now
    ensures var (s', ok) := Terminate(s, handle, cause, now); EndRel(s, handle, cause, now, s', ok)
  {
    if Endable(s, handle, cause) {
      var id := handle.id;
      DemandOfHeld(s, id);
      RemovalSubtracts(s, id);
      DebtReplaces(s, id);
      if s.reservations[id].phase != Reserved {
        EndFits(s, h, id, now);
      }
    }
    EndWhenReady(s, handle, cause, now);
  }

  // ---------- sample windows ----------

  function OpenedWindow(s: State, now: Time): SampleWindow
    requires Typed(s)
  {
    var ledger := Advance(s.exposure, now).0;
    SampleWindow(true, s.runtimeEpoch, s.tpsPolicyEpoch, s.sampleSequence + 1, s.eventSequence,
                 ExposureSnapshot(ledger.forwardedTime, ledger.responseTime))
  }

  predicate StartRel(s: State, now: Time, s': State, w: Option<SampleWindow>)
    requires Typed(s)
  {
    if s.closedReason.Some? then
      s' == s && w.None?
    else if s.sampleSequence == MAX_UINT64 then
      s' == FailClosed(s, ReasonCounterOverflow) && w.None?
    else
      && s' == s.(exposure := Advance(s.exposure, now).0, sampleSequence := s.sampleSequence + 1)
      && w == Some(OpenedWindow(s, now))
  }

  /** A sample window opens unless the sample counter is exhausted. */
  lemma StartEffect(s: State, h: History, now: Time)
    requires Sound(s, h) && Reading(h.start, now) && h.clock <= now
    ensures var (s', w) := StartSampleWindow(s, now); StartRel(s, now, s', w)
  {
    if s.closedReason.None? {
      AdvanceIntegrates(s.exposure, h.epoch.lives, h.start, now);
    }
  }
}
