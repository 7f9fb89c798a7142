/** What a reservation counts for, and what each call and each observation makes of it. */
module ReservationMeaning {
  import opened Machine
  import opened Totals
  import opened Policy
  import opened Reservations
  import opened Controller
  import opened ControllerRun
  import opened ControllerSound
  import opened ControllerEffects
  import opened ControllerTheorems
  import opened ControllerSafety

  // ---------- the overlay ----------

  /** Admitted, and the backend has not answered yet. */
  predicate AwaitsAnswer(r: Reservation) { r.phase == Reserved || r.phase == Forwarded }

  function UnobservedNow(r: Reservation): int {
    if AwaitsAnswer(r) && !r.pendingFirstByteReleased then r.demand.decodeSequences else 0
  }

  function LiableNow(r: Reservation): int { r.demand.decodeSequences }

  function LiveNow(r: Reservation): int { if r.phase == ResidualDebt then 0 else 1 }

  function DebtNow(r: Reservation): int { if r.phase == ResidualDebt then 1 else 0 }

  function ColdNow(r: Reservation): int { if AwaitsAnswer(r) && r.coldSheddable then 1 else 0 }

  /** A reservation counts unless it has no identity, no valid demand, or was answered without being released. */
  lemma ContributionExactly(r: Reservation)
    ensures Contribution(r).Some? <==>
              && r.id != 0 && r.runtimeEpoch != 0
              && r.demand.decodeSequences > 0 && r.demand.source != SourceUnknown && r.demand.tier != TierUnknown
              && (r.phase == ActiveDecode ==> r.pendingFirstByteReleased)
    ensures Contribution(r).Some? ==>
              Share(r) == Overlay(UnobservedNow(r), LiableNow(r), LiveNow(r), DebtNow(r), ColdNow(r))
  {
  }

  /** At every moment of every run the overlay counts: sequences not yet observed, sequences held, live
      requests, debts, and cold prompts waiting for their first byte. */
  lemma OverlayCounts(run: Run)
    requires Possible(run)
    ensures var s := Final(run);
            && s.overlay.unobservedSequences == Total(s.reservations, UnobservedNow)
            && s.overlay.sequenceLiabilities == Total(s.reservations, LiableNow)
            && s.overlay.liveReservations == Total(s.reservations, LiveNow)
            && s.overlay.residualDebts == Total(s.reservations, DebtNow)
            && s.overlay.coldSheddablePending == Total(s.reservations, ColdNow)
  {
    OverlayIsScan(run);
    var rs := Final(run).reservations;
    forall id | id in rs
      ensures Share(rs[id]) == Overlay(UnobservedNow(rs[id]), LiableNow(rs[id]), LiveNow(rs[id]), DebtNow(rs[id]), ColdNow(rs[id]))
    {
      ContributionExactly(rs[id]);
    }
    TotalSame(rs, Unobserved, UnobservedNow);
    TotalSame(rs, Liability, LiableNow);
    TotalSame(rs, Live, LiveNow);
    TotalSame(rs, Debt, DebtNow);
    TotalSame(rs, ColdPending, ColdNow);
  }

  // ---------- what a call makes of it ----------

  /** A taken reservation carries the demand unchanged, and is cold if prompt-aware gating is on and the
      demand is default or flex with a prompt larger than one chunk, or unknown. */
  lemma TakenExactly(s: State, d: Demand, s': State)
    requires Reserves(s, d, s')
    ensures var id := s.nextReservationID + 1;
            && s'.nextReservationID == id && s'.eventSequence == s.eventSequence + 1
            && s'.reservations.Keys == s.reservations.Keys + {id}
            && (forall k :: k in s.reservations && k != id ==> s'.reservations[k] == s.reservations[k])
            && var r := s'.reservations[id];
               && r.id == id && r.runtimeEpoch == s.runtimeEpoch && r.demand == d && r.phase == Reserved
               && !r.pendingFirstByteReleased && r.forwardedAt == ZERO_TIME
               && r.admittedSequence == s'.eventSequence && r.forwardedSequence == 0 && r.terminalSequence == 0
               && (r.coldSheddable <==>
                     && s.gate.warmPromptTokens > 0 && (d.tier == TierDefault || d.tier == TierFlex)
                     && (!d.prefillKnown || d.prefillTokens > s.gate.warmPromptTokens))
  {
  }

  /** A call on one reservation leaves all others alone. */
  ghost predicate OnlyTouches(s: State, s': State, id: nat) {
    && s'.reservations.Keys - {id} == s.reservations.Keys - {id}
    && forall k :: k in s'.reservations && k != id ==> k in s.reservations && s'.reservations[k] == s.reservations[k]
  }

  lemma ForwardedExactly(s: State, handle: Handle, now: Time, s': State)
    requires Typed(s) && ForwardRel(s, handle, now, s', true)
    ensures OnlyTouches(s, s', handle.id) && handle.id in s.reservations && handle.id in s'.reservations
    ensures var r, r' := s.reservations[handle.id], s'.reservations[handle.id];
            && s'.eventSequence == s.eventSequence + 1 && s'.overlay == s.overlay
            && r' == r.(phase := r'.phase, forwardedAt := r'.forwardedAt, forwardedSequence := r'.forwardedSequence)
            && r.phase == Reserved && r'.phase == Forwarded
            && r'.forwardedAt == now && r'.forwardedSequence == s'.eventSequence
  {
  }

  lemma AnsweredExactly(s: State, handle: Handle, now: Time, s': State)
    requires Typed(s) && AnswerRel(s, handle, now, s', true)
    ensures OnlyTouches(s, s', handle.id) && handle.id in s.reservations && handle.id in s'.reservations
    ensures var r, r' := s.reservations[handle.id], s'.reservations[handle.id];
            && s'.eventSequence == s.eventSequence + 1
            && r' == r.(phase := r'.phase, pendingFirstByteReleased := r'.pendingFirstByteReleased)
            && r.phase == Forwarded && r'.phase == ActiveDecode && r'.pendingFirstByteReleased
  {
  }

  /** A request that was never forwarded, or that answered and succeeded, is gone; a forwarded one without
      an answer, and an answered one that did not succeed, leaves a debt until an observation covers it. */
  lemma EndedExactly(s: State, handle: Handle, cause: TerminalCause, now: Time, s': State)
    requires Typed(s) && EndRel(s, handle, cause, now, s', true)
    ensures OnlyTouches(s, s', handle.id) && handle.id in s.reservations && s'.eventSequence == s.eventSequence + 1
    ensures var r := s.reservations[handle.id];
            && r.phase != ResidualDebt && cause != UnknownCause
            && (handle.id !in s'.reservations <==>
                  r.phase == Reserved || (r.phase == ActiveDecode && cause == Success))
            && (handle.id in s'.reservations <==>
                  || r.phase == Forwarded
                  || (r.phase == ActiveDecode &&
                      (cause == Error || cause == Cancel || cause == Disconnect || cause == Timeout || cause == Shutdown)))
            && (handle.id in s'.reservations ==>
                  var r' := s'.reservations[handle.id];
                  && r' == r.(phase := r'.phase, terminalSequence := r'.terminalSequence)
                  && r'.phase == ResidualDebt && r'.terminalSequence == s'.eventSequence)
  {
  }

  // ---------- when a call succeeds ----------

  /** A handle addresses a reservation that is held, of the current epoch of an open controller. */
  lemma AddressedExactly(s: State, h: History, handle: Handle)
    requires Sound(s, h)
    ensures Addresses(s, handle) <==>
              s.closedReason.None? && handle.runtimeEpoch == s.runtimeEpoch && handle.id in s.reservations
  {
    if s.closedReason.None? && handle.id in s.reservations {
      assert Held(s, handle.id, s.reservations[handle.id]);
    }
  }

  /** The handle's reservation is in one of the phases, and there is an event number left. */
  predicate Ready(s: State, handle: Handle, phases: set<Phase>) {
    && s.closedReason.None? && handle.runtimeEpoch == s.runtimeEpoch
    && handle.id in s.reservations && s.reservations[handle.id].phase in phases
    && s.eventSequence != 0xFFFF_FFFF_FFFF_FFFF
  }

  /** In which states forwarding, answering, ending and opening a sample window succeed. */
  predicate RightOutcome(s: State, e: Event, out: Outcome) {
    && (e.call.CallForward? ==> out == Mark(Ready(s, e.call.handle, {Reserved})))
    && (e.call.CallFirstByte? ==> out == Mark(Ready(s, e.call.handle, {Forwarded})))
    && (e.call.CallTerminate? ==>
          out == Mark(e.call.cause != UnknownCause && Ready(s, e.call.handle, {Reserved, Forwarded, ActiveDecode})))
    && (e.call.CallStart? ==>
          && out.Sampling?
          && (out.window.Some? <==> s.closedReason.None? && s.sampleSequence != 0xFFFF_FFFF_FFFF_FFFF)
          && (out.window.Some? ==>
                var w := out.window.value;
                && w.own && w.runtimeEpoch == s.runtimeEpoch && w.tpsPolicyEpoch == s.tpsPolicyEpoch
                && w.id == s.sampleSequence + 1 && w.eventSequence == s.eventSequence))
  }

  lemma OutcomeOf(s: State, e: Event, s': State, out: Outcome)
    requires Typed(s) && StepRel(s, e, s', out)
    requires e.call.CallForward? || e.call.CallFirstByte? || e.call.CallTerminate? ==>
               (Addresses(s, e.call.handle) <==>
                  s.closedReason.None? && e.call.handle.runtimeEpoch == s.runtimeEpoch && e.call.handle.id in s.reservations)
    ensures RightOutcome(s, e, out)
  {
  }

  /** So they do, in every run. */
  lemma SucceedsExactly(run: Run, e: Event)
    requires Possible(run) && Typed(Final(run)) && Genuine(Past(run), Final(run), e)
    ensures RightOutcome(Final(run), e, Step(Final(run), e).1)
  {
    RunSound(run);
    StepEffect(Final(run), Past(run), e);
    if e.call.CallForward? || e.call.CallFirstByte? || e.call.CallTerminate? {
      AddressedExactly(Final(run), Past(run), e.call.handle);
    }
    OutcomeOf(Final(run), e, Step(Final(run), e).0, Step(Final(run), e).1);
  }

  // ---------- what an observation makes of it ----------

  /** A debt goes once an observation covers its end. A forwarded request's sequences count as observed once
      the lease is over: an observation covers the forwarding, shows nothing waiting, was taken no less than
      the lease after it, and is not older than it may be. Nothing else changes. */
  lemma ReconciledExactly(r: Reservation, watermark: nat, o: Observation, at: Time, lease: int)
    requires lease <= 0x7FFF_FFFF_FFFF_FFFF
    ensures var next := Reconcile(r, watermark, o, at, lease);
            && (next.None? <==> r.phase == ResidualDebt && 1 <= r.terminalSequence <= watermark)
            && (next.Some? ==> next.value == r.(pendingFirstByteReleased := next.value.pendingFirstByteReleased))
            && (next.Some? ==>
                  (next.value.pendingFirstByteReleased <==>
                     || r.pendingFirstByteReleased
                     || (&& r.phase == Forwarded && 1 <= r.forwardedSequence <= watermark
                         && lease > 0 && o.waiting == 0 && r.forwardedAt != ZERO_TIME && at != ZERO_TIME
                         && o.observedAt <= at
                         && (at - o.observedAt <= o.maximumAge || o.maximumAge >= 0x7FFF_FFFF_FFFF_FFFF)
                         && o.observedAt - r.forwardedAt >= lease)))
  {
  }
}
