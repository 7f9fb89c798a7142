/** The controller as the lock-protected object of the code. Its record is updated field by field, and the
    reservations are visited in whatever order map iteration produces them. Each method is one critical
    section, proved against the step function of the same call. */
module AdmissionControllerObject {
  import opened Machine
  import opened Totals
  import opened Exposure
  import TW = TpsWindow
  import opened Policy
  import opened Reservations
  import opened Controller
  import C = Controller
  import opened ControllerSound
  import opened ControllerEffects
  import opened Reconciliation
  import opened ControllerBooks

  /** Some order over a set, for the entries a loop left unvisited when it returned early. */
  ghost function AnyOrder(ids: set<nat>): (order: seq<nat>)
    ensures forall i :: 0 <= i < |order| ==> order[i] in ids
    ensures forall i, j :: 0 <= i < j < |order| ==> order[i] != order[j]
    ensures forall id :: id in ids ==> id in order
  {
    if ids == {} then
      []
    else
      var id :| id in ids;
      var rest := AnyOrder(ids - {id});
      assert forall x :: x in ids ==> x == id || x in ids - {id};
      [id] + rest
  }

  /** Once a turn has failed, no continuation of the iteration succeeds. */
  lemma {:induction false} FailureStays(order: seq<nat>, more: seq<nat>, s: State, p: Pass)
    requires forall i :: 0 <= i < |order| ==> order[i] in s.reservations
    requires forall i :: 0 <= i < |more| ==> more[i] in s.reservations
    requires ReconciledOverlay(order, s, p.watermark, p.observation, p.at).None?
    ensures ReconciledOverlay(order + more, s, p.watermark, p.observation, p.at).None?
  {
    if more == [] {
      assert order + more == order;
    } else {
      var n := |more| - 1;
      FailureStays(order, more[..n], s, p);
      assert (order + more)[..|order + more| - 1] == order + more[..n];
    }
  }

  /** The order so far visits exactly the reservations that do not remain, each once. */
  ghost predicate Visits(order: seq<nat>, rs: map<nat, Reservation>, remaining: set<nat>) {
    && remaining <= rs.Keys
    && (forall i :: 0 <= i < |order| ==> order[i] in rs && order[i] !in remaining)
    && (forall i, j :: 0 <= i < j < |order| ==> order[i] != order[j])
    && (forall id :: id in rs && id !in remaining ==> id in order)
  }

  lemma VisitsStep(order: seq<nat>, rs: map<nat, Reservation>, remaining: set<nat>, id: nat)
    requires Visits(order, rs, remaining) && id in remaining
    ensures Visits(order + [id], rs, remaining - {id}) && (order + [id])[..|order + [id]| - 1] == order
  {
    forall x | x in rs && x !in remaining - {id} ensures x in order + [id] {
      if x != id { assert x in order; }
    }
  }

  /** Visiting what remains in any order completes the iteration. */
  lemma VisitsRest(order: seq<nat>, rs: map<nat, Reservation>, remaining: set<nat>)
    requires Visits(order, rs, remaining)
    ensures IterationOrder(order + AnyOrder(remaining), rs)
  {
    var rest := AnyOrder(remaining);
    forall id | id in rs ensures id in order + rest {
      if id in remaining { assert id in rest; } else { assert id in order; }
    }
  }

  lemma OrderMeaning(order: seq<nat>, s: State, p: Pass)
    requires p.lease == s.leaseDuration && IterationOrder(order, s.reservations)
    ensures BooksOk(s) ==>
              C.ReconciledOverlay(order, s, p.watermark, p.observation, p.at)
              == Some((OverlayOf(AfterPass(s.reservations, p)), Total(s.reservations, CountedBy(p.watermark))))
  {
    if BooksOk(s) { OrderIrrelevant(order, s, p); }
  }

  lemma NothingAdded(rs: map<nat, Reservation>)
    ensures OverlayOf(rs - rs.Keys) == NO_OVERLAY
  {
    assert rs - rs.Keys == map[];
  }

  lemma RemoveNothing(rs: map<nat, Reservation>, none: set<nat>)
    requires none == {}
    ensures rs - none == rs
  {
  }

  lemma ScanMaps(rs: map<nat, Reservation>, remaining: set<nat>, id: nat)
    requires remaining <= rs.Keys && id in remaining
    ensures rs - (remaining - {id}) == (rs - remaining)[id := rs[id]]
    ensures rs - (remaining - {id}) == Visited(rs, rs.Keys - (remaining - {id}))
  {
  }

  /** One more contribution added up: the sum stays exact and within int64. */
  lemma ScanStep(rs: map<nat, Reservation>, remaining: set<nat>, id: nat)
    requires AllWellFormed(rs) && remaining <= rs.Keys && id in remaining
    requires OverlayOf(rs).sequenceLiabilities <= MAX_INT64
    ensures Contribution(rs[id]).Some?
    ensures AddOverlay(OverlayOf(rs - remaining), Contribution(rs[id]).value) == Some(OverlayOf(rs - (remaining - {id})))
  {
    assert WellFormed(rs[id]);
    ScanMaps(rs, remaining, id);
    InsertReservation(rs - remaining, id, rs[id]);
    OverlayPut(rs - remaining, id, rs[id]);
    RemoveAbsent(rs - remaining, id);
    VisitedBelow(rs, rs.Keys - (remaining - {id}));
  }

  class AdmissionController {
    var state: State

    /** The overlay is the from-scratch sum of the reservations, each held as its phase demands. */
    ghost predicate Valid()
      reads this
    {
      Typed(state) && BooksSound(state)
    }

    constructor (initial: State)
      requires Typed(initial) && BooksSound(initial)
      ensures Valid() && state == initial
    {
      state := initial;
    }

    /** A controller, or nothing for a configuration that is refused. */
    static method New(c: Config) returns (controller: Option<AdmissionController>)
      ensures controller.Some? <==> Init(c).Some?
      ensures controller.Some? ==>
                && fresh(controller.value) && controller.value.Valid()
                && Init(c) == Some(controller.value.state)
    {
      var initial := Init(c);
      if initial.None? {
        return None;
      }
      EmptyBooks(initial.value);
      var made := new AdmissionController(initial.value);
      return Some(made);
    }

    method FailClosed(reason: Reason)
      requires Typed(state)
      modifies this
      ensures Typed(state) && state == C.FailClosed(old(state), reason)
    {
      if state.closedReason.Some? {
        return;
      }
      state := state.(closedReason := Some(reason));
      if state.runtimeEpoch < MAX_UINT64 {
        state := state.(runtimeEpoch := state.runtimeEpoch + 1);
      }
      state := state.(reservations := map[], overlay := NO_OVERLAY);
      state := state.(exposure := EMPTY_LEDGER, lastExposure := ZERO_SNAPSHOT);
      state := state.(tpsWindow := TW.ResetWindow(state.tpsWindow));
    }

    method NextEventSequence() returns (sequence: Option<nat>)
      requires Typed(state)
      modifies this
      ensures Typed(state)
      ensures old(state).eventSequence == MAX_UINT64 ==>
                sequence.None? && state == C.FailClosed(old(state), ReasonCounterOverflow)
      ensures old(state).eventSequence != MAX_UINT64 ==>
                && sequence == Some(old(state).eventSequence + 1)
                && state == old(state).(eventSequence := old(state).eventSequence + 1)
    {
      if state.eventSequence == MAX_UINT64 {
        FailClosed(ReasonCounterOverflow);
        return None;
      }
      state := state.(eventSequence := state.eventSequence + 1);
      return Some(state.eventSequence);
    }

    method Close()
      requires Valid()
      modifies this
      ensures Valid() && state == C.Close(old(state))
    {
      CloseKeepsBooks(state, ReasonClosed);
      FailClosed(ReasonClosed);
    }

    method StartSampleWindow(now: Time) returns (w: Option<SampleWindow>)
      requires Valid()
      modifies this
      ensures Valid() && (state, w) == C.StartSampleWindow(old(state), now)
    {
      StartKeepsBooks(state, now);
      if state.closedReason.Some? {
        return None;
      }
      if state.sampleSequence == MAX_UINT64 {
        FailClosed(ReasonCounterOverflow);
        return None;
      }
      var (ledger, taken) := Exposure.Snapshot(state.exposure, now);
      state := state.(exposure := ledger);
      if taken.None? {
        FailClosed(ReasonControllerUnavailable);
        return None;
      }
      state := state.(sampleSequence := state.sampleSequence + 1);
      return Some(SampleWindow(true, state.runtimeEpoch, state.tpsPolicyEpoch, state.sampleSequence,
                               state.eventSequence, taken.value));
    }

    method Admit(now: Time, demand: Demand) returns (result: AdmissionResult)
      requires Valid()
      modifies this
      ensures Valid() && (state, result) == C.Admit(old(state), now, demand)
      ensures AdmitRel(old(state), now, demand, state, result)
    {
      AdmitKeepsBooks(state, now, demand);
      if !ValidDemand(demand) {
        return Refusal(state, ReasonInvalidRequest, ScopeRequest, demand, NO_STATE);
      }
      var (projected, reason, ok) := StateAt(state, now);
      if !ok {
        return Unavailable(state, reason, demand, projected);
      }
      var policy := EvaluateDemand(state.gate, projected, demand, BoundsOf(state));
      if !policy.admit {
        return AdmissionResult(DecisionOf(state, policy, demand, projected), None);
      }
      result := Reserve(demand, projected, policy);
    }

    method Reserve(demand: Demand, projected: ProjectedState, policy: PolicyDecision) returns (result: AdmissionResult)
      requires Typed(state)
      modifies this
      ensures Typed(state) && (state, result) == C.Reserve(old(state), demand, projected, policy)
    {
      var decision := DecisionOf(state, policy, demand, projected);
      if |state.reservations| >= state.maximumReservations {
        FailClosed(ReasonResourceExhausted);
        return Unavailable(state, ReasonResourceExhausted, demand, projected);
      }
      if state.nextReservationID == MAX_UINT64 {
        FailClosed(ReasonCounterOverflow);
        return Unavailable(state, ReasonCounterOverflow, demand, projected);
      }
      var item := NewReservation(state, demand);
      var contribution := Contribution(item);
      if contribution.None? {
        FailClosed(ReasonControllerUnavailable);
        return Unavailable(state, ReasonControllerUnavailable, demand, projected);
      }
      var nextOverlay := AddOverlay(state.overlay, contribution.value);
      if nextOverlay.None? {
        FailClosed(ReasonResourceExhausted);
        return Unavailable(state, ReasonResourceExhausted, demand, projected);
      }
      var sequence := NextEventSequence();
      if sequence.None? {
        return Unavailable(state, ReasonCounterOverflow, demand, projected);
      }
      item := item.(admittedSequence := sequence.value);
      state := state.(nextReservationID := item.id);
      state := state.(overlay := nextOverlay.value);
      state := state.(reservations := state.reservations[item.id := item]);
      decision := decision.(controllerSequence := sequence.value, reservationID := item.id,
                            runtimeEpoch := state.runtimeEpoch);
      return AdmissionResult(decision, Some(Handle(state.runtimeEpoch, item.id)));
    }

    method MarkForwarded(h: Handle, now: Time) returns (ok: bool)
      requires Valid()
      modifies this
      ensures Valid() && (state, ok) == C.MarkForwarded(old(state), h, now)
    {
      ForwardKeepsBooks(state, h, now);
      if !Addresses(state, h) || state.reservations[h.id].phase != Reserved {
        return false;
      }
      ok := BeginForwarded(h, now);
    }

    method BeginForwarded(h: Handle, now: Time) returns (ok: bool)
      requires Typed(state) && Addresses(state, h) && state.reservations[h.id].phase == Reserved
      modifies this
      ensures Typed(state) && (state, ok) == C.MarkForwarded(old(state), h, now)
    {
      var item := state.reservations[h.id];
      var sequence := NextEventSequence();
      if sequence.None? {
        return false;
      }
      if now == ZERO_TIME || !ValidDemand(item.demand) {
        FailClosed(ReasonControllerUnavailable);
        return false;
      }
      var (ledger, added) := AddForwarded(state.exposure, now, item.demand.decodeSequences);
      if !added {
        FailClosed(ReasonControllerUnavailable);
        return false;
      }
      state := state.(exposure := ledger);
      item := item.(phase := Forwarded, forwardedAt := now, forwardedSequence := sequence.value);
      state := state.(reservations := state.reservations[h.id := item]);
      return true;
    }

    method MarkFirstByte(h: Handle, now: Time) returns (ok: bool)
      requires Valid()
      modifies this
      ensures Valid() && (state, ok) == C.MarkFirstByte(old(state), h, now)
    {
      AnswerKeepsBooks(state, h, now);
      if !Addresses(state, h) || state.reservations[h.id].phase != Forwarded {
        return false;
      }
      ok := BeginResponse(h, now);
    }

    method BeginResponse(h: Handle, now: Time) returns (ok: bool)
      requires Typed(state) && Addresses(state, h) && state.reservations[h.id].phase == Forwarded
      modifies this
      ensures Typed(state) && (state, ok) == C.MarkFirstByte(old(state), h, now)
    {
      var item := state.reservations[h.id];
      var next := item.(phase := ActiveDecode, pendingFirstByteReleased := true);
      var nextOverlay := Replacement(state.overlay, item, next);
      if nextOverlay.None? {
        FailClosed(ReasonControllerUnavailable);
        return false;
      }
      var sequence := NextEventSequence();
      if sequence.None? {
        return false;
      }
      var (ledger, added) := AddResponse(state.exposure, now, 1);
      if !added {
        FailClosed(ReasonControllerUnavailable);
        return false;
      }
      state := state.(exposure := ledger, overlay := nextOverlay.value,
                      reservations := state.reservations[h.id := next]);
      return true;
    }

    method Terminate(h: Handle, cause: TerminalCause, now: Time) returns (ok: bool)
      requires Valid()
      modifies this
      ensures Valid() && (state, ok) == C.Terminate(old(state), h, cause, now)
    {
      EndKeepsBooks(state, h, cause, now);
      if cause == UnknownCause || !Addresses(state, h) || state.reservations[h.id].phase == ResidualDebt {
        return false;
      }
      ok := EndReservation(h, cause, now);
    }

    method EndReservation(h: Handle, cause: TerminalCause, now: Time) returns (ok: bool)
      requires Typed(state) && cause != UnknownCause
      requires Addresses(state, h) && state.reservations[h.id].phase != ResidualDebt
      modifies this
      ensures Typed(state) && (state, ok) == C.Terminate(old(state), h, cause, now)
    {
      var item := state.reservations[h.id];
      var remove := RemovedAtEnd(item, cause);
      var nextOverlay := OverlayAfterEnd(state.overlay, item, remove);
      if nextOverlay.None? {
        FailClosed(ReasonControllerUnavailable);
        return false;
      }
      var sequence := NextEventSequence();
      if sequence.None? {
        return false;
      }
      var counts := ExposureCounts(item);
      if counts.None? {
        FailClosed(ReasonControllerUnavailable);
        return false;
      }
      var (ledger, removed) := ExposureAfterEnd(state.exposure, now, counts.value);
      if !removed {
        FailClosed(ReasonControllerUnavailable);
        return false;
      }
      state := state.(exposure := ledger, overlay := nextOverlay.value,
                      reservations := if remove then state.reservations - {h.id}
                                      else state.reservations[h.id := item.(phase := ResidualDebt, terminalSequence := sequence.value)]);
      return true;
    }

    /** The overlay loop; `order` is the order in which the map iteration turned out to go. */
    method ReconciledOverlay(p: Pass) returns (result: Option<(Overlay, int)>, ghost order: seq<nat>)
      requires p.lease == state.leaseDuration
      ensures IterationOrder(order, state.reservations)
      ensures result == C.ReconciledOverlay(order, state, p.watermark, p.observation, p.at)
      ensures BooksOk(state) ==>
                result == Some((OverlayOf(AfterPass(state.reservations, p)),
                                Total(state.reservations, CountedBy(p.watermark))))
    {
      var rs := state.reservations;
      var total := (state.overlay, 0);
      var remaining := rs.Keys;
      order := [];
      while remaining != {}
        invariant Visits(order, rs, remaining)
        invariant Some(total) == C.ReconciledOverlay(order, state, p.watermark, p.observation, p.at)
        decreases |remaining|
      {
        var id :| id in remaining;
        VisitsStep(order, rs, remaining, id);
        order := order + [id];
        var turn := ReconcileItem(rs[id], total, p.watermark, p.observation, p.at, p.lease);
        remaining := remaining - {id};
        if turn.None? {
          ghost var rest := AnyOrder(remaining);
          VisitsRest(order, rs, remaining);
          FailureStays(order, rest, state, p);
          order := order + rest;
          OrderMeaning(order, state, p);
          return None, order;
        }
        total := turn.value;
      }
      OrderMeaning(order, state, p);
      return Some(total), order;
    }

    /** The second loop deletes and rewrites map entries while iterating over them. */
    method ApplyReconciliation(p: Pass)
      requires Typed(state) && p.lease == state.leaseDuration
      modifies this
      ensures Typed(state) && state == old(state).(reservations := AfterPass(old(state).reservations, p))
    {
      ghost var rs := state.reservations;
      var remaining := state.reservations.Keys;
      NoneSeen(rs, p);
      assert rs.Keys - remaining == {};
      while remaining != {}
        invariant remaining <= rs.Keys
        invariant state == old(state).(reservations := Partly(rs, rs.Keys - remaining, p))
        decreases |remaining|
      {
        var id :| id in remaining;
        PartlyStep(rs, rs.Keys - remaining, id, p);
        assert rs.Keys - (remaining - {id}) == rs.Keys - remaining + {id};
        var item := state.reservations[id];
        var next := Left(item, p);
        if next.None? {
          state := state.(reservations := state.reservations - {id});
        } else {
          SameItem(state.reservations, id);
          if next.value != item {
            state := state.(reservations := state.reservations[id := next.value]);
          }
        }
        remaining := remaining - {id};
      }
      AllSeen(rs, rs.Keys - remaining, p);
    }

    method PublishObservation(w: SampleWindow, o: Observation, now: Time)
        returns (result: PublicationResult, ghost order: seq<nat>)
      requires Valid()
      modifies this
      ensures Valid() && IterationOrder(order, old(state).reservations)
      ensures (state, result) == C.Publish(old(state), order, w, o, now)
    {
      forall any | IterationOrder(any, state.reservations)
        ensures BooksSound(C.Publish(state, any, w, o, now).0)
      {
        PublishKeepsBooks(state, any, w, o, now);
      }
      order := AnyOrder(state.reservations.Keys);
      if state.closedReason.Some? {
        return Rejected(state, state.closedReason.value), order;
      }
      if !WindowCurrent(state, w) || w.id == 0 || !ValidObservation(o) {
        return Rejected(state, ReasonObservationInvalid), order;
      }
      if o.runtimeIdentity != state.runtimeIdentity {
        FailClosed(ReasonRuntimeIdentityDrift);
        return PublicationResult(false, false, true, ReasonRuntimeIdentityDrift, 0, state.runtimeEpoch), order;
      }
      if GoesBack(state, o) {
        return Rejected(state, ReasonObservationInvalid), order;
      }
      if state.observationSequence == MAX_UINT64 {
        FailClosed(ReasonCounterOverflow);
        return Rejected(state, ReasonCounterOverflow), order;
      }
      if RuntimeReset(state, o) {
        result := PublishReset(o);
      } else {
        result, order := PublishSample(w, o, now);
      }
    }

    /** The end of every accepted publication. */
    method AcceptObservation(reset: bool, observed: ObservedState) returns (result: PublicationResult)
      requires Typed(state) && observed.sequence == state.observationSequence + 1
      modifies this
      ensures Typed(state) && (state, result) == C.Accept(old(state), reset, observed)
    {
      state := state.(observationSequence := state.observationSequence + 1);
      state := state.(observation := Some(observed));
      return PublicationResult(true, reset, false, ReasonOpen, state.observationSequence, state.runtimeEpoch);
    }

    method PublishReset(o: Observation) returns (result: PublicationResult)
      requires Typed(state)
      modifies this
      ensures Typed(state) && (state, result) == C.PublishReset(old(state), o)
    {
      if state.runtimeEpoch == MAX_UINT64 {
        FailClosed(ReasonCounterOverflow);
        return Rejected(state, ReasonCounterOverflow);
      }
      state := state.(runtimeEpoch := state.runtimeEpoch + 1);
      state := state.(reservations := map[], overlay := NO_OVERLAY);
      state := state.(sampleSequence := 0, lastPublishedSample := 0);
      state := state.(lastExposure := ZERO_SNAPSHOT, exposure := EMPTY_LEDGER);
      state := state.(tpsWindow := TW.ResetWindow(state.tpsWindow));
      result := AcceptObservation(true, ObservedState(o, state.observationSequence + 1, 0, 0, 0, 0, 0));
    }

    method PublishSample(w: SampleWindow, o: Observation, now: Time)
        returns (result: PublicationResult, ghost order: seq<nat>)
      requires Typed(state)
      modifies this
      ensures Typed(state) && IterationOrder(order, old(state).reservations)
      ensures (state, result) == C.PublishSample(old(state), order, w, o, now)
    {
      var observed := Since(state, o);
      var exposure := SubtractSnapshot(w.exposure, state.lastExposure);
      if exposure.None? {
        order := AnyOrder(state.reservations.Keys);
        FailClosed(ReasonControllerUnavailable);
        return Rejected(state, ReasonControllerUnavailable), order;
      }
      var p := Pass(w.eventSequence, o, now, state.leaseDuration);
      var next;
      next, order := ReconciledOverlay(p);
      if next.None? {
        FailClosed(ReasonControllerUnavailable);
        return Rejected(state, ReasonControllerUnavailable), order;
      }
      ApplyReconciliation(p);
      state := state.(overlay := next.value.0, lastPublishedSample := w.id, lastExposure := w.exposure);
      if state.observation.Some? && w.tpsPolicyEpoch == state.tpsPolicyEpoch && TW.Enabled(state.tpsWindow) {
        var (window, ok) := TW.Observe(state.tpsWindow, SampleOf(state, o, exposure.value, next.value.1));
        state := state.(tpsWindow := window);
        if !ok {
          FailClosed(ReasonCounterOverflow);
          return Rejected(state, ReasonCounterOverflow), order;
        }
      }
      result := AcceptObservation(false, observed);
    }

    method UpdatePolicy(u: PolicyUpdate) returns (result: UpdateResult)
      requires Valid()
      modifies this
      ensures Valid() && (state, result) == C.UpdatePolicy(old(state), u)
    {
      UpdateKeepsBooks(state, u);
      var current := PolicyOf(state);
      if !ValidUpdate(u) {
        return UpdateResult(current, current, false, Some(PolicyInvalid));
      }
      if state.closedReason.Some? || state.policyRevision == MAX_UINT64 {
        return UpdateResult(current, current, false, Some(PolicyUnavailable));
      }
      if u.expectedRevision != state.policyRevision {
        return UpdateResult(current, current, false, Some(PolicyRevisionConflict));
      }
      var reference := Or(u.reference, current.reference);
      var reset := reference != current.reference;
      state := state.(policyRevision := state.policyRevision + 1, policyUpdatedAt := u.updatedAt);
      state := state.(windowConcurrency := Or(u.windowConcurrency, current.windowConcurrency));
      if u.runningLimit.Some? {
        state := state.(runningLimit := u.runningLimit.value, runningLimitSource := LimitAdmin);
      }
      state := state.(waitingAllowance := Or(u.waitingAllowance, current.waitingAllowance));
      if reset {
        state := state.(tpsPolicyEpoch := state.tpsPolicyEpoch + 1, tpsWindow := TW.NewWindow(reference));
      }
      return UpdateResult(PolicyOf(state), current, reset, None);
    }

    /** The reference for the incremental overlay: add every contribution up again. It never refuses and
        returns the very overlay the controller holds. */
    method SlowOverlay() returns (total: Option<Overlay>)
      requires Valid()
      ensures total == Some(state.overlay)
    {
      var rs := state.reservations;
      var sum := NO_OVERLAY;
      var remaining := rs.Keys;
      NothingAdded(rs);
      while remaining != {}
        invariant remaining <= rs.Keys
        invariant sum == OverlayOf(rs - remaining)
        decreases |remaining|
      {
        var id :| id in remaining;
        WellFormedBooks(state);
        ScanStep(rs, remaining, id);
        var contribution := Contribution(rs[id]);
        if contribution.None? {
          return None;
        }
        var next := AddOverlay(sum, contribution.value);
        if next.None? {
          return None;
        }
        sum := next.value;
        remaining := remaining - {id};
      }
      RemoveNothing(rs, remaining);
      return Some(sum);
    }
  }
}
