/** The books alone: whatever the clock reads and whichever windows are shown, every call leaves the
    overlay equal to the from-scratch sum of the reservations held. */
module ControllerBooks {
  import opened Machine
  import opened Totals
  import opened Policy
  import opened Reservations
  import opened Controller
  import opened ControllerSound
  import opened ControllerEffects
  import opened Reconciliation
  import opened PublicationEffects
  import opened ControllerSteps

  ghost predicate BooksSound(s: State) {
    1 <= s.runtimeEpoch && BooksOk(s)
  }

  /** Nothing is held: so after a close and after a restart. */
  lemma EmptyBooks(s: State)
    requires s.reservations == map[] && s.overlay == NO_OVERLAY && 1 <= s.runtimeEpoch
    ensures BooksSound(s)
  {
  }

  lemma CloseKeepsBooks(s: State, reason: Reason)
    requires BooksSound(s)
    ensures BooksSound(FailClosed(s, reason))
  {
    if s.closedReason.None? { EmptyBooks(FailClosed(s, reason)); }
  }

  predicate SameFrame(s: State, s': State) {
    && s'.reservations == s.reservations && s'.overlay == s.overlay && s'.gate == s.gate
    && s'.runtimeEpoch == s.runtimeEpoch && s'.nextReservationID == s.nextReservationID
    && s.eventSequence <= s'.eventSequence
  }

  lemma FrameKeepsBooks(s: State, s': State)
    requires BooksSound(s) && SameFrame(s, s')
    ensures BooksSound(s')
  {
    forall id | id in s'.reservations ensures Held(s', id, s'.reservations[id]) {
      assert Held(s, id, s.reservations[id]);
    }
  }

  lemma StartKeepsBooks(s: State, now: Time)
    requires Typed(s) && BooksSound(s)
    ensures BooksSound(StartSampleWindow(s, now).0)
  {
    var taken := s.(exposure := Exposure.Snapshot(s.exposure, now).0);
    FrameKeepsBooks(s, taken);
    FrameKeepsBooks(s, taken.(sampleSequence := s.sampleSequence + 1));
    CloseKeepsBooks(s, ReasonCounterOverflow);
    CloseKeepsBooks(taken, ReasonControllerUnavailable);
  }

  /** With sound books an admission is refused, exhausts a resource, or takes exactly one reservation. */
  lemma AdmitKeepsBooks(s: State, at: Time, d: Demand)
    requires BooksSound(s)
    ensures var (s', r) := Admit(s, at, d); BooksSound(s') && AdmitRel(s, at, d, s', r)
  {
    if PolicyAdmits(s, at, d) {
      BooksBounds(s);
      var state := StateAt(s, at).0;
      ReserveEffect(s, d, state, EvaluateDemand(s.gate, state, d, BoundsOf(s)));
      if AdmissionExhausted(s, d) {
        CloseKeepsBooks(s, ReasonResourceExhausted);
        CloseKeepsBooks(s, ReasonCounterOverflow);
      } else {
        NewItemContributes(s, d);
        BooksInsert(s, Admit(s, at, d).0, s.nextReservationID + 1, NewItem(s, d));
      }
    }
  }

  lemma ForwardChangesBooks(s: State, id: nat, now: Time, s': State)
    requires BooksSound(s) && id in s.reservations && s.reservations[id].phase == Reserved
    requires Changes(s, id, ForwardedItem(s, id, now), s') && s'.overlay == s.overlay
    ensures BooksSound(s')
  {
    assert Held(s, id, s.reservations[id]);
    BooksReplace(s, s', id, ForwardedItem(s, id, now));
  }

  lemma ForwardKeepsBooks(s: State, h: Handle, now: Time)
    requires Typed(s) && BooksSound(s)
    ensures BooksSound(MarkForwarded(s, h, now).0)
  {
    var (s', ok) := MarkForwarded(s, h, now);
    var sequenced := s.(eventSequence := s.eventSequence + 1);
    FrameKeepsBooks(s, sequenced);
    CloseKeepsBooks(s, ReasonCounterOverflow);
    CloseKeepsBooks(sequenced, ReasonControllerUnavailable);
    if ok {
      ForwardChangesBooks(s, h.id, now, s');
    }
  }

  lemma ReplaceChangesBooks(s: State, id: nat, r: Reservation, s': State)
    requires BooksSound(s) && id in s.reservations && Changes(s, id, r, s') && Held(s', id, r)
    requires r.demand.decodeSequences == s.reservations[id].demand.decodeSequences
    requires Some(s'.overlay) == Replacement(s.overlay, s.reservations[id], r)
    ensures BooksSound(s')
  {
    if s'.overlay == s.overlay { ReplacementShows(s, id, r); }
    BooksReplace(s, s', id, r);
  }

  lemma AnswerKeepsBooks(s: State, h: Handle, now: Time)
    requires Typed(s) && BooksSound(s)
    ensures BooksSound(MarkFirstByte(s, h, now).0)
  {
    var (s', ok) := MarkFirstByte(s, h, now);
    var sequenced := s.(eventSequence := s.eventSequence + 1);
    FrameKeepsBooks(s, sequenced);
    CloseKeepsBooks(s, ReasonCounterOverflow);
    CloseKeepsBooks(s, ReasonControllerUnavailable);
    CloseKeepsBooks(sequenced, ReasonControllerUnavailable);
    if ok {
      assert Held(s, h.id, s.reservations[h.id]);
      ReplaceChangesBooks(s, h.id, AnsweredItem(s, h.id), s');
    }
  }

  lemma EndChangesBooks(s: State, id: nat, s': State)
    requires BooksSound(s) && id in s.reservations && s.reservations[id].phase != ResidualDebt
    requires s.reservations[id].phase != Reserved && Changes(s, id, DebtItem(s, id), s')
    requires Some(s'.overlay) == Replacement(s.overlay, s.reservations[id], DebtItem(s, id))
    ensures BooksSound(s')
  {
    assert Held(s, id, s.reservations[id]);
    ReplaceChangesBooks(s, id, DebtItem(s, id), s');
  }

  lemma EndKeepsBooks(s: State, h: Handle, cause: TerminalCause, now: Time)
    requires Typed(s) && BooksSound(s)
    ensures BooksSound(Terminate(s, h, cause, now).0)
  {
    var (s', ok) := Terminate(s, h, cause, now);
    var sequenced := s.(eventSequence := s.eventSequence + 1);
    FrameKeepsBooks(s, sequenced);
    CloseKeepsBooks(s, ReasonCounterOverflow);
    CloseKeepsBooks(s, ReasonControllerUnavailable);
    CloseKeepsBooks(sequenced, ReasonControllerUnavailable);
    if ok {
      RemovalSubtracts(s, h.id);
      DebtReplaces(s, h.id);
      if RemovedAtEnd(s.reservations[h.id], cause) {
        BooksDrop(s, s', h.id);
      } else {
        EndChangesBooks(s, h.id, s');
      }
    }
  }

  /** A sample either closes the controller or leaves exactly what reconciliation made of the books. */
  lemma SampleFrame(s: State, order: seq<nat>, w: SampleWindow, o: Observation, now: Time, reconciled: State, liabilities: int)
    requires Typed(s) && forall i :: 0 <= i < |order| ==> order[i] in s.reservations
    requires reconciled == s.(reservations := AfterPass(s.reservations, PassOf(s, w, o, now)), overlay := reconciled.overlay)
    requires ReconciledOverlay(order, s, w.eventSequence, o, now) == Some((reconciled.overlay, liabilities))
    ensures var s' := PublishSample(s, order, w, o, now).0;
            || s' == FailClosed(s, ReasonControllerUnavailable)
            || (s'.reservations == map[] && s'.overlay == NO_OVERLAY && s.runtimeEpoch <= s'.runtimeEpoch)
            || SameFrame(reconciled, s')
  {
  }

  /** Whatever order the iteration takes, an accepted sample leaves the sum of what remains. */
  lemma SampleKeepsBooks(s: State, order: seq<nat>, w: SampleWindow, o: Observation, now: Time)
    requires Typed(s) && BooksSound(s) && IterationOrder(order, s.reservations)
    ensures BooksSound(PublishSample(s, order, w, o, now).0)
  {
    var p := PassOf(s, w, o, now);
    OrderIrrelevant(order, s, p);
    var reconciled := s.(reservations := AfterPass(s.reservations, p), overlay := OverlayOf(AfterPass(s.reservations, p)));
    PassHeld(s, reconciled, p);
    assert BooksSound(reconciled);
    SampleFrame(s, order, w, o, now, reconciled, Total(s.reservations, CountedBy(w.eventSequence)));
    CloseKeepsBooks(s, ReasonControllerUnavailable);
    var s' := PublishSample(s, order, w, o, now).0;
    if SameFrame(reconciled, s') {
      FrameKeepsBooks(reconciled, s');
    } else if s' != FailClosed(s, ReasonControllerUnavailable) {
      EmptyBooks(s');
    }
  }

  lemma PublishKeepsBooks(s: State, order: seq<nat>, w: SampleWindow, o: Observation, now: Time)
    requires Typed(s) && BooksSound(s) && IterationOrder(order, s.reservations)
    ensures BooksSound(Publish(s, order, w, o, now).0)
  {
    CloseKeepsBooks(s, ReasonRuntimeIdentityDrift);
    CloseKeepsBooks(s, ReasonCounterOverflow);
    SampleKeepsBooks(s, order, w, o, now);
    if RuntimeReset(s, o) && s.runtimeEpoch != MAX_UINT64 {
      EmptyBooks(PublishReset(s, o).0);
    }
  }

  lemma UpdateKeepsBooks(s: State, u: PolicyUpdate)
    requires BooksSound(s)
    ensures BooksSound(UpdatePolicy(s, u).0)
  {
    FrameKeepsBooks(s, UpdatePolicy(s, u).0);
  }
}
