/** Every call keeps the controller sound. */
module ControllerSteps {
  import opened Machine
  import opened Totals
  import opened Exposure
  import TW = TpsWindow
  import opened Policy
  import opened Reservations
  import opened Controller
  import opened ControllerRun
  import opened ControllerSound
  import opened ControllerEffects
  import opened Reconciliation
  import opened PublicationEffects

  /** The history after a call: the clock moved on, and no window was issued. */
  ghost predicate Follows(h: History, now: Time, h': History) {
    h'.start == h.start && h'.clock == now && h'.marks.issued == h.marks.issued &&
    Reading(h.start, now) && h.clock <= now
  }

  lemma SoundParts(s: State, h: History)
    requires Typed(s) && IssuedOk(s, h) && ClockOk(h) && s.closedReason.None?
    requires CountersOk(s) && BooksOk(s) && LedgerOk(s, h) && WindowsOk(s, h) && RingSound(s) && ObservationOk(s)
    ensures Sound(s, h)
  {
  }

  lemma ClosedSound(s: State, h: History, reason: Reason, now: Time, h': History)
    requires Sound(s, h) && s.closedReason.None? && Follows(h, now, h')
    ensures Sound(FailClosed(s, reason), h')
  {
  }

  /** A call that changes nothing keeps the state sound at the later clock reading. */
  lemma IdleSound(s: State, h: History, now: Time, h': History)
    requires Sound(s, h) && Follows(h, now, h')
    requires s.closedReason.None? ==> h'.epoch == h.epoch
    ensures Sound(s, h')
  {
    if s.closedReason.None? {
      LedgerKeep(s, h, s, h');
      WindowsKeep(s, h, s, h');
      SoundParts(s, h');
    }
  }

  // ---------- admission ----------

  lemma AdmitBooks(s: State, d: Demand, s': State)
    requires CountersOk(s) && BooksOk(s) && ValidDemand(d) && d.decodeSequences <= MAX_INT64
    requires Reserves(s, d, s')
    ensures BooksOk(s') && s.nextReservationID + 1 !in s.reservations
  {
    NewItemContributes(s, d);
    BooksInsert(s, s', s.nextReservationID + 1, NewItem(s, d));
  }

  lemma AdmitLedger(s: State, h: History, s': State, h': History, id: nat, r: Reservation)
    requires LedgerOk(s, h) && id == s.nextReservationID + 1 && id !in s.reservations
    requires s'.reservations == s.reservations[id := r] && r.phase == Reserved && s'.nextReservationID == id
    requires s'.exposure == s.exposure && h'.epoch.lives == h.epoch.lives
    requires h'.start == h.start && h.clock <= h'.clock
    ensures LedgerOk(s', h')
  {
    TotalInsert(s.reservations, Holding, id, r);
  }

  lemma ReservesSound(s: State, h: History, d: Demand, s': State, now: Time, h': History)
    requires Sound(s, h) && s.closedReason.None? && Follows(h, now, h') && h'.epoch == h.epoch
    requires ValidDemand(d) && !AdmissionExhausted(s, d) && Reserves(s, d, s')
    ensures Sound(s', h')
  {
    BooksBounds(s);
    AdmitBooks(s, d, s');
    AdmitLedger(s, h, s', h', s.nextReservationID + 1, NewItem(s, d));
    WindowsKeep(s, h, s', h');
    SoundParts(s', h');
  }

  lemma AdmitSound(s: State, h: History, at: Time, d: Demand, s': State, r: AdmissionResult, now: Time, h': History)
    requires Sound(s, h) && Follows(h, now, h') && AdmitRel(s, at, d, s', r)
    requires h'.epoch == if EpochOver(s, s') then NEW_EPOCH else h.epoch
    ensures Sound(s', h')
  {
    if !PolicyAdmits(s, at, d) {
      IdleSound(s, h, now, h');
    } else if AdmissionExhausted(s, d) {
      ClosedSound(s, h, s'.closedReason.value, now, h');
    } else {
      ReservesSound(s, h, d, s', now, h');
    }
  }

  // ---------- one reservation changes phase ----------

  /** The remembered lifetime starts, first answers or ends now. */
  predicate LifeEvent(lives: map<nat, Lifetime>, id: nat, life: Lifetime, now: Time) {
    if id in lives then
      (life == lives[id].(firstByteAt := Some(now)) && lives[id].firstByteAt.None?) ||
      (life == lives[id].(endedAt := Some(now)) && lives[id].endedAt.None?)
    else
      life == Lifetime(life.sequences, now, None, None)
  }

  /** Windows stay exact when one lifetime changes at the current instant. */
  lemma WindowsAfterLife(s: State, h: History, s': State, h': History, id: nat, life: Lifetime, now: Time)
    requires WindowsOk(s, h) && NotBefore(s.exposure, now)
    requires s'.runtimeEpoch == s.runtimeEpoch && s'.sampleSequence == s.sampleSequence
    requires s'.eventSequence >= s.eventSequence
    requires s'.lastPublishedSample == s.lastPublishedSample && s'.lastExposure == s.lastExposure
    requires s'.exposure.initialized && s'.exposure.lastEventAt == now
    requires h'.epoch == h.epoch.(lives := h.epoch.lives[id := life], ended := h'.epoch.ended)
    requires LifeEvent(h.epoch.lives, id, life, now)
    ensures WindowsOk(s', h')
  {
    forall k | k in h.epoch.windows ensures SameTotals(h.epoch.lives, h'.epoch.lives, h.epoch.windows[k].at) {
      assert ExactWindow(s, h, k, h.epoch.windows[k]);
      LaterEventKeepsTotals(h.epoch.lives, id, life, h.epoch.windows[k].at, now);
    }
    WindowsKeep(s, h, s', h');
  }

  /** The ledger invariant after a phase change, given that the ledger still integrates the lifetimes. */
  lemma LedgerAfterChange(s: State, h: History, id: nat, r: Reservation, life: Lifetime, s': State, h': History)
    requires LedgerOk(s, h) && id in s.reservations && id <= s.nextReservationID
    requires Changes(s, id, r, s')
    requires h'.epoch.lives == h.epoch.lives[id := life] && Remembered(h'.epoch.lives, id, r)
    requires Integrates(s'.exposure, h'.epoch.lives, h'.start) && NotBefore(s'.exposure, h'.clock)
    requires s'.exposure.activeForwarded == s.exposure.activeForwarded - Holding(s.reservations[id]) + Holding(r)
    ensures LedgerOk(s', h')
  {
    TotalUpdate(s.reservations, Holding, id, r);
    forall k | k in s'.reservations ensures Remembered(h'.epoch.lives, k, s'.reservations[k]) {
      if k != id { assert Remembered(h.epoch.lives, k, s.reservations[k]); }
    }
  }

  lemma ChangeSound(s: State, h: History, id: nat, r: Reservation, life: Lifetime, now: Time, s': State, h': History)
    requires Sound(s, h) && s.closedReason.None? && Follows(h, now, h') && s.eventSequence < MAX_UINT64
    requires id in s.reservations && Changes(s, id, r, s') && Held(s', id, r)
    requires r.demand.decodeSequences == s.reservations[id].demand.decodeSequences
    requires s'.overlay == s.overlay ==> Contribution(r) == Contribution(s.reservations[id])
    requires s'.overlay != s.overlay ==> Some(s'.overlay) == Replacement(s.overlay, s.reservations[id], r)
    requires s'.exposure.initialized && s'.exposure.lastEventAt == now
    requires h'.epoch == h.epoch.(lives := h.epoch.lives[id := life], ended := h'.epoch.ended)
    requires LifeEvent(h.epoch.lives, id, life, now)
    requires LedgerOk(s', h')
    ensures Sound(s', h')
  {
    BooksReplace(s, s', id, r);
    WindowsAfterLife(s, h, s', h', id, life, now);
    SoundParts(s', h');
  }

  lemma ForwardParts(s: State, h: History, id: nat, now: Time, s': State, h': History)
    requires Typed(s) && BooksOk(s) && LedgerOk(s, h) && Reading(h.start, now) && h.clock <= now
    requires h'.start == h.start && h'.clock == now && s.eventSequence < MAX_UINT64
    requires id in s.reservations && s.reservations[id].phase == Reserved
    requires Changes(s, id, ForwardedItem(s, id, now), s')
    requires s'.exposure == AddForwarded(s.exposure, now, s.reservations[id].demand.decodeSequences).0
    requires h'.epoch.lives == h.epoch.lives[id := Lifetime(s.reservations[id].demand.decodeSequences, now, None, None)]
    ensures LedgerOk(s', h') && s'.exposure.initialized && s'.exposure.lastEventAt == now
    ensures Held(s', id, ForwardedItem(s, id, now)) && id !in h.epoch.lives
    ensures Contribution(ForwardedItem(s, id, now)) == Contribution(s.reservations[id])
  {
    ForwardFits(s, h, id, now);
    assert Held(s, id, s.reservations[id]);
    LedgerAfterChange(s, h, id, ForwardedItem(s, id, now),
                      Lifetime(s.reservations[id].demand.decodeSequences, now, None, None), s', h');
  }

  lemma ForwardSound(s: State, h: History, handle: Handle, now: Time, s': State, ok: bool, h': History)
    requires Sound(s, h) && Follows(h, now, h') && ForwardRel(s, handle, now, s', ok)
    requires h'.epoch == if EpochOver(s, s') then NEW_EPOCH
                         else if ok then h.epoch.(lives := h.epoch.lives[handle.id :=
                                Lifetime(s.reservations[handle.id].demand.decodeSequences, now, None, None)])
                         else h.epoch
    ensures Sound(s', h')
  {
    if !Forwardable(s, handle) {
      IdleSound(s, h, now, h');
    } else if s.eventSequence == MAX_UINT64 {
      ClosedSound(s, h, ReasonCounterOverflow, now, h');
    } else {
      var id := handle.id;
      ForwardParts(s, h, id, now, s', h');
      ChangeSound(s, h, id, ForwardedItem(s, id, now),
                  Lifetime(s.reservations[id].demand.decodeSequences, now, None, None), now, s', h');
    }
  }

  /** An overlay that the replacement leaves as it was means the contribution did not change. */
  lemma ReplacementShows(s: State, id: nat, r: Reservation)
    requires id in s.reservations && Replacement(s.overlay, s.reservations[id], r) == Some(s.overlay)
    ensures Contribution(r) == Contribution(s.reservations[id])
  {
  }

  lemma AnswerParts(s: State, h: History, id: nat, now: Time, s': State, h': History)
    requires Typed(s) && BooksOk(s) && LedgerOk(s, h) && Reading(h.start, now) && h.clock <= now
    requires h'.start == h.start && h'.clock == now && s.eventSequence < MAX_UINT64
    requires id in s.reservations && s.reservations[id].phase == Forwarded
    requires Changes(s, id, AnsweredItem(s, id), s')
    requires Some(s'.overlay) == Replacement(s.overlay, s.reservations[id], AnsweredItem(s, id))
    requires s'.exposure == AddResponse(s.exposure, now, 1).0
    requires id in h.epoch.lives ==> h'.epoch.lives == h.epoch.lives[id := h.epoch.lives[id].(firstByteAt := Some(now))]
    ensures LedgerOk(s', h') && s'.exposure.initialized && s'.exposure.lastEventAt == now
    ensures Held(s', id, AnsweredItem(s, id)) && id in h.epoch.lives && h.epoch.lives[id].firstByteAt.None?
    ensures s'.overlay == s.overlay ==> Contribution(AnsweredItem(s, id)) == Contribution(s.reservations[id])
  {
    AnswerFits(s, h, id, now);
    assert Held(s, id, s.reservations[id]);
    assert Remembered(h.epoch.lives, id, s.reservations[id]);
    LedgerAfterChange(s, h, id, AnsweredItem(s, id), h.epoch.lives[id].(firstByteAt := Some(now)), s', h');
    if s'.overlay == s.overlay { ReplacementShows(s, id, AnsweredItem(s, id)); }
  }

  lemma AnswerSound(s: State, h: History, handle: Handle, now: Time, s': State, ok: bool, h': History)
    requires Sound(s, h) && Follows(h, now, h') && AnswerRel(s, handle, now, s', ok)
    requires h'.epoch == if EpochOver(s, s') then NEW_EPOCH
                         else if ok && handle.id in h.epoch.lives then
                           h.epoch.(lives := h.epoch.lives[handle.id := h.epoch.lives[handle.id].(firstByteAt := Some(now))])
                         else h.epoch
    ensures Sound(s', h')
  {
    if !Answerable(s, handle) {
      IdleSound(s, h, now, h');
    } else if s.eventSequence == MAX_UINT64 {
      ClosedSound(s, h, ReasonCounterOverflow, now, h');
    } else {
      var id := handle.id;
      AnswerParts(s, h, id, now, s', h');
      ChangeSound(s, h, id, AnsweredItem(s, id), h.epoch.lives[id].(firstByteAt := Some(now)), now, s', h');
    }
  }

  // ---------- the end ----------

  /** Taking a reservation away keeps the books. */
  lemma BooksDrop(s: State, s': State, id: nat)
    requires BooksOk(s) && id in s.reservations && Drops(s, id, s')
    requires Contribution(s.reservations[id]).Some?
    requires Some(s'.overlay) == SubtractOverlay(s.overlay, Contribution(s.reservations[id]).value)
    ensures BooksOk(s')
  {
    WellFormedBooks(s);
    DropReservation(s.reservations, id);
    forall k | k in s'.reservations ensures Held(s', k, s'.reservations[k]) {
      assert Held(s, k, s.reservations[k]);
    }
  }

  lemma LedgerAfterDrop(s: State, h: History, id: nat, s': State, h': History)
    requires LedgerOk(s, h) && id in s.reservations && id <= s.nextReservationID && Drops(s, id, s')
    requires forall k :: k != id ==> (k in h'.epoch.lives <==> k in h.epoch.lives)
    requires forall k :: k in h.epoch.lives && k != id ==> h'.epoch.lives[k] == h.epoch.lives[k]
    requires Integrates(s'.exposure, h'.epoch.lives, h'.start) && NotBefore(s'.exposure, h'.clock)
    requires s'.exposure.activeForwarded == s.exposure.activeForwarded - Holding(s.reservations[id])
    ensures LedgerOk(s', h')
  {
    TotalSplit(s.reservations, Holding, id);
    forall k | k in s'.reservations ensures Remembered(h'.epoch.lives, k, s'.reservations[k]) {
      assert Remembered(h.epoch.lives, k, s.reservations[k]);
    }
  }

  /** What is remembered of the lifetimes when request `id` ends. */
  function LivesAtEnd(lives: map<nat, Lifetime>, id: nat, now: Time): map<nat, Lifetime> {
    if id in lives then lives[id := lives[id].(endedAt := Some(now))] else lives
  }

  lemma DropReservedSound(s: State, h: History, id: nat, now: Time, s': State, h': History)
    requires Sound(s, h) && s.closedReason.None? && Follows(h, now, h') && s.eventSequence < MAX_UINT64
    requires id in s.reservations && s.reservations[id].phase == Reserved && Drops(s, id, s')
    requires s'.exposure == s.exposure && Contribution(s.reservations[id]).Some?
    requires Some(s'.overlay) == SubtractOverlay(s.overlay, Contribution(s.reservations[id]).value)
    requires h'.epoch == h.epoch.(lives := LivesAtEnd(h.epoch.lives, id, now), ended := h'.epoch.ended)
    ensures Sound(s', h')
  {
    assert Held(s, id, s.reservations[id]);
    assert Remembered(h.epoch.lives, id, s.reservations[id]);
    BooksDrop(s, s', id);
    LedgerAfterDrop(s, h, id, s', h');
    WindowsKeep(s, h, s', h');
    SoundParts(s', h');
  }

  lemma DropActiveParts(s: State, h: History, id: nat, now: Time, s': State, h': History)
    requires Typed(s) && BooksOk(s) && LedgerOk(s, h) && Reading(h.start, now) && h.clock <= now
    requires h'.start == h.start && h'.clock == now
    requires id in s.reservations && s.reservations[id].phase == ActiveDecode && Drops(s, id, s')
    requires s'.exposure == LedgerAtEnd(s, id, now)
    requires h'.epoch.lives == LivesAtEnd(h.epoch.lives, id, now)
    ensures LedgerOk(s', h') && s'.exposure.initialized && s'.exposure.lastEventAt == now
    ensures id in h.epoch.lives && h.epoch.lives[id].endedAt.None?
  {
    assert Held(s, id, s.reservations[id]);
    EndFits(s, h, id, now);
    LedgerAfterDrop(s, h, id, s', h');
  }

  lemma DropActiveSound(s: State, h: History, id: nat, now: Time, s': State, h': History)
    requires Sound(s, h) && s.closedReason.None? && Follows(h, now, h') && s.eventSequence < MAX_UINT64
    requires id in s.reservations && s.reservations[id].phase == ActiveDecode && Drops(s, id, s')
    requires s'.exposure == LedgerAtEnd(s, id, now) && Contribution(s.reservations[id]).Some?
    requires Some(s'.overlay) == SubtractOverlay(s.overlay, Contribution(s.reservations[id]).value)
    requires h'.epoch == h.epoch.(lives := LivesAtEnd(h.epoch.lives, id, now), ended := h'.epoch.ended)
    ensures Sound(s', h')
  {
    DropActiveParts(s, h, id, now, s', h');
    BooksDrop(s, s', id);
    WindowsAfterLife(s, h, s', h', id, h.epoch.lives[id].(endedAt := Some(now)), now);
    SoundParts(s', h');
  }

  /** Turning a live request into a debt always shows in the overlay. */
  lemma DebtCounts(s: State, id: nat)
    requires id in s.reservations && s.reservations[id].phase != ResidualDebt
    requires Replacement(s.overlay, s.reservations[id], DebtItem(s, id)).Some?
    ensures Replacement(s.overlay, s.reservations[id], DebtItem(s, id)).value.residualDebts == s.overlay.residualDebts + 1
  {
  }

  lemma DebtParts(s: State, h: History, id: nat, now: Time, s': State, h': History)
    requires Typed(s) && BooksOk(s) && LedgerOk(s, h) && Reading(h.start, now) && h.clock <= now
    requires h'.start == h.start && h'.clock == now && s.eventSequence < MAX_UINT64
    requires id in s.reservations && (s.reservations[id].phase == Forwarded || s.reservations[id].phase == ActiveDecode)
    requires Changes(s, id, DebtItem(s, id), s') && s'.exposure == LedgerAtEnd(s, id, now)
    requires Some(s'.overlay) == Replacement(s.overlay, s.reservations[id], DebtItem(s, id))
    requires h'.epoch.lives == LivesAtEnd(h.epoch.lives, id, now)
    ensures LedgerOk(s', h') && s'.exposure.initialized && s'.exposure.lastEventAt == now
    ensures id in h.epoch.lives && h.epoch.lives[id].endedAt.None?
    ensures Held(s', id, DebtItem(s, id))
    ensures s'.overlay != s.overlay
  {
    assert Held(s, id, s.reservations[id]);
    EndFits(s, h, id, now);
    LedgerAfterChange(s, h, id, DebtItem(s, id), h.epoch.lives[id].(endedAt := Some(now)), s', h');
    DebtCounts(s, id);
  }

  lemma DebtSound(s: State, h: History, id: nat, now: Time, s': State, h': History)
    requires Sound(s, h) && s.closedReason.None? && Follows(h, now, h') && s.eventSequence < MAX_UINT64
    requires id in s.reservations && (s.reservations[id].phase == Forwarded || s.reservations[id].phase == ActiveDecode)
    requires Changes(s, id, DebtItem(s, id), s') && s'.exposure == LedgerAtEnd(s, id, now)
    requires Some(s'.overlay) == Replacement(s.overlay, s.reservations[id], DebtItem(s, id))
    requires h'.epoch == h.epoch.(lives := LivesAtEnd(h.epoch.lives, id, now), ended := h'.epoch.ended)
    ensures Sound(s', h')
  {
    DebtParts(s, h, id, now, s', h');
    ChangeSound(s, h, id, DebtItem(s, id), h.epoch.lives[id].(endedAt := Some(now)), now, s', h');
  }

  lemma EndSound(s: State, h: History, handle: Handle, cause: TerminalCause, now: Time, s': State, ok: bool, h': History)
    requires Sound(s, h) && Follows(h, now, h') && EndRel(s, handle, cause, now, s', ok)
    requires h'.epoch == if EpochOver(s, s') then NEW_EPOCH
                         else if ok then h.epoch.(lives := LivesAtEnd(h.epoch.lives, handle.id, now), ended := h'.epoch.ended)
                         else h.epoch
    ensures Sound(s', h')
  {
    if !Endable(s, handle, cause) {
      IdleSound(s, h, now, h');
    } else if s.eventSequence == MAX_UINT64 {
      ClosedSound(s, h, ReasonCounterOverflow, now, h');
    } else if s.reservations[handle.id].phase == Reserved {
      DropReservedSound(s, h, handle.id, now, s', h');
    } else if RemovedAtEnd(s.reservations[handle.id], cause) {
      DropActiveSound(s, h, handle.id, now, s', h');
    } else {
      DebtSound(s, h, handle.id, now, s', h');
    }
  }

  // ---------- sample windows ----------

  lemma StartWindows(s: State, h: History, now: Time, s': State, h': History, w: SampleWindow)
    requires Typed(s) && LedgerOk(s, h) && WindowsOk(s, h) && Reading(h.start, now) && h.clock <= now
    requires w == OpenedWindow(s, now) && s.lastPublishedSample <= s.sampleSequence
    requires s' == s.(exposure := Advance(s.exposure, now).0, sampleSequence := s.sampleSequence + 1)
    requires h'.epoch == h.epoch.(windows := h.epoch.windows[w.id := Opening(w, now, h.tick)])
    ensures WindowsOk(s', h')
  {
    AdvanceIntegrates(s.exposure, h.epoch.lives, h.start, now);
    forall k | k in h'.epoch.windows ensures ExactWindow(s', h', k, h'.epoch.windows[k]) {
      if k != w.id { assert ExactWindow(s, h, k, h.epoch.windows[k]); }
    }
    forall i, j | i in h'.epoch.windows && j in h'.epoch.windows && i <= j
      ensures h'.epoch.windows[i].at <= h'.epoch.windows[j].at
    {
      if i != w.id { assert ExactWindow(s, h, i, h.epoch.windows[i]); }
      if j != w.id { assert ExactWindow(s, h, j, h.epoch.windows[j]); }
    }
    assert w.id !in h.epoch.windows by {
      forall k | k in h.epoch.windows ensures k != w.id { assert ExactWindow(s, h, k, h.epoch.windows[k]); }
    }
  }

  lemma StartSound(s: State, h: History, now: Time, s': State, w: Option<SampleWindow>, h': History)
    requires Sound(s, h) && StartRel(s, now, s', w)
    requires h'.start == h.start && h'.clock == now && Reading(h.start, now) && h.clock <= now
    requires h'.marks.issued == if w.Some? then h.marks.issued + {w.value} else h.marks.issued
    requires h'.epoch == if EpochOver(s, s') then NEW_EPOCH
                         else if w.Some? then h.epoch.(windows := h.epoch.windows[w.value.id := Opening(w.value, now, h.tick)])
                         else h.epoch
    ensures Sound(s', h')
  {
    if s.closedReason.Some? {
      IdleSound(s, h, now, h');
    } else if s.sampleSequence == MAX_UINT64 {
      ClosedSound(s, h, ReasonCounterOverflow, now, h');
    } else {
      StartWindows(s, h, now, s', h', w.value);
      AdvanceIntegrates(s.exposure, h.epoch.lives, h.start, now);
      assert LedgerOk(s', h');
      StartIssued(s, h, now, s', w.value, h');
      StartKeeps(s, s');
      SoundParts(s', h');
    }
  }

  lemma StartKeeps(s: State, s': State)
    requires CountersOk(s) && BooksOk(s) && RingSound(s) && ObservationOk(s) && s.sampleSequence < MAX_UINT64
    requires s' == s.(exposure := s'.exposure, sampleSequence := s.sampleSequence + 1)
    ensures CountersOk(s') && BooksOk(s') && RingSound(s') && ObservationOk(s')
  {
    forall k | k in s'.reservations ensures Held(s', k, s'.reservations[k]) {
      assert Held(s, k, s.reservations[k]);
    }
  }

  lemma StartIssued(s: State, h: History, now: Time, s': State, w: SampleWindow, h': History)
    requires Typed(s) && IssuedOk(s, h) && WindowsOk(s, h) && s.closedReason.None? && s'.closedReason.None?
    requires w == OpenedWindow(s, now) && s'.runtimeEpoch == s.runtimeEpoch
    requires h'.marks.issued == h.marks.issued + {w}
    requires h'.epoch.windows == h.epoch.windows[w.id := Opening(w, now, h.tick)]
    ensures IssuedOk(s', h')
  {
    assert w.id !in h.epoch.windows by {
      forall k | k in h.epoch.windows ensures k != w.id { assert ExactWindow(s, h, k, h.epoch.windows[k]); }
    }
  }

  // ---------- publication ----------

  lemma PassHeld(s: State, s': State, p: Pass)
    requires BooksOk(s) && s'.reservations == AfterPass(s.reservations, p)
    requires s'.gate == s.gate && s'.nextReservationID == s.nextReservationID
    requires s'.runtimeEpoch == s.runtimeEpoch && s'.eventSequence == s.eventSequence
    ensures forall k :: k in s'.reservations ==> Held(s', k, s'.reservations[k])
  {
    forall k | k in s'.reservations ensures Held(s', k, s'.reservations[k]) {
      assert Held(s, k, s.reservations[k]);
      LeftKeepsDemand(s.reservations[k], p);
    }
  }

  lemma PassLedger(s: State, h: History, s': State, h': History, p: Pass)
    requires LedgerOk(s, h) && s'.reservations == AfterPass(s.reservations, p)
    requires s'.nextReservationID == s.nextReservationID && s'.exposure == s.exposure
    requires h'.epoch.lives == h.epoch.lives && h'.start == h.start && h.clock <= h'.clock
    ensures LedgerOk(s', h')
  {
    PassKeepsTotal(s.reservations, p, Holding);
    forall k | k in s'.reservations ensures Remembered(h'.epoch.lives, k, s'.reservations[k]) {
      assert Remembered(h.epoch.lives, k, s.reservations[k]);
    }
  }

  lemma PublishedWindows(s: State, h: History, w: SampleWindow, s': State, h': History)
    requires WindowsOk(s, h) && w.id in h.epoch.windows && h.epoch.windows[w.id].window == w
    requires s'.runtimeEpoch == s.runtimeEpoch && s'.sampleSequence == s.sampleSequence
    requires s'.eventSequence == s.eventSequence && s'.exposure == s.exposure
    requires s'.lastPublishedSample == w.id && s'.lastExposure == w.exposure
    requires h'.epoch == h.epoch.(publishedForwarded := h.epoch.publishedForwarded + ReportedForwarded(s, w),
                                  publishedResponse := h.epoch.publishedResponse + ReportedResponse(s, w))
    ensures WindowsOk(s', h')
  {
    forall k | k in h'.epoch.windows ensures ExactWindow(s', h', k, h'.epoch.windows[k]) {
      assert ExactWindow(s, h, k, h.epoch.windows[k]);
    }
    assert ExactWindow(s, h, w.id, h.epoch.windows[w.id]);
  }

  lemma SamplesSound(s: State, h: History, w: SampleWindow, o: Observation, now: Time, s': State, h': History)
    requires Sound(s, h) && Follows(h, now, h') && TakesSample(s, w, o) && Samples(s, w, o, now, s')
    requires w in h.marks.issued
    requires h'.epoch == h.epoch.(publishedForwarded := h.epoch.publishedForwarded + ReportedForwarded(s, w),
                                  publishedResponse := h.epoch.publishedResponse + ReportedResponse(s, w))
    ensures Sound(s', h')
  {
    var p := PassOf(s, w, o, now);
    PassHeld(s, s', p);
    PassLedger(s, h, s', h', p);
    PublishedWindows(s, h, w, s', h');
    SoundParts(s', h');
  }

  lemma RestartedSound(s: State, h: History, o: Observation, now: Time, h': History)
    requires Sound(s, h) && s.closedReason.None? && Follows(h, now, h') && ValidObservation(o)
    requires s.observationSequence < MAX_UINT64 && s.runtimeEpoch < MAX_UINT64
    requires h'.epoch == NEW_EPOCH
    ensures Sound(Restarted(s, o), h')
  {
    var s' := Restarted(s, o);
    NewRing(s.tpsWindow.reference, o.observedAt, s'.observationSequence);
    assert LedgerOk(s', h');
    assert WindowsOk(s', h');
    assert BooksOk(s');
    SoundParts(s', h');
  }

  lemma PublishSound(s: State, h: History, w: SampleWindow, o: Observation, s': State, r: PublicationResult, now: Time, h': History)
    requires Sound(s, h) && Follows(h, now, h') && PublishRel(s, w, o, now, s', r)
    requires w.own ==> w in h.marks.issued
    requires h'.epoch == if EpochOver(s, s') then NEW_EPOCH
                         else if r.accepted then h.epoch.(
                           publishedForwarded := h.epoch.publishedForwarded + ReportedForwarded(s, w),
                           publishedResponse := h.epoch.publishedResponse + ReportedResponse(s, w))
                         else h.epoch
    ensures Sound(s', h')
  {
    if Refuses(s, w, o) {
      IdleSound(s, h, now, h');
    } else if o.runtimeIdentity != s.runtimeIdentity {
      ClosedSound(s, h, ReasonRuntimeIdentityDrift, now, h');
    } else if PublicationExhausted(s, o) {
      ClosedSound(s, h, ReasonCounterOverflow, now, h');
    } else if RuntimeReset(s, o) {
      RestartedSound(s, h, o, now, h');
    } else {
      SamplesSound(s, h, w, o, now, s', h');
    }
  }

  // ---------- policy updates ----------

  /** A policy update touches the policy fields alone, and starts an empty window for a new reference. */
  predicate UpdateRel(s: State, s': State) {
    && s' == s.(policyRevision := s'.policyRevision, policyUpdatedAt := s'.policyUpdatedAt,
                windowConcurrency := s'.windowConcurrency, runningLimit := s'.runningLimit,
                waitingAllowance := s'.waitingAllowance, runningLimitSource := s'.runningLimitSource,
                tpsPolicyEpoch := s'.tpsPolicyEpoch, tpsWindow := s'.tpsWindow)
    && (s' != s ==>
         && s.closedReason.None?
         && s.policyRevision < s'.policyRevision <= MAX_UINT64
         && (s'.windowConcurrency == s.windowConcurrency || 0 < s'.windowConcurrency)
         && (s'.runningLimit == s.runningLimit || 0 <= s'.runningLimit)
         && (s'.tpsWindow == s.tpsWindow ||
             (s'.tpsWindow == TW.NewWindow(s'.tpsWindow.reference) && s'.tpsWindow.reference >= 0.0)))
  }

  lemma UpdateEffect(s: State, u: PolicyUpdate)
    requires s.closedReason.None? ==> s.policyRevision <= MAX_UINT64
    ensures UpdateRel(s, UpdatePolicy(s, u).0)
  {
  }

  lemma UpdateSound(s: State, h: History, s': State, now: Time, h': History)
    requires Sound(s, h) && Follows(h, now, h') && UpdateRel(s, s')
    requires s.closedReason.None? ==> h'.epoch == h.epoch
    ensures Sound(s', h')
  {
    if s' == s {
      IdleSound(s, h, now, h');
    } else {
      LedgerKeep(s, h, s', h');
      WindowsKeep(s, h, s', h');
      UpdateKeeps(s, s');
      SoundParts(s', h');
    }
  }

  lemma UpdateKeeps(s: State, s': State)
    requires CountersOk(s) && BooksOk(s) && RingSound(s) && ObservationOk(s) && UpdateRel(s, s')
    ensures CountersOk(s') && BooksOk(s') && RingSound(s') && ObservationOk(s')
  {
    forall k | k in s'.reservations ensures Held(s', k, s'.reservations[k]) {
      assert Held(s, k, s.reservations[k]);
    }
    if s.observation.Some? {
      NewRing(s'.tpsWindow.reference, s.observation.value.observation.observedAt, s.observationSequence);
    }
  }
}
