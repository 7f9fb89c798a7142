/** What every reachable controller state keeps: the overlay is the from-scratch sum, the ledger is the
    sum of the lifetimes, every open sample window froze an exact total, and the TPS ring cannot collide. */
module ControllerSound {
  import opened Machine
  import opened Totals
  import opened Exposure
  import TW = TpsWindow
  import opened Policy
  import opened Reservations
  import opened Controller
  import opened ControllerRun

  // ---------- the invariant ----------

  predicate CountersOk(s: State) {
    && 1 <= s.runtimeEpoch <= MAX_UINT64
    && s.eventSequence <= MAX_UINT64
    && s.lastPublishedSample <= s.sampleSequence <= MAX_UINT64
    && s.observationSequence <= MAX_UINT64
    && s.nextReservationID <= MAX_UINT64
    && 1 <= s.policyRevision <= MAX_UINT64
    && 0 < s.windowConcurrency && 0 <= s.runningLimit
  }

  /** A reservation as the controller holds it, phase by phase. */
  predicate Held(s: State, id: nat, r: Reservation) {
    && 1 <= r.id == id <= s.nextReservationID
    && r.runtimeEpoch == s.runtimeEpoch
    && WellFormed(r)
    && r.coldSheddable == ColdSheddable(s.gate, r.demand)
    && r.forwardedSequence <= s.eventSequence
    && (r.phase == Reserved <==> r.forwardedSequence == 0)
    && (r.phase == Reserved ==> !r.pendingFirstByteReleased)
    && (r.phase == ResidualDebt <==> r.terminalSequence > 0)
    && r.terminalSequence <= s.eventSequence
  }

  ghost predicate BooksOk(s: State) {
    && (forall id :: id in s.reservations ==> Held(s, id, s.reservations[id]))
    && s.overlay == OverlayOf(s.reservations)
    && s.overlay.sequenceLiabilities <= MAX_INT64
  }

  /** Sequences a reservation holds on the ledger. */
  function Holding(r: Reservation): int {
    if r.phase == Forwarded || r.phase == ActiveDecode then r.demand.decodeSequences else 0
  }

  /** The lifetime remembered of a reservation agrees with its phase. */
  predicate Remembered(lives: map<nat, Lifetime>, id: nat, r: Reservation) {
    match r.phase
    case Reserved => id !in lives
    case Forwarded => id in lives && lives[id] == Lifetime(r.demand.decodeSequences, r.forwardedAt, None, None)
    case ActiveDecode => id in lives && lives[id].sequences == r.demand.decodeSequences &&
                         lives[id].firstByteAt.Some? && lives[id].endedAt.None?
    case ResidualDebt => id in lives && lives[id].endedAt.Some?
  }

  ghost predicate LedgerOk(s: State, h: History) {
    && Integrates(s.exposure, h.epoch.lives, h.start)
    && NotBefore(s.exposure, h.clock)
    && s.exposure.activeForwarded == Total(s.reservations, Holding)
    && (forall id :: id in s.reservations ==> Remembered(h.epoch.lives, id, s.reservations[id]))
    && (forall id :: id in h.epoch.lives ==> id <= s.nextReservationID)
  }

  /** An open window's exposure is the exact total of all lifetimes up to the moment it was opened. */
  ghost predicate ExactWindow(s: State, h: History, id: nat, o: Opening) {
    && o.window.own && 1 <= o.window.id == id <= s.sampleSequence
    && o.window.runtimeEpoch == s.runtimeEpoch
    && o.window.eventSequence <= s.eventSequence
    && s.exposure.initialized && o.at <= s.exposure.lastEventAt
    && Value(o.window.exposure.forwarded) == Total(h.epoch.lives, ForwardedBy(o.at))
    && Value(o.window.exposure.response) == Total(h.epoch.lives, RespondedBy(o.at))
  }

  ghost predicate WindowsOk(s: State, h: History) {
    && (forall id :: id in h.epoch.windows ==> ExactWindow(s, h, id, h.epoch.windows[id]))
    && (forall i, j :: i in h.epoch.windows && j in h.epoch.windows && i <= j
          ==> h.epoch.windows[i].at <= h.epoch.windows[j].at)
    && (if s.lastPublishedSample == 0 then s.lastExposure == ZERO_SNAPSHOT
        else s.lastPublishedSample in h.epoch.windows &&
             s.lastExposure == h.epoch.windows[s.lastPublishedSample].window.exposure)
    && h.epoch.publishedForwarded == Value(s.lastExposure.forwarded)
    && h.epoch.publishedResponse == Value(s.lastExposure.response)
  }

  /** Every window ever issued belongs to an earlier epoch or is one of the open ones. */
  ghost predicate IssuedOk(s: State, h: History) {
    forall w :: w in h.marks.issued ==>
      && w.runtimeEpoch <= s.runtimeEpoch
      && (s.closedReason.None? && w.runtimeEpoch == s.runtimeEpoch ==>
            w.id in h.epoch.windows && h.epoch.windows[w.id].window == w)
  }

  predicate RingSound(s: State) {
    && s.tpsWindow.reference >= 0.0 && TW.ValidInterval(s.tpsWindow.latest)
    && match s.observation
       case None => s.tpsWindow.buckets == TW.NewWindow(s.tpsWindow.reference).buckets
       case Some(o) => TW.RingOk(s.tpsWindow.buckets, o.observation.observedAt, s.observationSequence)
  }

  predicate ObservationOk(s: State) {
    s.observation.Some? ==>
      var o := s.observation.value;
      && ValidObservation(o.observation) && o.interval >= 0 && o.previousRunning >= 0 && o.previousWaiting >= 0
  }

  ghost predicate Sound(s: State, h: History) {
    && Typed(s)
    && IssuedOk(s, h)
    && ClockOk(h)
    && (if s.closedReason.Some? then
          s.reservations == map[] && s.overlay == NO_OVERLAY && s.exposure == EMPTY_LEDGER && s.lastExposure == ZERO_SNAPSHOT
        else
          CountersOk(s) && BooksOk(s) && LedgerOk(s, h) && WindowsOk(s, h) && RingSound(s) && ObservationOk(s))
  }

  predicate ClockOk(h: History) {
    h.start <= h.clock
  }

  // ---------- frames ----------

  /** Open windows stay exact as long as the lifetimes keep their totals at the instants they froze. */
  lemma WindowsKeep(s: State, h: History, s': State, h': History)
    requires WindowsOk(s, h)
    requires s'.runtimeEpoch == s.runtimeEpoch && s'.sampleSequence == s.sampleSequence
    requires s'.eventSequence >= s.eventSequence
    requires s'.lastPublishedSample == s.lastPublishedSample && s'.lastExposure == s.lastExposure
    requires s.exposure.initialized ==> s'.exposure.initialized && s'.exposure.lastEventAt >= s.exposure.lastEventAt
    requires h'.epoch.windows == h.epoch.windows
    requires h'.epoch.publishedForwarded == h.epoch.publishedForwarded
    requires h'.epoch.publishedResponse == h.epoch.publishedResponse
    requires forall id :: id in h.epoch.windows ==>
               SameTotals(h.epoch.lives, h'.epoch.lives, h.epoch.windows[id].at)
    ensures WindowsOk(s', h')
  {
    forall id | id in h'.epoch.windows ensures ExactWindow(s', h', id, h'.epoch.windows[id]) {
      assert ExactWindow(s, h, id, h.epoch.windows[id]);
      assert SameTotals(h.epoch.lives, h'.epoch.lives, h.epoch.windows[id].at);
    }
  }

  ghost predicate SameTotals(lives: map<nat, Lifetime>, lives': map<nat, Lifetime>, at: Time) {
    && Total(lives', ForwardedBy(at)) == Total(lives, ForwardedBy(at))
    && Total(lives', RespondedBy(at)) == Total(lives, RespondedBy(at))
  }

  /** A lifetime that starts, first answers or ends at `now` changes no total up to an earlier instant. */
  lemma LaterEventKeepsTotals(lives: map<nat, Lifetime>, id: nat, life: Lifetime, at: Time, now: Time)
    requires at <= now
    requires if id in lives then
               (life == lives[id].(firstByteAt := Some(now)) && lives[id].firstByteAt.None?) ||
               (life == lives[id].(endedAt := Some(now)) && lives[id].endedAt.None?)
             else life == Lifetime(life.sequences, now, None, None)
    ensures SameTotals(lives, lives[id := life], at)
  {
    if id in lives {
      TotalUpdate(lives, ForwardedBy(at), id, life);
      TotalUpdate(lives, RespondedBy(at), id, life);
    } else {
      TotalInsert(lives, ForwardedBy(at), id, life);
      TotalInsert(lives, RespondedBy(at), id, life);
    }
  }

  lemma LedgerKeep(s: State, h: History, s': State, h': History)
    requires LedgerOk(s, h) && s'.exposure == s.exposure && h'.epoch.lives == h.epoch.lives
    requires h'.start == h.start && h.clock <= h'.clock
    requires s'.reservations == s.reservations && s'.nextReservationID == s.nextReservationID
    ensures LedgerOk(s', h')
  {
  }

  /** Replacing one held reservation by a later phase with the same sequences keeps the books. */
  lemma BooksReplace(s: State, s': State, id: nat, r: Reservation)
    requires BooksOk(s) && id in s.reservations && s.eventSequence <= s'.eventSequence
    requires s'.runtimeEpoch == s.runtimeEpoch && s'.nextReservationID == s.nextReservationID && s'.gate == s.gate
    requires s'.reservations == s.reservations[id := r]
    requires Held(s', id, r) && r.demand.decodeSequences == s.reservations[id].demand.decodeSequences
    requires s'.overlay == s.overlay ==> Contribution(r) == Contribution(s.reservations[id])
    requires s'.overlay != s.overlay ==> Some(s'.overlay) == Replacement(s.overlay, s.reservations[id], r)
    ensures BooksOk(s')
  {
    assert Held(s, id, s.reservations[id]);
    ReplaceReservation(s.reservations, id, r);
    if s'.overlay == s.overlay {
      SameShare(s.reservations, id, r);
    }
    forall k | k in s'.reservations ensures Held(s', k, s'.reservations[k]) {
      if k != id { assert Held(s, k, s.reservations[k]); }
    }
  }

  /** Adding a fresh reservation keeps the books. */
  lemma BooksInsert(s: State, s': State, id: nat, r: Reservation)
    requires BooksOk(s) && id == s.nextReservationID + 1 && s.eventSequence <= s'.eventSequence
    requires s'.runtimeEpoch == s.runtimeEpoch && s'.nextReservationID == id && s'.gate == s.gate
    requires s'.reservations == s.reservations[id := r]
    requires Held(s', id, r)
    requires Some(s'.overlay) == AddOverlay(s.overlay, Contribution(r).value)
    ensures BooksOk(s') && id !in s.reservations
  {
    FreshId(s, id);
    WellFormedBooks(s);
    InsertReservation(s.reservations, id, r);
    forall k | k in s'.reservations ensures Held(s', k, s'.reservations[k]) {
      if k != id { assert Held(s, k, s.reservations[k]); }
    }
  }

  lemma FreshId(s: State, id: nat)
    requires BooksOk(s) && id > s.nextReservationID
    ensures id !in s.reservations
  {
    forall k | k in s.reservations ensures k != id {
      assert Held(s, k, s.reservations[k]);
    }
  }

  lemma WellFormedBooks(s: State)
    requires BooksOk(s)
    ensures AllWellFormed(s.reservations)
  {
    forall id | id in s.reservations ensures WellFormed(s.reservations[id]) {
      assert Held(s, id, s.reservations[id]);
    }
  }

  /** In sound books every overlay component is bounded by the liabilities. */
  lemma BooksBounds(s: State)
    requires BooksOk(s)
    ensures ValidOverlay(s.overlay) && s.overlay.liveReservations + s.overlay.residualDebts <= s.overlay.sequenceLiabilities
    ensures 0 <= s.overlay.sequenceLiabilities <= MAX_INT64
  {
    WellFormedBooks(s);
    OverlayBounds(s.reservations);
  }

  lemma SameShare(rs: map<nat, Reservation>, id: nat, r: Reservation)
    requires id in rs && Share(r) == Share(rs[id])
    ensures OverlayOf(rs[id := r]) == OverlayOf(rs)
  {
    OverlaySplit(rs, id);
    OverlayPut(rs, id, r);
  }
}
