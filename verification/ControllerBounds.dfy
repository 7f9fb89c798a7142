/** Fencing by epoch, the life of a residual debt, and the load a run can ever have unobserved. */
module ControllerBounds {
  import opened Machine
  import opened Policy
  import opened Reservations
  import opened Controller
  import opened ControllerRun
  import opened ControllerSound
  import opened ControllerEffects
  import opened Reconciliation
  import opened PublicationEffects
  import opened ControllerTheorems
  import opened ControllerSafety

  // ---------- fencing ----------

  /** `later` extends `earlier` by any number of calls. */
  ghost predicate Extends(later: Run, earlier: Run) {
    later == earlier || (later.Then? && Extends(later.before, earlier))
  }

  lemma StepFences(s: State, e: Event, s': State, out: Outcome)
    requires Typed(s) && StepRel(s, e, s', out)
    ensures s.runtimeEpoch <= s'.runtimeEpoch
    ensures s.closedReason.Some? ==> s'.closedReason == s.closedReason && s'.runtimeEpoch == s.runtimeEpoch
  {
  }

  lemma {:induction false} EpochsOnlyGrow(later: Run, earlier: Run)
    requires Possible(later) && Possible(earlier) && Extends(later, earlier)
    ensures Final(earlier).runtimeEpoch <= Final(later).runtimeEpoch
    ensures Final(earlier).closedReason.Some? ==> Final(later).closedReason == Final(earlier).closedReason
  {
    if later != earlier {
      EpochsOnlyGrow(later.before, earlier);
      RunSound(later.before);
      StepEffect(Final(later.before), Past(later.before), later.event);
      var (s', out) := Step(Final(later.before), later.event);
      StepFences(Final(later.before), later.event, s', out);
    }
  }

  lemma RevisionStep(s: State, e: Event, s': State, out: Outcome)
    requires Typed(s) && StepRel(s, e, s', out)
    ensures s.policyRevision <= s'.policyRevision
  {
  }

  lemma {:induction false} RevisionsOnlyGrow(later: Run, earlier: Run)
    requires Possible(later) && Possible(earlier) && Extends(later, earlier)
    ensures Final(earlier).policyRevision <= Final(later).policyRevision
  {
    if later != earlier {
      RevisionsOnlyGrow(later.before, earlier);
      RunSound(later.before);
      StepEffect(Final(later.before), Past(later.before), later.event);
      var (s', out) := Step(Final(later.before), later.event);
      RevisionStep(Final(later.before), later.event, s', out);
    }
  }

  lemma UpdateAdvances(s: State, u: PolicyUpdate)
    requires UpdatePolicy(s, u).1.error.None?
    ensures u.expectedRevision == s.policyRevision < UpdatePolicy(s, u).0.policyRevision
  {
  }

  lemma OutdatedUpdate(s: State, u: PolicyUpdate)
    requires u.expectedRevision < s.policyRevision
    ensures UpdatePolicy(s, u).0 == s && UpdatePolicy(s, u).1.error.Some?
    ensures UpdatePolicy(s, u).1.policy == UpdatePolicy(s, u).1.previousPolicy == PolicyOf(s)
  {
  }

  lemma UpdateIsStep(s: State, e: Event)
    requires Typed(s) && e.call.CallUpdate?
    ensures Step(s, e).0 == UpdatePolicy(s, e.call.update).0
  {
  }

  /** Of all updates that expect the same revision at most one ever succeeds: the others are refused and
      told the policy that stands. */
  lemma OneUpdatePerRevision(earlier: Run, first: Event, later: Run, second: Event)
    requires Possible(earlier) && Possible(Then(earlier, first)) && Possible(later)
    requires Extends(later, Then(earlier, first)) && first.call.CallUpdate? && second.call.CallUpdate?
    requires first.call.update.expectedRevision == second.call.update.expectedRevision
    requires UpdatePolicy(Final(earlier), first.call.update).1.error.None?
    ensures var (s', r) := UpdatePolicy(Final(later), second.call.update);
            s' == Final(later) && r.error.Some? && r.policy == r.previousPolicy == PolicyOf(Final(later))
  {
    RevisionsOnlyGrow(later, Then(earlier, first));
    UpdateIsStep(Final(earlier), first);
    UpdateAdvances(Final(earlier), first.call.update);
    OutdatedUpdate(Final(later), second.call.update);
  }

  /** A call with a handle or window of an earlier epoch, or on a closed controller, is refused and
      changes nothing. */
  predicate Stale(s: State, c: Call) {
    match c
    case CallForward(x) => s.closedReason.Some? || x.runtimeEpoch < s.runtimeEpoch
    case CallFirstByte(x) => s.closedReason.Some? || x.runtimeEpoch < s.runtimeEpoch
    case CallTerminate(x, _) => s.closedReason.Some? || x.runtimeEpoch < s.runtimeEpoch
    case CallPublish(_, w, _) => s.closedReason.Some? || w.runtimeEpoch < s.runtimeEpoch
    case _ => false
  }

  lemma StaleRefused(s: State, e: Event, s': State, out: Outcome)
    requires Typed(s) && StepRel(s, e, s', out) && Stale(s, e.call)
    ensures s' == s && out != Mark(true) && (out.Publication? ==> !out.published.accepted)
  {
  }

  /** Whatever was handed out before a runtime reset or a close is refused ever after, with no effect. */
  lemma OldHandlesFenced(earlier: Run, later: Run, e: Event)
    requires Possible(earlier) && Possible(Then(later, e)) && Possible(later) && Extends(later, earlier)
    requires Final(later).closedReason.Some? || Final(earlier).runtimeEpoch < Final(later).runtimeEpoch
    requires match e.call
             case CallForward(x) => x in Past(earlier).marks.admitted
             case CallFirstByte(x) => x in Past(earlier).marks.admitted
             case CallTerminate(x, _) => x in Past(earlier).marks.admitted
             case CallPublish(_, w, _) => w in Past(earlier).marks.issued
             case _ => false
    ensures Final(Then(later, e)) == Final(later)
    ensures Step(Final(later), e).1 != Mark(true)
    ensures Step(Final(later), e).1.Publication? ==> !Step(Final(later), e).1.published.accepted
  {
    RunMarks(earlier);
    RunSound(earlier);
    RunSound(later);
    StepEffect(Final(later), Past(later), e);
    var (s', out) := Step(Final(later), e);
    StaleRefused(Final(later), e, s', out);
  }

  // ---------- residual debts ----------

  /** A debt's terminal sequence tells exactly whether a window was opened before or after it arose. */
  ghost predicate DebtsOk(s: State, h: History) {
    && (forall k :: k in h.epoch.windows ==> h.epoch.windows[k].tick < h.tick)
    && (forall id :: id in s.reservations && s.reservations[id].phase == ResidualDebt ==>
          id in h.epoch.ended && h.epoch.ended[id] < h.tick)
    && (forall id, k :: id in s.reservations && s.reservations[id].phase == ResidualDebt && k in h.epoch.windows ==>
          CoversOrNot(s.reservations[id], h.epoch.ended[id], h.epoch.windows[k]))
  }

  predicate CoversOrNot(r: Reservation, endedTick: nat, o: Opening) {
    r.terminalSequence <= o.window.eventSequence <==> endedTick < o.tick
  }

  /** What the debts rely on: the books and the open windows of an open controller, nothing of a closed one. */
  ghost predicate DebtsReady(s: State, h: History) {
    Typed(s) && if s.closedReason.Some? then s.reservations == map[] else BooksOk(s) && WindowsOk(s, h)
  }

  lemma SoundIsReady(s: State, h: History)
    requires Sound(s, h)
    ensures DebtsReady(s, h)
  {
  }

  /** The windows open and the requests ended after a call of the same epoch. */
  ghost function WindowsNoted(h: History, e: Event, out: Outcome): map<nat, Opening> {
    if e.call.CallStart? && out.Sampling? && out.window.Some?
    then h.epoch.windows[out.window.value.id := Opening(out.window.value, e.now, h.tick)]
    else h.epoch.windows
  }

  ghost function EndsNoted(h: History, e: Event, out: Outcome): map<nat, nat> {
    if e.call.CallTerminate? && out == Mark(true) then h.epoch.ended[e.call.handle.id := h.tick] else h.epoch.ended
  }

  lemma EpochNoted(h: History, s: State, e: Event, out: Outcome)
    ensures NoteEpoch(h, s, e, out).windows == WindowsNoted(h, e, out)
    ensures NoteEpoch(h, s, e, out).ended == EndsNoted(h, e, out)
  {
  }

  /** Debts and windows that stay, stay as they were; others may go. */
  lemma DebtsStay(s: State, h: History, s': State, h': History)
    requires DebtsOk(s, h) && h'.tick == h.tick + 1
    requires forall k :: k in h'.epoch.windows ==> k in h.epoch.windows && h'.epoch.windows[k] == h.epoch.windows[k]
    requires forall id :: id in s'.reservations && s'.reservations[id].phase == ResidualDebt ==>
               id in s.reservations && s'.reservations[id] == s.reservations[id] &&
               id in h'.epoch.ended && (id in h.epoch.ended ==> h'.epoch.ended[id] == h.epoch.ended[id])
    ensures DebtsOk(s', h')
  {
  }

  lemma DebtArises(s: State, h: History, id: nat, s': State, h': History)
    requires DebtsOk(s, h) && WindowsOk(s, h) && h'.tick == h.tick + 1
    requires id in s.reservations && Changes(s, id, DebtItem(s, id), s')
    requires h'.epoch.windows == h.epoch.windows && h'.epoch.ended == h.epoch.ended[id := h.tick]
    ensures DebtsOk(s', h')
  {
    forall k | k in h.epoch.windows ensures CoversOrNot(DebtItem(s, id), h.tick, h.epoch.windows[k]) {
      assert ExactWindow(s, h, k, h.epoch.windows[k]);
    }
  }

  lemma DebtWindowOpens(s: State, h: History, now: Time, s': State, w: SampleWindow, h': History)
    requires Typed(s) && DebtsOk(s, h) && BooksOk(s) && h'.tick == h.tick + 1
    requires w == OpenedWindow(s, now) && s'.reservations == s.reservations
    requires h'.epoch.windows == h.epoch.windows[w.id := Opening(w, now, h.tick)] && h'.epoch.ended == h.epoch.ended
    ensures DebtsOk(s', h')
  {
    forall id | id in s.reservations && s.reservations[id].phase == ResidualDebt
      ensures CoversOrNot(s.reservations[id], h.epoch.ended[id], Opening(w, now, h.tick))
    {
      assert Held(s, id, s.reservations[id]);
    }
  }

  lemma DebtsAfterEnd(s: State, h: History, x: Handle, cause: TerminalCause, now: Time, s': State, ok: bool, h': History)
    requires DebtsReady(s, h) && DebtsOk(s, h) && EndRel(s, x, cause, now, s', ok) && ok && h'.tick == h.tick + 1
    requires h'.epoch.windows == h.epoch.windows && h'.epoch.ended == h.epoch.ended[x.id := h.tick]
    ensures DebtsOk(s', h')
  {
    if RemovedAtEnd(s.reservations[x.id], cause) {
      DebtsStay(s, h, s', h');
    } else {
      DebtArises(s, h, x.id, s', h');
    }
  }

  lemma DebtsAfterPublish(s: State, h: History, w: SampleWindow, o: Observation, now: Time, s': State, r: PublicationResult, h': History)
    requires DebtsOk(s, h) && PublishRel(s, w, o, now, s', r) && h'.tick == h.tick + 1
    requires s'.reservations != map[] ==> h'.epoch.windows == h.epoch.windows && h'.epoch.ended == h.epoch.ended
    requires h'.epoch.windows == h.epoch.windows || h'.epoch.windows == map[]
    ensures DebtsOk(s', h')
  {
    if r.accepted && !r.runtimeReset {
      forall id | id in s'.reservations && s'.reservations[id].phase == ResidualDebt
        ensures id in s.reservations && s'.reservations[id] == s.reservations[id]
      {
        LeftKeepsDemand(s.reservations[id], PassOf(s, w, o, now));
      }
    }
    DebtsStay(s, h, s', h');
  }

  predicate IsDebt(s: State, id: nat) {
    id in s.reservations && s.reservations[id].phase == ResidualDebt
  }

  /** Every debt stays as it is, and the only one that can arise is `ending`. */
  ghost predicate DebtsFrame(s: State, s': State, ending: set<nat>) {
    && (forall id :: IsDebt(s, id) ==> IsDebt(s', id) && s'.reservations[id] == s.reservations[id])
    && (forall id :: IsDebt(s', id) && id !in ending ==> IsDebt(s, id))
  }

  lemma LifeFrame(s: State, e: Event, s': State, out: Outcome)
    requires Typed(s) && StepRel(s, e, s', out) && !EpochOver(s, s')
    requires e.call.CallForward? || e.call.CallFirstByte?
    ensures DebtsFrame(s, s', {})
  {
  }

  lemma EndFrame(s: State, x: Handle, cause: TerminalCause, now: Time, s': State, ok: bool)
    requires Typed(s) && EndRel(s, x, cause, now, s', ok) && !EpochOver(s, s')
    ensures DebtsFrame(s, s', {x.id})
  {
  }

  lemma ReservesFrame(s: State, d: Demand, s': State)
    requires Reserves(s, d, s') && s.nextReservationID + 1 !in s.reservations
    ensures DebtsFrame(s, s', {})
  {
  }

  lemma AdmitFrame(s: State, at: Time, d: Demand, s': State, r: AdmissionResult)
    requires s.nextReservationID + 1 !in s.reservations && AdmitRel(s, at, d, s', r) && !EpochOver(s, s')
    ensures DebtsFrame(s, s', {})
  {
    if r.handle.Some? {
      ReservesFrame(s, d, s');
    }
  }

  lemma AdminFrame(s: State, e: Event, s': State, out: Outcome)
    requires Typed(s) && BooksOk(s) && StepRel(s, e, s', out) && !EpochOver(s, s')
    requires e.call.CallAdmit? || e.call.CallUpdate? || e.call.CallClose? || e.call.CallStart?
    ensures DebtsFrame(s, s', {})
  {
    if e.call.CallAdmit? {
      FreshId(s, s.nextReservationID + 1);
      AdmitFrame(s, e.call.at, e.call.demand, s', out.result);
    }
  }

  /** Calls that neither end a request, open a window nor publish leave every debt as it is. */
  lemma DebtsQuiet(s: State, h: History, e: Event, s': State, out: Outcome, h': History)
    requires DebtsReady(s, h) && DebtsOk(s, h) && StepRel(s, e, s', out) && !EpochOver(s, s') && h'.tick == h.tick + 1
    requires e.call.CallAdmit? || e.call.CallForward? || e.call.CallFirstByte? || e.call.CallUpdate? || e.call.CallClose?
    requires h'.epoch.windows == h.epoch.windows && h'.epoch.ended == h.epoch.ended
    ensures DebtsOk(s', h')
  {
    StepFences(s, e, s', out);
    if e.call.CallForward? || e.call.CallFirstByte? { LifeFrame(s, e, s', out); } else { AdminFrame(s, e, s', out); }
    DebtsUnchanged(s, h, s', h');
  }

  lemma DebtsUnchanged(s: State, h: History, s': State, h': History)
    requires DebtsOk(s, h) && DebtsFrame(s, s', {}) && h'.tick == h.tick + 1
    requires h'.epoch.windows == h.epoch.windows && h'.epoch.ended == h.epoch.ended
    ensures DebtsOk(s', h')
  {
    forall id | IsDebt(s', id) ensures id in s.reservations && s'.reservations[id] == s.reservations[id] {
      assert IsDebt(s, id);
    }
    DebtsStay(s, h, s', h');
  }

  /** An epoch that ends takes every reservation with it. */
  lemma ClosedIsEmpty(s: State, e: Event, s': State, out: Outcome)
    requires Typed(s) && StepRel(s, e, s', out) && EpochOver(s, s')
    requires s.closedReason.Some? ==> s.reservations == map[]
    ensures s'.reservations == map[]
  {
  }

  lemma DebtsStart(s: State, h: History, now: Time, s': State, w: Option<SampleWindow>, h': History)
    requires DebtsReady(s, h) && DebtsOk(s, h) && StartRel(s, now, s', w) && !EpochOver(s, s') && h'.tick == h.tick + 1
    requires h'.epoch.windows == if w.Some? then h.epoch.windows[w.value.id := Opening(w.value, now, h.tick)]
                                 else h.epoch.windows
    requires h'.epoch.ended == h.epoch.ended
    ensures DebtsOk(s', h')
  {
    if w.Some? {
      DebtWindowOpens(s, h, now, s', w.value, h');
    } else {
      DebtsStay(s, h, s', h');
    }
  }

  lemma DebtsEnd(s: State, h: History, x: Handle, cause: TerminalCause, now: Time, s': State, ok: bool, h': History)
    requires DebtsReady(s, h) && DebtsOk(s, h) && EndRel(s, x, cause, now, s', ok) && !EpochOver(s, s')
    requires h'.tick == h.tick + 1 && h'.epoch.windows == h.epoch.windows
    requires h'.epoch.ended == if ok then h.epoch.ended[x.id := h.tick] else h.epoch.ended
    ensures DebtsOk(s', h')
  {
    if ok {
      DebtsAfterEnd(s, h, x, cause, now, s', ok, h');
    } else {
      DebtsStay(s, h, s', h');
    }
  }

  lemma DebtsGone(s: State, h: History, e: Event, s': State, out: Outcome, h': History)
    requires DebtsReady(s, h) && StepRel(s, e, s', out) && EpochOver(s, s') && h'.epoch.windows == map[]
    ensures DebtsOk(s', h')
  {
    ClosedIsEmpty(s, e, s', out);
  }

  lemma DebtsStep(s: State, h: History, e: Event, s': State, out: Outcome, h': History)
    requires DebtsReady(s, h) && DebtsOk(s, h) && StepRel(s, e, s', out) && !EpochOver(s, s') && h'.tick == h.tick + 1
    requires h'.epoch.windows == WindowsNoted(h, e, out) && h'.epoch.ended == EndsNoted(h, e, out)
    ensures DebtsOk(s', h')
  {
    if e.call.CallTerminate? {
      DebtsEnd(s, h, e.call.handle, e.call.cause, e.now, s', out.ok, h');
    } else if e.call.CallStart? {
      DebtsStart(s, h, e.now, s', out.window, h');
    } else if e.call.CallPublish? {
      DebtsAfterPublish(s, h, e.call.window, e.call.observation, e.now, s', out.published, h');
    } else {
      DebtsQuiet(s, h, e, s', out, h');
    }
  }

  lemma {:induction false} RunDebts(run: Run)
    requires Possible(run)
    ensures DebtsOk(Final(run), Past(run))
  {
    match run
    case Begin(_, _) =>
    case Then(before, e) =>
      RunDebts(before);
      RunSound(before);
      StepEffect(Final(before), Past(before), e);
      var (s', out) := Step(Final(before), e);
      SoundIsReady(Final(before), Past(before));
      if EpochOver(Final(before), s') {
        DebtsGone(Final(before), Past(before), e, s', out, Past(run));
      } else {
        EpochNoted(Past(before), Final(before), e, out);
        DebtsStep(Final(before), Past(before), e, s', out, Past(run));
      }
  }

  /** Within an epoch a residual debt leaves exactly with the first accepted publication of a sample
      window opened after the request ended; no other call touches it. */
  lemma DebtReleasedExactly(run: Run, e: Event, id: nat)
    requires Possible(run) && Possible(Then(run, e)) && !EpochOver(Final(run), Final(Then(run, e)))
    requires id in Final(run).reservations && Final(run).reservations[id].phase == ResidualDebt
    ensures var (s, s', k) := (Final(run), Final(Then(run, e)), Past(run).epoch);
            && id in k.ended
            && (Accepts(run, e) ==> e.call.window.id in k.windows && k.windows[e.call.window.id].window == e.call.window)
            && (id !in s'.reservations <==> Accepts(run, e) && k.ended[id] < k.windows[e.call.window.id].tick)
            && (id in s'.reservations ==> s'.reservations[id] == s.reservations[id])
  {
    RunDebts(run);
    RunSound(run);
    StepEffect(Final(run), Past(run), e);
    var (s', out) := Step(Final(run), e);
    if e.call.CallPublish? {
      DebtUnderPublication(Final(run), Past(run), e.call.window, e.call.observation, e.now, s', out.published, id);
    } else {
      DebtElsewhere(Final(run), e, s', out, id);
    }
  }

  ghost predicate Accepts(run: Run, e: Event)
    requires Possible(Then(run, e))
  {
    e.call.CallPublish? && Step(Final(run), e).1.published.accepted
  }

  lemma DebtElsewhere(s: State, e: Event, s': State, out: Outcome, id: nat)
    requires Typed(s) && BooksOk(s) && StepRel(s, e, s', out) && !EpochOver(s, s') && !e.call.CallPublish? && IsDebt(s, id)
    ensures IsDebt(s', id) && s'.reservations[id] == s.reservations[id]
  {
    match e.call
    case CallForward(_) => LifeFrame(s, e, s', out);
    case CallFirstByte(_) => LifeFrame(s, e, s', out);
    case CallTerminate(x, cause) => EndFrame(s, x, cause, e.now, s', out.ok);
    case _ => AdminFrame(s, e, s', out);
  }

  lemma DebtUnderPublication(s: State, h: History, w: SampleWindow, o: Observation, now: Time, s': State, r: PublicationResult, id: nat)
    requires BooksOk(s) && DebtsOk(s, h) && IssuedOk(s, h) && PublishRel(s, w, o, now, s', r) && !EpochOver(s, s')
    requires IsDebt(s, id) && (w.own ==> w in h.marks.issued)
    ensures id in h.epoch.ended
    ensures r.accepted ==> w.id in h.epoch.windows && h.epoch.windows[w.id].window == w
    ensures id !in s'.reservations <==> r.accepted && h.epoch.ended[id] < h.epoch.windows[w.id].tick
    ensures id in s'.reservations ==> s'.reservations[id] == s.reservations[id]
  {
    if r.accepted {
      assert w in h.marks.issued && w.id in h.epoch.windows && h.epoch.windows[w.id].window == w;
      assert CoversOrNot(s.reservations[id], h.epoch.ended[id], h.epoch.windows[w.id]);
      assert Held(s, id, s.reservations[id]);
    }
  }
}
