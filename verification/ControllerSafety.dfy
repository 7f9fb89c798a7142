/** What the invariants mean for callers and operators, over whole runs. */
module ControllerSafety {
  import opened Machine
  import opened Totals
  import opened Exposure
  import opened Policy
  import opened Reservations
  import opened Controller
  import opened ControllerRun
  import opened ControllerSound
  import opened ControllerEffects
  import opened PublicationEffects
  import opened ControllerTheorems

  // ---------- overlay and ledger ----------

  /** At every moment of every run the incremental overlay is the from-scratch sum of all contributions. */
  lemma OverlayIsScan(run: Run)
    requires Possible(run)
    ensures var s := Final(run);
            && s.overlay == OverlayOf(s.reservations)
            && ValidOverlay(s.overlay)
            && forall id :: id in s.reservations ==> Contribution(s.reservations[id]).Some?
  {
    RunSound(run);
    var s := Final(run);
    if s.closedReason.None? {
      BooksBounds(s);
      WellFormedBooks(s);
    } else {
      assert OverlayOf(map[]) == NO_OVERLAY;
    }
  }

  /** Every sample window still open froze exactly the time its epoch's requests had then spent forwarded
      and responding, whatever has started, answered or ended since. */
  lemma WindowsAreExact(run: Run, id: nat)
    requires Possible(run) && Final(run).closedReason.None? && id in Past(run).epoch.windows
    ensures var o := Past(run).epoch.windows[id];
            && Value(o.window.exposure.forwarded) == Total(Past(run).epoch.lives, ForwardedBy(o.at))
            && Value(o.window.exposure.response) == Total(Past(run).epoch.lives, RespondedBy(o.at))
  {
    RunSound(run);
    assert ExactWindow(Final(run), Past(run), id, Past(run).epoch.windows[id]);
  }

  /** The exposure reported by all accepted publications of an epoch adds up to exactly the time spent
      until the last published window was opened: nothing is lost or counted twice. */
  lemma DeltasTelescope(run: Run)
    requires Possible(run) && Final(run).closedReason.None?
    ensures var (s, k) := (Final(run), Past(run).epoch);
            if s.lastPublishedSample == 0 then k.publishedForwarded == 0 && k.publishedResponse == 0
            else
              && s.lastPublishedSample in k.windows
              && k.publishedForwarded == Total(k.lives, ForwardedBy(k.windows[s.lastPublishedSample].at))
              && k.publishedResponse == Total(k.lives, RespondedBy(k.windows[s.lastPublishedSample].at))
  {
    RunSound(run);
    var s := Final(run);
    if s.lastPublishedSample != 0 {
      WindowsAreExact(run, s.lastPublishedSample);
    }
  }

  // ---------- closing ----------

  /** The only circumstances in which a call closes an open controller. */
  predicate Closing(s: State, c: Call) {
    match c
    case CallAdmit(at, d) => PolicyAdmits(s, at, d) && AdmissionExhausted(s, d)
    case CallForward(handle) => Forwardable(s, handle) && s.eventSequence == MAX_UINT64
    case CallFirstByte(handle) => Answerable(s, handle) && s.eventSequence == MAX_UINT64
    case CallTerminate(handle, cause) => Endable(s, handle, cause) && s.eventSequence == MAX_UINT64
    case CallStart => s.sampleSequence == MAX_UINT64
    case CallPublish(_, w, o) =>
      !Refuses(s, w, o) && (o.runtimeIdentity != s.runtimeIdentity || PublicationExhausted(s, o))
    case CallUpdate(_) => false
    case CallClose => true
  }

  /** A call closes the controller exactly for an exhausted counter, the reservation cap, a liability
      overflow at admission, identity drift, or Close, and never for internal inconsistency. */
  lemma ClosesExactly(run: Run, e: Event)
    requires Possible(run) && Possible(Then(run, e)) && Final(run).closedReason.None?
    ensures var s' := Final(Then(run, e));
            && (s'.closedReason.Some? <==> Closing(Final(run), e.call))
            && s'.closedReason != Some(ReasonControllerUnavailable)
  {
    RunSound(run);
    StepEffect(Final(run), Past(run), e);
    CloseRel(Final(run), e, Step(Final(run), e).0, Step(Final(run), e).1);
  }

  lemma CloseRel(s: State, e: Event, s': State, out: Outcome)
    requires Typed(s) && s.closedReason.None? && StepRel(s, e, s', out)
    ensures s'.closedReason.Some? <==> Closing(s, e.call)
    ensures s'.closedReason != Some(ReasonControllerUnavailable)
  {
  }

  // ---------- handles and windows ----------

  predicate Known(s: State, x: Handle) {
    1 <= x.runtimeEpoch <= s.runtimeEpoch && 1 <= x.id <= s.nextReservationID
  }

  /** The marks a reservation's handle must carry in each phase. */
  predicate PhaseMarks(m: Marks, x: Handle, phase: Phase) {
    && x in m.admitted
    && (x in m.forwarded <==> phase != Reserved)
    && (phase == Forwarded ==> x !in m.answered)
    && (x in m.terminated <==> phase == ResidualDebt)
  }

  ghost predicate MarksOk(s: State, h: History) {
    var m := h.marks;
    && m.answered <= m.forwarded <= m.admitted && m.terminated <= m.admitted
    && (forall x :: x in m.admitted ==> Known(s, x))
    && (forall id :: id in s.reservations ==>
          PhaseMarks(m, Handle(s.runtimeEpoch, id), s.reservations[id].phase))
    && (forall w :: w in m.accepted ==> w.runtimeEpoch <= s.runtimeEpoch)
    && (forall w :: w in m.accepted && w.runtimeEpoch == s.runtimeEpoch && s.closedReason.None? ==>
          w.id <= s.lastPublishedSample)
  }

  /** Reservations that stay, stay in their phase. */
  ghost predicate PhasesStay(s: State, s': State) {
    && s.runtimeEpoch <= s'.runtimeEpoch && s.nextReservationID <= s'.nextReservationID
    && (s'.runtimeEpoch == s.runtimeEpoch ==>
          forall id :: id in s'.reservations ==>
            id in s.reservations && s'.reservations[id].phase == s.reservations[id].phase)
    && (s'.runtimeEpoch != s.runtimeEpoch ==> s'.reservations == map[])
    && (s'.closedReason.None? && s'.runtimeEpoch == s.runtimeEpoch ==>
          s.closedReason.None? && s.lastPublishedSample <= s'.lastPublishedSample)
  }

  lemma MarksStay(s: State, h: History, s': State, h': History)
    requires MarksOk(s, h) && PhasesStay(s, s')
    requires h'.marks == h.marks.(issued := h'.marks.issued)
    ensures MarksOk(s', h')
  {
  }

  lemma ClosedPhases(s: State, reason: Reason)
    requires s.closedReason.Some? ==> s.reservations == map[]
    ensures PhasesStay(s, FailClosed(s, reason)) && FailClosed(s, reason).closedReason.Some?
  {
  }

  /** What the marks rely on: the books and counters of an open controller, nothing of a closed one. */
  ghost predicate MarksReady(s: State) {
    Typed(s) && if s.closedReason.Some? then s.reservations == map[] else BooksOk(s) && CountersOk(s)
  }

  /** A call that is refused, or closes the controller, marks nothing. */
  lemma MarksRefused(s: State, h: History, s': State, h': History)
    requires MarksOk(s, h) && (s.closedReason.Some? ==> s.reservations == map[])
    requires s' == s || exists reason :: s' == FailClosed(s, reason)
    requires h'.marks == h.marks.(issued := h'.marks.issued)
    ensures MarksOk(s', h')
  {
    if s' != s {
      var reason :| s' == FailClosed(s, reason);
      ClosedPhases(s, reason);
    }
    MarksStay(s, h, s', h');
  }

  lemma MarksAdmit(s: State, h: History, d: Demand, s': State, h': History)
    requires BooksOk(s) && s.closedReason.None? && CountersOk(s) && MarksOk(s, h) && Reserves(s, d, s')
    requires h'.marks == h.marks.(admitted := h.marks.admitted + {Handle(s.runtimeEpoch, s.nextReservationID + 1)})
    ensures MarksOk(s', h')
    ensures forall x :: x in h.marks.admitted ==> x.id < s.nextReservationID + 1
  {
  }

  /** One reservation moves on, or goes, and its handle is marked. */
  lemma MarksPhase(s: State, h: History, id: nat, s': State, h': History)
    requires MarksOk(s, h) && s.closedReason.None? && id in s.reservations
    requires s'.runtimeEpoch == s.runtimeEpoch && s'.nextReservationID == s.nextReservationID
    requires s'.closedReason.None? && s'.lastPublishedSample == s.lastPublishedSample
    requires forall k :: k in s'.reservations && k != id ==> k in s.reservations && s'.reservations[k] == s.reservations[k]
    requires var (m, x, p) := (h.marks, Handle(s.runtimeEpoch, id), s.reservations[id].phase);
             || (p == Reserved && h'.marks == m.(forwarded := m.forwarded + {x}) &&
                 id in s'.reservations && s'.reservations[id].phase == Forwarded)
             || (p == Forwarded && h'.marks == m.(answered := m.answered + {x}) &&
                 id in s'.reservations && s'.reservations[id].phase == ActiveDecode)
             || (p != ResidualDebt && h'.marks == m.(terminated := m.terminated + {x}) &&
                 (id in s'.reservations ==> p != Reserved && s'.reservations[id].phase == ResidualDebt))
    ensures MarksOk(s', h')
  {
    var x := Handle(s.runtimeEpoch, id);
    assert PhaseMarks(h.marks, x, s.reservations[id].phase);
    forall k | k in s'.reservations ensures PhaseMarks(h'.marks, Handle(s'.runtimeEpoch, k), s'.reservations[k].phase) {
      if k != id { assert PhaseMarks(h.marks, Handle(s.runtimeEpoch, k), s.reservations[k].phase); }
    }
  }

  lemma MarksPublish(s: State, h: History, w: SampleWindow, o: Observation, now: Time, s': State, r: PublicationResult, h': History)
    requires MarksReady(s) && MarksOk(s, h) && PublishRel(s, w, o, now, s', r)
    requires h'.marks == if r.accepted then h.marks.(accepted := h.marks.accepted + {w}) else h.marks
    ensures MarksOk(s', h')
    ensures r.accepted ==> w !in h.marks.accepted
  {
    if r.accepted {
      if RuntimeReset(s, o) {
        assert MarksOk(s', h');
      } else {
        SamplePhases(s, w, o, now, s');
        MarksStay(s, h, s', h);
      }
    } else {
      assert s' == s || s' == FailClosed(s, s'.closedReason.value);
      MarksRefused(s, h, s', h');
    }
  }

  lemma SamplePhases(s: State, w: SampleWindow, o: Observation, now: Time, s': State)
    requires Samples(s, w, o, now, s') && s.closedReason.None? && s.lastPublishedSample <= w.id
    ensures PhasesStay(s, s')
  {
  }

  lemma MarksForward(s: State, h: History, handle: Handle, now: Time, s': State, ok: bool, h': History)
    requires Typed(s) && (s.closedReason.Some? ==> s.reservations == map[]) && MarksOk(s, h) && ForwardRel(s, handle, now, s', ok)
    requires h'.marks == if ok then h.marks.(forwarded := h.marks.forwarded + {handle}) else h.marks
    ensures MarksOk(s', h')
  {
    if ok {
      assert handle == Handle(s.runtimeEpoch, handle.id);
      MarksPhase(s, h, handle.id, s', h');
    } else {
      assert s' == s || s' == FailClosed(s, ReasonCounterOverflow);
      MarksRefused(s, h, s', h');
    }
  }

  lemma MarksAnswer(s: State, h: History, handle: Handle, now: Time, s': State, ok: bool, h': History)
    requires Typed(s) && (s.closedReason.Some? ==> s.reservations == map[]) && MarksOk(s, h) && AnswerRel(s, handle, now, s', ok)
    requires h'.marks == if ok then h.marks.(answered := h.marks.answered + {handle}) else h.marks
    ensures MarksOk(s', h')
  {
    if ok {
      assert handle == Handle(s.runtimeEpoch, handle.id);
      MarksPhase(s, h, handle.id, s', h');
    } else {
      assert s' == s || s' == FailClosed(s, ReasonCounterOverflow);
      MarksRefused(s, h, s', h');
    }
  }

  lemma MarksEnd(s: State, h: History, handle: Handle, cause: TerminalCause, now: Time, s': State, ok: bool, h': History)
    requires Typed(s) && (s.closedReason.Some? ==> s.reservations == map[]) && MarksOk(s, h) && EndRel(s, handle, cause, now, s', ok)
    requires h'.marks == if ok then h.marks.(terminated := h.marks.terminated + {handle}) else h.marks
    ensures MarksOk(s', h')
  {
    if ok {
      assert handle == Handle(s.runtimeEpoch, handle.id);
      MarksPhase(s, h, handle.id, s', h');
    } else {
      assert s' == s || s' == FailClosed(s, ReasonCounterOverflow);
      MarksRefused(s, h, s', h');
    }
  }

  lemma MarksAdmission(s: State, h: History, at: Time, d: Demand, s': State, r: AdmissionResult, h': History)
    requires MarksReady(s) && MarksOk(s, h) && AdmitRel(s, at, d, s', r)
    requires h'.marks == if r.handle.Some? then h.marks.(admitted := h.marks.admitted + {r.handle.value}) else h.marks
    ensures MarksOk(s', h')
  {
    if r.handle.Some? {
      MarksAdmit(s, h, d, s', h');
    } else {
      assert s' == s || s' == FailClosed(s, s'.closedReason.value);
      MarksRefused(s, h, s', h');
    }
  }

  lemma MarksQuiet(s: State, h: History, e: Event, s': State, out: Outcome, h': History)
    requires MarksReady(s) && MarksOk(s, h) && StepRel(s, e, s', out)
    requires e.call.CallStart? || e.call.CallUpdate? || e.call.CallClose?
    requires h'.marks == h.marks.(issued := h'.marks.issued)
    ensures MarksOk(s', h')
  {
    if s'.closedReason.Some? {
      assert s' == s || s' == FailClosed(s, s'.closedReason.value);
      MarksRefused(s, h, s', h');
    } else {
      MarksStay(s, h, s', h');
    }
  }

  lemma MarksStep(s: State, h: History, e: Event, s': State, out: Outcome, h': History)
    requires MarksReady(s) && MarksOk(s, h) && StepRel(s, e, s', out) && h'.marks == NoteMarks(h.marks, e, out)
    ensures MarksOk(s', h')
  {
    if e.call.CallAdmit? {
      MarksAdmission(s, h, e.call.at, e.call.demand, s', out.result, h');
    } else if e.call.CallForward? {
      MarksForward(s, h, e.call.handle, e.now, s', out.ok, h');
    } else if e.call.CallFirstByte? {
      MarksAnswer(s, h, e.call.handle, e.now, s', out.ok, h');
    } else if e.call.CallTerminate? {
      MarksEnd(s, h, e.call.handle, e.call.cause, e.now, s', out.ok, h');
    } else if e.call.CallPublish? {
      MarksPublish(s, h, e.call.window, e.call.observation, e.now, s', out.published, h');
    } else {
      MarksQuiet(s, h, e, s', out, h');
    }
  }

  lemma {:induction false} RunMarks(run: Run)
    requires Possible(run)
    ensures MarksOk(Final(run), Past(run))
  {
    match run
    case Begin(_, _) =>
    case Then(before, e) =>
      RunMarks(before);
      RunSound(before);
      StepEffect(Final(before), Past(before), e);
      var (s', out) := Step(Final(before), e);
      MarksStep(Final(before), Past(before), e, s', out, Past(run));
  }

  /** Over any run each handle is forwarded, answered and terminated at most once and only in that order,
      reservation ids are never reused, and each sample window is accepted at most once. */
  lemma OnceAndInOrder(run: Run, e: Event)
    requires Possible(run) && Possible(Then(run, e))
    ensures var (m, out) := (Past(run).marks, Step(Final(run), e).1);
            match e.call
            case CallAdmit(_, _) => out.result.handle.Some? ==>
              out.result.handle.value !in m.admitted && forall x :: x in m.admitted ==> x.id < out.result.handle.value.id
            case CallForward(x) => out.ok ==> x in m.admitted && x !in m.forwarded && x !in m.answered && x !in m.terminated
            case CallFirstByte(x) => out.ok ==> x in m.forwarded && x !in m.answered && x !in m.terminated
            case CallTerminate(x, _) => out.ok ==> x in m.admitted && x !in m.terminated
            case CallPublish(_, w, _) => out.published.accepted ==> w in m.issued && w !in m.accepted
            case _ => true
  {
    RunMarks(run);
    RunSound(run);
    var (s, h) := (Final(run), Past(run));
    StepEffect(s, h, e);
    OnceRel(s, h, e, Step(s, e).0, Step(s, e).1);
  }

  lemma OnceRel(s: State, h: History, e: Event, s': State, out: Outcome)
    requires Sound(s, h) && MarksOk(s, h) && Genuine(h, s, e) && StepRel(s, e, s', out)
    ensures var m := h.marks;
            match e.call
            case CallAdmit(_, _) => out.result.handle.Some? ==>
              out.result.handle.value !in m.admitted && forall x :: x in m.admitted ==> x.id < out.result.handle.value.id
            case CallForward(x) => out.ok ==> x in m.admitted && x !in m.forwarded && x !in m.answered && x !in m.terminated
            case CallFirstByte(x) => out.ok ==> x in m.forwarded && x !in m.answered && x !in m.terminated
            case CallTerminate(x, _) => out.ok ==> x in m.admitted && x !in m.terminated
            case CallPublish(_, w, _) => out.published.accepted ==> w in m.issued && w !in m.accepted
            case _ => true
  {
    if e.call.CallForward? || e.call.CallFirstByte? || e.call.CallTerminate? {
      var x := e.call.handle;
      if out.ok {
        assert x == Handle(s.runtimeEpoch, x.id);
        assert PhaseMarks(h.marks, x, s.reservations[x.id].phase);
      }
    }
  }
}
