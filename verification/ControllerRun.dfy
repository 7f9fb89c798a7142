/** Runs of the controller: any sequence of calls, with what an outside observer can remember of them. */
module ControllerRun {
  import opened Machine
  import opened Exposure
  import opened Policy
  import opened Controller

  datatype Call =
    | CallAdmit(at: Time, demand: Demand)
    | CallForward(handle: Handle)
    | CallFirstByte(handle: Handle)
    | CallTerminate(handle: Handle, cause: TerminalCause)
    | CallStart
    | CallPublish(order: seq<nat>, window: SampleWindow, observation: Observation)
    | CallUpdate(update: PolicyUpdate)
    | CallClose

  /** A call, and what the controller's clock reads during it. */
  datatype Event = Event(call: Call, now: Time)

  datatype Outcome =
    | Admission(result: AdmissionResult)
    | Mark(ok: bool)
    | Sampling(window: Option<SampleWindow>)
    | Publication(published: PublicationResult)
    | Update(updated: UpdateResult)
    | Done

  ghost predicate Enabled(s: State, c: Call) {
    c.CallPublish? ==> IterationOrder(c.order, s.reservations)
  }

  ghost function Step(s: State, e: Event): (State, Outcome)
    requires Typed(s) && Enabled(s, e.call)
  {
    match e.call
    case CallAdmit(at, demand) => var (s', r) := Admit(s, at, demand); (s', Admission(r))
    case CallForward(handle) => var (s', ok) := MarkForwarded(s, handle, e.now); (s', Mark(ok))
    case CallFirstByte(handle) => var (s', ok) := MarkFirstByte(s, handle, e.now); (s', Mark(ok))
    case CallTerminate(handle, cause) => var (s', ok) := Terminate(s, handle, cause, e.now); (s', Mark(ok))
    case CallStart => var (s', w) := StartSampleWindow(s, e.now); (s', Sampling(w))
    case CallPublish(order, window, observation) =>
      var (s', r) := Publish(s, order, window, observation, e.now); (s', Publication(r))
    case CallUpdate(update) => var (s', r) := UpdatePolicy(s, update); (s', Update(r))
    case CallClose => (Close(s), Done)
  }

  // ---------- what is remembered ----------

  datatype Opening = Opening(window: SampleWindow, at: Time, tick: nat)

  /** Remembered of the current runtime epoch: the lifetimes of forwarded requests, the sample windows
      opened, when each request ended, and the exposure the accepted publications have added up. */
  datatype Epoch = Epoch(
    lives: map<nat, Lifetime>,
    windows: map<nat, Opening>,
    ended: map<nat, nat>,
    publishedForwarded: int,
    publishedResponse: int)

  const NEW_EPOCH := Epoch(map[], map[], map[], 0, 0)

  /** Remembered of the whole run: which calls have succeeded for which handle or window. */
  datatype Marks = Marks(
    admitted: set<Handle>,
    forwarded: set<Handle>,
    answered: set<Handle>,
    terminated: set<Handle>,
    issued: set<SampleWindow>,
    accepted: set<SampleWindow>)

  datatype History = History(
    tick: nat,
    start: Time,
    clock: Time,
    epoch: Epoch,
    marks: Marks,
    widest: int,
    coldOnEvidence: bool)

  function EpochOver(s: State, s': State): bool {
    s'.closedReason.Some? || s'.runtimeEpoch != s.runtimeEpoch
  }

  /** The exposure a publication reports: the window's totals less those last published. */
  function ReportedForwarded(s: State, w: SampleWindow): int {
    Value(w.exposure.forwarded) - Value(s.lastExposure.forwarded)
  }

  function ReportedResponse(s: State, w: SampleWindow): int {
    Value(w.exposure.response) - Value(s.lastExposure.response)
  }

  ghost function NoteEpoch(h: History, s: State, e: Event, out: Outcome): Epoch {
    var k := h.epoch;
    match (e.call, out)
    case (CallForward(handle), Mark(true)) =>
      if handle.id in s.reservations then
        k.(lives := k.lives[handle.id := Lifetime(s.reservations[handle.id].demand.decodeSequences, e.now, None, None)])
      else k
    case (CallFirstByte(handle), Mark(true)) =>
      if handle.id in k.lives then k.(lives := k.lives[handle.id := k.lives[handle.id].(firstByteAt := Some(e.now))]) else k
    case (CallTerminate(handle, _), Mark(true)) =>
      k.(ended := k.ended[handle.id := h.tick],
         lives := if handle.id in k.lives then k.lives[handle.id := k.lives[handle.id].(endedAt := Some(e.now))] else k.lives)
    case (CallStart, Sampling(Some(w))) =>
      k.(windows := k.windows[w.id := Opening(w, e.now, h.tick)])
    case (CallPublish(_, w, _), Publication(r)) =>
      if r.accepted then k.(publishedForwarded := k.publishedForwarded + ReportedForwarded(s, w),
                            publishedResponse := k.publishedResponse + ReportedResponse(s, w))
      else k
    case _ => k
  }

  ghost function NoteMarks(m: Marks, e: Event, out: Outcome): Marks {
    match (e.call, out)
    case (CallAdmit(_, _), Admission(r)) => if r.handle.Some? then m.(admitted := m.admitted + {r.handle.value}) else m
    case (CallForward(handle), Mark(true)) => m.(forwarded := m.forwarded + {handle})
    case (CallFirstByte(handle), Mark(true)) => m.(answered := m.answered + {handle})
    case (CallTerminate(handle, _), Mark(true)) => m.(terminated := m.terminated + {handle})
    case (CallStart, Sampling(Some(w))) => m.(issued := m.issued + {w})
    case (CallPublish(_, w, _), Publication(r)) => if r.accepted then m.(accepted := m.accepted + {w}) else m
    case _ => m
  }

  /** A cold default or flex admission decided without a ready, currently qualified TPS snapshot. */
  ghost predicate ColdWithoutEvidence(s: State, e: Event, out: Outcome) {
    e.call.CallAdmit? && out.Admission? && out.result.handle.Some? && ColdSheddable(s.gate, e.call.demand) &&
    var tps := out.result.decision.state.tps;
    !(tps.enabled && tps.ready && tps.latest.qualified)
  }

  ghost function Note(h: History, s: State, e: Event, s': State, out: Outcome): History {
    History(h.tick + 1, h.start, e.now,
            if EpochOver(s, s') then NEW_EPOCH else NoteEpoch(h, s, e, out),
            NoteMarks(h.marks, e, out),
            if s'.windowConcurrency > h.widest then s'.windowConcurrency else h.widest,
            h.coldOnEvidence && !ColdWithoutEvidence(s, e, out))
  }

  // ---------- runs ----------

  datatype Run = Begin(config: Config, start: Time) | Then(before: Run, event: Event)

  /** The clock never goes back, and only windows this controller issued claim to be its own. */
  ghost predicate Genuine(h: History, s: State, e: Event) {
    && Reading(h.start, e.now) && h.clock <= e.now
    && Enabled(s, e.call)
    && (e.call.CallPublish? && e.call.window.own ==> e.call.window in h.marks.issued)
  }

  ghost predicate Possible(run: Run)
    decreases run, 0
  {
    match run
    case Begin(config, start) => Init(config).Some? && start != ZERO_TIME
    case Then(before, event) => Possible(before) && Typed(Final(before)) && Genuine(Past(before), Final(before), event)
  }

  ghost function Final(run: Run): State
    requires Possible(run)
    decreases run, 1
  {
    match run
    case Begin(config, _) => Init(config).value
    case Then(before, event) => Step(Final(before), event).0
  }

  ghost function Past(run: Run): History
    requires Possible(run)
    decreases run, 2
  {
    match run
    case Begin(_, start) =>
      History(0, start, start, NEW_EPOCH, Marks({}, {}, {}, {}, {}, {}), Final(run).windowConcurrency, true)
    case Then(before, event) =>
      var (s', out) := Step(Final(before), event);
      Note(Past(before), Final(before), event, s', out)
  }
}
