/** Safety of whole controller runs. */
module ControllerTheorems {
  import opened Machine
  import opened Exposure
  import opened Policy
  import opened Reservations
  import opened Controller
  import opened ControllerRun
  import opened ControllerSound
  import opened ControllerEffects
  import opened PublicationEffects
  import opened ControllerSteps

  // ---------- every step of every run ----------

  ghost predicate StepRel(s: State, e: Event, s': State, out: Outcome)
    requires Typed(s)
  {
    match e.call
    case CallAdmit(at, d) => out.Admission? && AdmitRel(s, at, d, s', out.result)
    case CallForward(handle) => out.Mark? && ForwardRel(s, handle, e.now, s', out.ok)
    case CallFirstByte(handle) => out.Mark? && AnswerRel(s, handle, e.now, s', out.ok)
    case CallTerminate(handle, cause) => out.Mark? && EndRel(s, handle, cause, e.now, s', out.ok)
    case CallStart => out.Sampling? && StartRel(s, e.now, s', out.window)
    case CallPublish(_, w, o) => out.Publication? && PublishRel(s, w, o, e.now, s', out.published)
    case CallUpdate(_) => out.Update? && UpdateRel(s, s')
    case CallClose => out.Done? && s' == FailClosed(s, ReasonClosed)
  }

  /** On a sound state every genuine call has exactly its stated effect. */
  lemma StepEffect(s: State, h: History, e: Event)
    requires Sound(s, h) && Genuine(h, s, e)
    ensures var (s', out) := Step(s, e); StepRel(s, e, s', out)
  {
    match e.call
    case CallAdmit(at, d) => AdmitEffect(s, h, at, d);
    case CallForward(handle) => ForwardEffect(s, h, handle, e.now);
    case CallFirstByte(handle) => AnswerEffect(s, h, handle, e.now);
    case CallTerminate(handle, cause) => EndEffect(s, h, handle, cause, e.now);
    case CallStart => StartEffect(s, h, e.now);
    case CallPublish(order, w, o) => PublishEffect(s, h, order, w, o, e.now);
    case CallUpdate(u) => UpdateEffect(s, u);
    case CallClose =>
  }

  // What is noted of each call.

  predicate Timely(h: History, e: Event) {
    Reading(h.start, e.now) && h.clock <= e.now
  }

  lemma ForwardNoted(s: State, h: History, e: Event, s': State, ok: bool)
    requires e.call.CallForward? && Timely(h, e) && (ok ==> e.call.handle.id in s.reservations)
    ensures var h' := Note(h, s, e, s', Mark(ok));
            && Follows(h, e.now, h')
            && h'.epoch == if EpochOver(s, s') then NEW_EPOCH
                           else if ok then h.epoch.(lives := h.epoch.lives[e.call.handle.id :=
                                  Lifetime(s.reservations[e.call.handle.id].demand.decodeSequences, e.now, None, None)])
                           else h.epoch
  {
  }

  lemma AnswerNoted(s: State, h: History, e: Event, s': State, ok: bool)
    requires e.call.CallFirstByte? && Timely(h, e)
    ensures var h', id := Note(h, s, e, s', Mark(ok)), e.call.handle.id;
            && Follows(h, e.now, h')
            && h'.epoch == if EpochOver(s, s') then NEW_EPOCH
                           else if ok && id in h.epoch.lives then
                             h.epoch.(lives := h.epoch.lives[id := h.epoch.lives[id].(firstByteAt := Some(e.now))])
                           else h.epoch
  {
  }

  lemma EndNoted(s: State, h: History, e: Event, s': State, ok: bool)
    requires e.call.CallTerminate? && Timely(h, e)
    ensures var h' := Note(h, s, e, s', Mark(ok));
            && Follows(h, e.now, h')
            && h'.epoch == if EpochOver(s, s') then NEW_EPOCH
                           else if ok then h.epoch.(lives := LivesAtEnd(h.epoch.lives, e.call.handle.id, e.now),
                                                    ended := h'.epoch.ended)
                           else h.epoch
  {
  }

  lemma PublishNoted(s: State, h: History, e: Event, s': State, r: PublicationResult)
    requires e.call.CallPublish? && Timely(h, e)
    ensures var h' := Note(h, s, e, s', Publication(r));
            && Follows(h, e.now, h')
            && h'.epoch == if EpochOver(s, s') then NEW_EPOCH
                           else if r.accepted then h.epoch.(
                             publishedForwarded := h.epoch.publishedForwarded + ReportedForwarded(s, e.call.window),
                             publishedResponse := h.epoch.publishedResponse + ReportedResponse(s, e.call.window))
                           else h.epoch
  {
  }

  lemma OtherwiseNoted(s: State, h: History, e: Event, s': State, out: Outcome)
    requires (e.call.CallAdmit? || e.call.CallUpdate? || e.call.CallClose?) && Timely(h, e)
    ensures var h' := Note(h, s, e, s', out);
            Follows(h, e.now, h') && h'.epoch == if EpochOver(s, s') then NEW_EPOCH else h.epoch
  {
  }

  // Each call keeps a sound state sound.

  lemma ForwardStepSound(s: State, h: History, e: Event, s': State, ok: bool)
    requires Sound(s, h) && e.call.CallForward? && Timely(h, e)
    requires ForwardRel(s, e.call.handle, e.now, s', ok)
    ensures Sound(s', Note(h, s, e, s', Mark(ok)))
  {
    ForwardNoted(s, h, e, s', ok);
    ForwardSound(s, h, e.call.handle, e.now, s', ok, Note(h, s, e, s', Mark(ok)));
  }

  lemma AnswerStepSound(s: State, h: History, e: Event, s': State, ok: bool)
    requires Sound(s, h) && e.call.CallFirstByte? && Timely(h, e)
    requires AnswerRel(s, e.call.handle, e.now, s', ok)
    ensures Sound(s', Note(h, s, e, s', Mark(ok)))
  {
    AnswerNoted(s, h, e, s', ok);
    AnswerSound(s, h, e.call.handle, e.now, s', ok, Note(h, s, e, s', Mark(ok)));
  }

  lemma EndStepSound(s: State, h: History, e: Event, s': State, ok: bool)
    requires Sound(s, h) && e.call.CallTerminate? && Timely(h, e)
    requires EndRel(s, e.call.handle, e.call.cause, e.now, s', ok)
    ensures Sound(s', Note(h, s, e, s', Mark(ok)))
  {
    EndNoted(s, h, e, s', ok);
    EndSound(s, h, e.call.handle, e.call.cause, e.now, s', ok, Note(h, s, e, s', Mark(ok)));
  }

  lemma StartStepSound(s: State, h: History, e: Event, s': State, w: Option<SampleWindow>)
    requires Sound(s, h) && e.call.CallStart? && Timely(h, e)
    requires StartRel(s, e.now, s', w)
    ensures Sound(s', Note(h, s, e, s', Sampling(w)))
  {
    StartSound(s, h, e.now, s', w, Note(h, s, e, s', Sampling(w)));
  }

  lemma PublishStepSound(s: State, h: History, e: Event, s': State, r: PublicationResult)
    requires Sound(s, h) && e.call.CallPublish? && Timely(h, e)
    requires e.call.window.own ==> e.call.window in h.marks.issued
    requires PublishRel(s, e.call.window, e.call.observation, e.now, s', r)
    ensures Sound(s', Note(h, s, e, s', Publication(r)))
  {
    PublishNoted(s, h, e, s', r);
    PublishSound(s, h, e.call.window, e.call.observation, s', r, e.now, Note(h, s, e, s', Publication(r)));
  }

  lemma AdmitStepSound(s: State, h: History, e: Event, s': State, r: AdmissionResult)
    requires Sound(s, h) && e.call.CallAdmit? && Timely(h, e)
    requires AdmitRel(s, e.call.at, e.call.demand, s', r)
    ensures Sound(s', Note(h, s, e, s', Admission(r)))
  {
    OtherwiseNoted(s, h, e, s', Admission(r));
    AdmitSound(s, h, e.call.at, e.call.demand, s', r, e.now, Note(h, s, e, s', Admission(r)));
  }

  lemma AdminStepSound(s: State, h: History, e: Event, s': State, out: Outcome)
    requires Sound(s, h) && Timely(h, e)
    requires (e.call.CallUpdate? && UpdateRel(s, s')) || (e.call.CallClose? && s' == FailClosed(s, ReasonClosed))
    ensures Sound(s', Note(h, s, e, s', out))
  {
    var h' := Note(h, s, e, s', out);
    OtherwiseNoted(s, h, e, s', out);
    if e.call.CallUpdate? {
      UpdateSound(s, h, s', e.now, h');
    } else if s.closedReason.Some? {
      IdleSound(s, h, e.now, h');
    } else {
      ClosedSound(s, h, ReasonClosed, e.now, h');
    }
  }

  /** Every genuine call keeps a sound controller sound. */
  lemma StepSound(s: State, h: History, e: Event, s': State, out: Outcome, h': History)
    requires Sound(s, h) && Genuine(h, s, e) && StepRel(s, e, s', out) && h' == Note(h, s, e, s', out)
    ensures Sound(s', h')
  {
    if e.call.CallForward? {
      ForwardStepSound(s, h, e, s', out.ok);
    } else if e.call.CallFirstByte? {
      AnswerStepSound(s, h, e, s', out.ok);
    } else if e.call.CallTerminate? {
      EndStepSound(s, h, e, s', out.ok);
    } else if e.call.CallStart? {
      StartStepSound(s, h, e, s', out.window);
    } else if e.call.CallPublish? {
      PublishStepSound(s, h, e, s', out.published);
    } else if e.call.CallAdmit? {
      AdmitStepSound(s, h, e, s', out.result);
    } else {
      AdminStepSound(s, h, e, s', out);
    }
  }

  lemma InitSound(c: Config, start: Time)
    requires Init(c).Some? && start != ZERO_TIME
    ensures Sound(Init(c).value, Past(Begin(c, start)))
  {
    assert OverlayOf(map[]) == NO_OVERLAY;
  }

  /** Every state a run can reach is sound. */
  lemma {:induction false} RunSound(run: Run)
    requires Possible(run)
    ensures Sound(Final(run), Past(run))
  {
    match run
    case Begin(config, start) => InitSound(config, start);
    case Then(before, event) =>
      RunSound(before);
      StepEffect(Final(before), Past(before), event);
      var (s', out) := Step(Final(before), event);
      StepSound(Final(before), Past(before), event, s', out, Past(run));
  }
}
