/** What a publication answers, what it leaves as the observed state, and what it adds to the TPS window, in
    terms of the observation published and the one before. */
module PublicationMeaning {
  import opened Machine
  import opened Totals
  import opened Exposure
  import TW = TpsWindow
  import opened Policy
  import opened Reservations
  import opened Controller
  import opened ControllerRun
  import opened ControllerSound
  import opened Reconciliation
  import opened PublicationEffects
  import opened ControllerTheorems
  import opened ControllerWindow

  // ---------- the answer ----------

  /** A window of this controller and epoch, later than the last one published. */
  predicate RightWindow(s: State, w: SampleWindow) {
    w.own && w.runtimeEpoch == s.runtimeEpoch && s.lastPublishedSample < w.id && w.id <= s.sampleSequence
  }

  predicate WellMeasured(o: Observation) {
    && o.runtimeIdentity != "" && o.observedAt != -62_135_596_800_000_000_000 && o.maximumAge > 0
    && o.running >= 0 && o.waiting >= 0 && o.running + o.waiting <= 0x7FFF_FFFF_FFFF_FFFF
    && o.runtimeStartTime >= 0.0
  }

  /** Older than the last observation, or no longer telling when the backend started. */
  predicate Backwards(last: Observation, o: Observation) {
    o.observedAt < last.observedAt || (last.runtimeStartTime > 0.0 && o.runtimeStartTime == 0.0)
  }

  /** The backend says it started at another time, or a counter fell. */
  predicate StartedAgain(last: Observation, o: Observation) {
    || (last.runtimeStartTime > 0.0 && o.runtimeStartTime > 0.0 && last.runtimeStartTime != o.runtimeStartTime)
    || last.generationTokensTotal > o.generationTokensTotal
    || last.preemptionsTotal > o.preemptionsTotal
  }

  predicate AfterRestart(s: State, o: Observation) {
    s.observation.Some? && StartedAgain(s.observation.value.observation, o)
  }

  lemma RefusesExactly(s: State, w: SampleWindow, o: Observation)
    requires s.closedReason.None?
    ensures Refuses(s, w, o) <==>
              || !RightWindow(s, w) || !WellMeasured(o)
              || (o.runtimeIdentity == s.runtimeIdentity
                  && s.observation.Some? && Backwards(s.observation.value.observation, o))
    ensures RuntimeReset(s, o) <==> AfterRestart(s, o)
  {
  }

  /** Refused unchanged unless window and observation are good; then identity, order and counters decide. */
  lemma AnswerExactly(s: State, h: History, order: seq<nat>, w: SampleWindow, o: Observation, now: Time)
    requires Sound(s, h) && s.closedReason.None? && IterationOrder(order, s.reservations) && (w.own ==> w in h.marks.issued)
    ensures var (s', r) := Publish(s, order, w, o, now);
            var good := RightWindow(s, w) && WellMeasured(o);
            var same := o.runtimeIdentity == s.runtimeIdentity;
            var later := s.observation.None? || !Backwards(s.observation.value.observation, o);
            var room := s.observationSequence < 0xFFFF_FFFF_FFFF_FFFF
                        && (AfterRestart(s, o) ==> s.runtimeEpoch < 0xFFFF_FFFF_FFFF_FFFF);
            && (r.accepted <==> good && same && later && room)
            && (r.runtimeReset <==> r.accepted && AfterRestart(s, o))
            && (r.reason == ReasonOpen <==> r.accepted)
            && (r.reason == ReasonObservationInvalid <==> !good || (same && !later))
            && (r.reason == ReasonRuntimeIdentityDrift <==> good && !same)
            && (r.reason == ReasonCounterOverflow <==> good && same && later && !room)
            && (r.identityDrift <==> good && !same)
            && (s'.closedReason.Some? <==> good && (!same || (later && !room)))
            && (r.reason == ReasonObservationInvalid ==> s' == s)
  {
    RefusesExactly(s, w, o);
    PublicationReasons(s, h, order, w, o, now);
    PublishEffect(s, h, order, w, o, now);
    ClosesByRel(s, w, o, now, Publish(s, order, w, o, now).0, Publish(s, order, w, o, now).1);
  }

  lemma ClosesByRel(s: State, w: SampleWindow, o: Observation, now: Time, s': State, r: PublicationResult)
    requires s.closedReason.None? && PublishRel(s, w, o, now, s', r)
    ensures r.accepted <==> !Refuses(s, w, o) && o.runtimeIdentity == s.runtimeIdentity && !PublicationExhausted(s, o)
    ensures r.accepted ==> r.runtimeReset == RuntimeReset(s, o)
    ensures s'.closedReason.Some? <==>
              !Refuses(s, w, o) && (o.runtimeIdentity != s.runtimeIdentity || PublicationExhausted(s, o))
    ensures Refuses(s, w, o) ==> s' == s
  {
  }

  // ---------- the observed state ----------

  /** The observation itself, and what changed since the last one. */
  predicate Observes(last: Option<ObservedState>, o: Observation, sequence: nat, v: ObservedState) {
    && v.observation == o && v.sequence == sequence
    && if last.None? then
         v.generationDelta == 0 && v.preemptionDelta == 0 && v.interval == 0 && v.previousRunning == 0 && v.previousWaiting == 0
       else
         var before := last.value.observation;
         && v.generationDelta == o.generationTokensTotal - before.generationTokensTotal
         && v.preemptionDelta == o.preemptionsTotal - before.preemptionsTotal
         && (o.observedAt - before.observedAt <= 0x7FFF_FFFF_FFFF_FFFF ==> v.interval == o.observedAt - before.observedAt)
         && (o.observedAt - before.observedAt > 0x7FFF_FFFF_FFFF_FFFF ==> v.interval == 0x7FFF_FFFF_FFFF_FFFF)
         && v.previousRunning == before.running && v.previousWaiting == before.waiting
  }

  /** An accepted publication leaves its observation, with the differences to the last one; after a restart
      there is nothing to compare with. */
  lemma ObservedExactly(s: State, h: History, order: seq<nat>, w: SampleWindow, o: Observation, now: Time)
    requires Sound(s, h) && IterationOrder(order, s.reservations) && (w.own ==> w in h.marks.issued)
    ensures var (s', r) := Publish(s, order, w, o, now);
            if r.accepted then
              && s'.observationSequence == s.observationSequence + 1 == r.observationSequence
              && s'.observation.Some?
              && Observes(if r.runtimeReset then None else s.observation, o, s'.observationSequence, s'.observation.value)
              && s'.runtimeEpoch == (if r.runtimeReset then s.runtimeEpoch + 1 else s.runtimeEpoch)
              && (if r.runtimeReset then
                    s'.reservations == map[] && s'.sampleSequence == 0 && s'.lastPublishedSample == 0
                  else
                    s'.lastPublishedSample == w.id && s'.lastExposure == w.exposure && s'.sampleSequence == s.sampleSequence)
            else
              s'.observation == s.observation && s'.observationSequence == s.observationSequence
  {
    PublishEffect(s, h, order, w, o, now);
    PublicationReasons(s, h, order, w, o, now);
  }

  // ---------- the sample ----------

  /** Sequences of a request whose forwarding the window saw. */
  function SeenForwarded(eventSequence: nat): Reservation -> int {
    (r: Reservation) => if r.forwardedSequence >= 1 && r.forwardedSequence <= eventSequence then r.demand.decodeSequences else 0
  }

  /** The sample between two observations: their instants, their running counts, the tokens generated in
      between, the sequences forwarded by the window, and the exposure since the last published window. */
  ghost predicate SampleReads(s: State, w: SampleWindow, o: Observation, p: TW.Sample)
    requires s.observation.Some?
  {
    var before := s.observation.value.observation;
    && p.start == before.observedAt && p.end == o.observedAt && p.maximumInterval == o.maximumAge
    && p.generatedTokens == o.generationTokensTotal - before.generationTokensTotal
    && p.previousRunning == before.running && p.running == o.running
    && p.forwardedLiabilities == Total(s.reservations, SeenForwarded(w.eventSequence))
    && p.localExposureMeasured
    && p.localForwardedSeconds * 1_000_000_000.0
       == (Value(w.exposure.forwarded) - Value(s.lastExposure.forwarded)) as real
    && p.localResponseSeconds * 1_000_000_000.0
       == (Value(w.exposure.response) - Value(s.lastExposure.response)) as real
  }

  lemma SampleExactly(s: State, h: History, w: SampleWindow, o: Observation)
    requires LedgerOk(s, h) && WindowsOk(s, h) && IssuedOk(s, h) && s.closedReason.None?
    requires w.own && w in h.marks.issued && TakesSample(s, w, o) && s.observation.Some?
    ensures SampleReads(s, w, o, SampleTaken(s, w, o))
  {
    ExposureGrows(s, h, w);
    TotalSame(s.reservations, CountedBy(w.eventSequence), SeenForwarded(w.eventSequence));
  }

  // ---------- runs ----------

  /** The publication call of an event was accepted. */
  ghost predicate Accepts(s: State, e: Event)
    requires Typed(s) && Enabled(s, e.call)
  {
    e.call.CallPublish? && Publish(s, e.call.order, e.call.window, e.call.observation, e.now).1.accepted
  }

  ghost predicate Restarts(s: State, e: Event)
    requires Typed(s) && Enabled(s, e.call)
  {
    e.call.CallPublish? && Publish(s, e.call.order, e.call.window, e.call.observation, e.now).1.runtimeReset
  }

  /** Counter totals at the first observation since the backend last started, and the differences reported
      since then, added up. */
  datatype Progress = Progress(firstTokens: nat, firstPreemptions: nat, tokens: int, preemptions: int)

  ghost function Reported(run: Run): Progress
    requires Possible(run)
  {
    match run
    case Begin(_, _) => Progress(0, 0, 0, 0)
    case Then(before, e) =>
      if !Accepts(Final(before), e) then Reported(before)
      else if Restarts(Final(before), e) || Final(before).observation.None? then
        Progress(e.call.observation.generationTokensTotal, e.call.observation.preemptionsTotal, 0, 0)
      else
        var p := Reported(before);
        var v := Final(run).observation;
        if v.None? then p
        else p.(tokens := p.tokens + v.value.generationDelta, preemptions := p.preemptions + v.value.preemptionDelta)
  }

  ghost predicate Adds(s: State, p: Progress) {
    s.observation.Some? ==>
      var o := s.observation.value.observation;
      o.generationTokensTotal == p.firstTokens + p.tokens && o.preemptionsTotal == p.firstPreemptions + p.preemptions
  }

  /** Only an accepted publication changes the observed state. */
  lemma OthersKeepObservation(s: State, e: Event, s': State, out: Outcome)
    requires Typed(s) && StepRel(s, e, s', out) && !e.call.CallPublish?
    ensures s'.observation == s.observation
  {
  }

  lemma StepAdds(s: State, h: History, e: Event, p: Progress)
    requires Sound(s, h) && Genuine(h, s, e) && e.call.CallPublish? && Adds(s, p)
    ensures var s' := Publish(s, e.call.order, e.call.window, e.call.observation, e.now).0;
            var o := e.call.observation;
            if !Accepts(s, e) then Adds(s', p)
            else if Restarts(s, e) || s.observation.None? then
              Adds(s', Progress(o.generationTokensTotal, o.preemptionsTotal, 0, 0))
            else
              s'.observation.Some? && Adds(s', p.(tokens := p.tokens + s'.observation.value.generationDelta,
                                                  preemptions := p.preemptions + s'.observation.value.preemptionDelta))
  {
    ObservedExactly(s, h, e.call.order, e.call.window, e.call.observation, e.now);
  }

  /** In every run, since the backend last started, the reported generation differences add up to exactly the
      tokens its counter grew by, and the preemption differences to the preemptions. */
  lemma {:induction false} DeltasAddUp(run: Run)
    requires Possible(run)
    ensures Adds(Final(run), Reported(run))
  {
    if run.Then? {
      var s, h, e := Final(run.before), Past(run.before), run.event;
      DeltasAddUp(run.before);
      RunSound(run.before);
      if e.call.CallPublish? {
        StepAdds(s, h, e, Reported(run.before));
      } else {
        StepEffect(s, h, e);
        OthersKeepObservation(s, e, Step(s, e).0, Step(s, e).1);
      }
    }
  }

  /** One more sample, read off the two observations, if the window belongs to the current policy and a
      reference is set; none otherwise. */
  ghost predicate Logs(s: State, w: SampleWindow, o: Observation, log: seq<TW.Sample>, log': seq<TW.Sample>) {
    if s.observation.Some? && w.tpsPolicyEpoch == s.tpsPolicyEpoch && s.tpsWindow.reference > 0.0 then
      |log'| == |log| + 1 && log'[..|log|] == log && SampleReads(s, w, o, log'[|log|])
    else
      log' == log
  }

  /** In every run an accepted publication without a restart logs so. */
  lemma PublicationLogs(before: Run, e: Event)
    requires Possible(before) && Possible(Then(before, e)) && e.call.CallPublish?
    requires Accepts(Final(before), e) && !Restarts(Final(before), e)
    ensures Logs(Final(before), e.call.window, e.call.observation, SampleLog(before), SampleLog(Then(before, e)))
  {
    RunSound(before);
    LogsSample(Final(before), Past(before), e, SampleLog(before));
  }

  lemma LogsSample(s: State, h: History, e: Event, log: seq<TW.Sample>)
    requires Sound(s, h) && Genuine(h, s, e) && e.call.CallPublish? && Accepts(s, e) && !Restarts(s, e)
    ensures Logs(s, e.call.window, e.call.observation, log, NextLog(log, s, e, Step(s, e).0))
  {
    TakenWhenAccepted(s, h, e);
    if EntersWindow(s, e.call.window) {
      SampleExactly(s, h, e.call.window, e.call.observation);
    }
  }

  lemma TakenWhenAccepted(s: State, h: History, e: Event)
    requires Sound(s, h) && Genuine(h, s, e) && e.call.CallPublish? && Accepts(s, e) && !Restarts(s, e)
    ensures TakesSample(s, e.call.window, e.call.observation) && e.call.window.own
    ensures var s' := Step(s, e).0;
            s'.closedReason.None? && s'.runtimeEpoch == s.runtimeEpoch && s'.tpsPolicyEpoch == s.tpsPolicyEpoch
  {
    AcceptedRel(s, h, e);
    TakenIfRel(s, e);
  }

  lemma AcceptedRel(s: State, h: History, e: Event)
    requires Sound(s, h) && Genuine(h, s, e) && e.call.CallPublish?
    ensures var (s', r) := Publish(s, e.call.order, e.call.window, e.call.observation, e.now);
            PublishRel(s, e.call.window, e.call.observation, e.now, s', r)
  {
    PublishEffect(s, h, e.call.order, e.call.window, e.call.observation, e.now);
  }

  lemma TakenIfRel(s: State, e: Event)
    requires Typed(s) && Enabled(s, e.call) && e.call.CallPublish? && Accepts(s, e) && !Restarts(s, e)
    requires var (s', r) := Publish(s, e.call.order, e.call.window, e.call.observation, e.now);
             PublishRel(s, e.call.window, e.call.observation, e.now, s', r)
    ensures TakesSample(s, e.call.window, e.call.observation) && e.call.window.own
    ensures var s' := Step(s, e).0;
            s'.closedReason.None? && s'.runtimeEpoch == s.runtimeEpoch && s'.tpsPolicyEpoch == s.tpsPolicyEpoch
  {
    var (s', r) := Publish(s, e.call.order, e.call.window, e.call.observation, e.now);
    TakenByRel(s, e.call.window, e.call.observation, e.now, s', r);
  }

  lemma TakenByRel(s: State, w: SampleWindow, o: Observation, now: Time, s': State, r: PublicationResult)
    requires PublishRel(s, w, o, now, s', r) && r.accepted && !r.runtimeReset
    ensures TakesSample(s, w, o) && w.own
    ensures s'.closedReason.None? && s'.runtimeEpoch == s.runtimeEpoch && s'.tpsPolicyEpoch == s.tpsPolicyEpoch
  {
  }
}
