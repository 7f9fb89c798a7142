/** The TPS window in runs of the controller: in every run it is the ring over all samples since the last
    reset, and a snapshot reads what the unbounded list of those samples adds up to. */
module ControllerWindow {
  import opened Machine
  import opened Totals
  import opened Exposure
  import TW = TpsWindow
  import opened Policy
  import opened Reservations
  import opened Controller
  import opened ControllerRun
  import opened ControllerSound
  import opened Reconciliation
  import opened PublicationEffects
  import opened ControllerTheorems

  // ---------- one publication ----------

  /** The interval since the last observation is a sample of the current policy's window. */
  predicate EntersWindow(s: State, w: SampleWindow) {
    s.observation.Some? && w.tpsPolicyEpoch == s.tpsPolicyEpoch && TW.Enabled(s.tpsWindow)
  }

  /** The sample a publication takes: the interval, the tokens it generated, and the exact exposure and
      liabilities of that interval. */
  ghost function SampleTaken(s: State, w: SampleWindow, o: Observation): TW.Sample
    requires s.observation.Some?
  {
    var exposure := SubtractSnapshot(w.exposure, s.lastExposure);
    SampleOf(s, o, if exposure.Some? then exposure.value else ZERO_SNAPSHOT,
             Total(s.reservations, CountedBy(w.eventSequence)))
  }

  lemma WindowWhenReady(s: State, order: seq<nat>, w: SampleWindow, o: Observation, now: Time, overlay: Overlay)
    requires Typed(s) && (forall i :: 0 <= i < |order| ==> order[i] in s.reservations) && s.closedReason.None?
    requires SubtractSnapshot(w.exposure, s.lastExposure).Some?
    requires ReconciledOverlay(order, s, w.eventSequence, o, now)
          == Some((overlay, Total(s.reservations, CountedBy(w.eventSequence))))
    requires EntersWindow(s, w) ==> TW.Observe(s.tpsWindow, SampleTaken(s, w, o)).1
    ensures var (s', r) := PublishSample(s, order, w, o, now);
            s'.tpsWindow == if EntersWindow(s, w) then TW.Observe(s.tpsWindow, SampleTaken(s, w, o)).0 else s.tpsWindow
  {
  }

  /** An accepted sample enters the window exactly as observed, or leaves the window as it was. */
  lemma SampleEntersWindow(s: State, h: History, order: seq<nat>, w: SampleWindow, o: Observation, now: Time)
    requires Sound(s, h) && IterationOrder(order, s.reservations) && w.own && w in h.marks.issued
    requires TakesSample(s, w, o)
    ensures var (s', r) := Publish(s, order, w, o, now);
            s'.tpsWindow == if EntersWindow(s, w) then TW.Observe(s.tpsWindow, SampleTaken(s, w, o)).0 else s.tpsWindow
  {
    ExposureGrows(s, h, w);
    OrderIrrelevant(order, s, PassOf(s, w, o, now));
    RingAfterSample(s, o, SubtractSnapshot(w.exposure, s.lastExposure).value,
                    Total(s.reservations, CountedBy(w.eventSequence)));
    WindowWhenReady(s, order, w, o, now, OverlayOf(AfterPass(s.reservations, PassOf(s, w, o, now))));
    PublishIsSample(s, order, w, o, now);
  }

  lemma PublishIsSample(s: State, order: seq<nat>, w: SampleWindow, o: Observation, now: Time)
    requires Typed(s) && (forall i :: 0 <= i < |order| ==> order[i] in s.reservations) && TakesSample(s, w, o)
    ensures Publish(s, order, w, o, now) == PublishSample(s, order, w, o, now)
  {
  }

  /** Every publication says why it was refused, or that it was taken, and with which sequence and epoch. */
  lemma PublicationReasons(s: State, h: History, order: seq<nat>, w: SampleWindow, o: Observation, now: Time)
    requires Sound(s, h) && IterationOrder(order, s.reservations) && (w.own ==> w in h.marks.issued)
    ensures var (s', r) := Publish(s, order, w, o, now);
            && r.runtimeEpoch == s'.runtimeEpoch
            && r.reason == (if s.closedReason.Some? then s.closedReason.value
                            else if Refuses(s, w, o) then ReasonObservationInvalid
                            else if o.runtimeIdentity != s.runtimeIdentity then ReasonRuntimeIdentityDrift
                            else if PublicationExhausted(s, o) then ReasonCounterOverflow
                            else ReasonOpen)
            && (r.identityDrift <==> r.reason == ReasonRuntimeIdentityDrift && s.closedReason.None?)
            && r.observationSequence == if r.accepted then s'.observationSequence else 0
  {
    if TakesSample(s, w, o) {
      ExposureGrows(s, h, w);
      OrderIrrelevant(order, s, PassOf(s, w, o, now));
      SampleWhenReady(s, order, w, o, now, OverlayOf(AfterPass(s.reservations, PassOf(s, w, o, now))),
                      Total(s.reservations, CountedBy(w.eventSequence)));
      PublishIsSample(s, order, w, o, now);
    } else {
      RefusalReasons(s, order, w, o, now);
    }
  }

  lemma RefusalReasons(s: State, order: seq<nat>, w: SampleWindow, o: Observation, now: Time)
    requires Typed(s) && (forall i :: 0 <= i < |order| ==> order[i] in s.reservations) && !TakesSample(s, w, o)
    ensures var (s', r) := Publish(s, order, w, o, now);
            && r.runtimeEpoch == s'.runtimeEpoch
            && r.reason == (if s.closedReason.Some? then s.closedReason.value
                            else if Refuses(s, w, o) then ReasonObservationInvalid
                            else if o.runtimeIdentity != s.runtimeIdentity then ReasonRuntimeIdentityDrift
                            else if PublicationExhausted(s, o) then ReasonCounterOverflow
                            else ReasonOpen)
            && (r.identityDrift <==> r.reason == ReasonRuntimeIdentityDrift && s.closedReason.None?)
            && r.observationSequence == if r.accepted then s'.observationSequence else 0
  {
  }

  // ---------- the samples of a run ----------

  /** The samples observed since the last close, runtime reset or change of reference. */
  ghost function SampleLog(run: Run): seq<TW.Sample>
    requires Possible(run)
  {
    match run
    case Begin(_, _) => []
    case Then(before, e) => NextLog(SampleLog(before), Final(before), e, Final(run))
  }

  ghost function NextLog(log: seq<TW.Sample>, s: State, e: Event, s': State): seq<TW.Sample> {
    if s'.closedReason.Some? || s'.runtimeEpoch != s.runtimeEpoch || s'.tpsPolicyEpoch != s.tpsPolicyEpoch then []
    else if e.call.CallPublish? && TakesSample(s, e.call.window, e.call.observation) && EntersWindow(s, e.call.window) then
      log + [SampleTaken(s, e.call.window, e.call.observation)]
    else log
  }

  /** The window is the ring over the logged samples, which follow each other up to the last observation. */
  ghost predicate WindowLogged(s: State, log: seq<TW.Sample>) {
    && s.tpsWindow == TW.Observed(s.tpsWindow.reference, log).0
    && TW.Chronological(log) && TW.Disjoint(log) && |log| <= s.observationSequence
    && (s.closedReason.Some? || s.observation.None? ==> log == [])
    && (s.observation.Some? ==>
          forall i :: 0 <= i < |log| ==> log[i].end <= s.observation.value.observation.observedAt)
  }

  lemma FreshLogged(s: State)
    requires s.tpsWindow == TW.NewWindow(s.tpsWindow.reference)
    ensures WindowLogged(s, [])
  {
  }

  /** A sample starts where the last one could have ended. */
  lemma SampleLogged(s: State, log: seq<TW.Sample>, p: TW.Sample, s': State)
    requires WindowLogged(s, log) && s.observation.Some? && s'.observation.Some? && s'.closedReason.None?
    requires |s.tpsWindow.buckets| == TW.BUCKETS
    requires p.start == s.observation.value.observation.observedAt <= p.end
    requires p.end == s'.observation.value.observation.observedAt && s'.observationSequence == s.observationSequence + 1
    requires s'.tpsWindow == TW.Observe(s.tpsWindow, p).0
    ensures WindowLogged(s', log + [p])
  {
    var grown := log + [p];
    assert grown[..|grown| - 1] == log;
    TW.ObserveKeepsShape(s.tpsWindow, p);
    assert TW.Observed(s.tpsWindow.reference, grown).0 == TW.Observe(s.tpsWindow, p).0;
  }

  lemma LaterLogged(s: State, log: seq<TW.Sample>, s': State)
    requires WindowLogged(s, log) && s'.tpsWindow == s.tpsWindow && s'.closedReason == s.closedReason
    requires s.observationSequence <= s'.observationSequence
    requires s.observation.Some? ==>
               && s'.observation.Some?
               && s.observation.value.observation.observedAt <= s'.observation.value.observation.observedAt
    ensures WindowLogged(s', log)
  {
  }

  /** Closing and a new reference start an empty window; otherwise it stays with its observation. */
  predicate KeepsWindow(s: State, s': State) {
    if s'.closedReason.Some? || s'.tpsPolicyEpoch != s.tpsPolicyEpoch then
      s'.tpsWindow == TW.NewWindow(s'.tpsWindow.reference)
    else
      && s'.runtimeEpoch == s.runtimeEpoch && s'.tpsWindow == s.tpsWindow
      && s'.observation == s.observation && s'.observationSequence == s.observationSequence
  }

  lemma FailClosedClears(s: State, reason: Reason)
    requires s.closedReason.None?
    ensures KeepsWindow(s, FailClosed(s, reason)) && FailClosed(s, reason).closedReason.Some?
  {
  }

  lemma UpdateKeepsWindow(s: State, u: PolicyUpdate)
    requires s.closedReason.None?
    ensures KeepsWindow(s, UpdatePolicy(s, u).0)
  {
  }

  /** No call but a publication puts a sample into the window. */
  lemma CallKeepsWindow(s: State, e: Event, s': State, out: Outcome)
    requires Typed(s) && s.closedReason.None? && StepRel(s, e, s', out) && !e.call.CallPublish?
    requires e.call.CallUpdate? ==> s' == UpdatePolicy(s, e.call.update).0
    ensures KeepsWindow(s, s')
  {
    FailClosedClears(s, ReasonCounterOverflow);
    FailClosedClears(s, ReasonResourceExhausted);
    FailClosedClears(s, ReasonClosed);
    if e.call.CallUpdate? {
      UpdateKeepsWindow(s, e.call.update);
    }
  }

  lemma ClosedStays(s: State, e: Event, s': State, out: Outcome)
    requires Typed(s) && s.closedReason.Some? && StepRel(s, e, s', out)
    ensures s' == s
  {
  }

  /** An accepted sample with the window it leaves. */
  lemma SampleStepLogged(s: State, log: seq<TW.Sample>, w: SampleWindow, o: Observation, now: Time, s': State)
    requires s.closedReason.None? && WindowLogged(s, log) && |s.tpsWindow.buckets| == TW.BUCKETS
    requires TakesSample(s, w, o) && Samples(s, w, o, now, s')
    requires s'.tpsWindow == if EntersWindow(s, w) then TW.Observe(s.tpsWindow, SampleTaken(s, w, o)).0 else s.tpsWindow
    ensures WindowLogged(s', if EntersWindow(s, w) then log + [SampleTaken(s, w, o)] else log)
  {
    if EntersWindow(s, w) {
      SampleLogged(s, log, SampleTaken(s, w, o), s');
    } else {
      LaterLogged(s, log, s');
    }
  }

  /** Every other publication leaves the state, closes, or restarts with an empty window. */
  lemma OtherPublicationLogged(s: State, log: seq<TW.Sample>, w: SampleWindow, o: Observation, now: Time,
                               s': State, r: PublicationResult)
    requires s.closedReason.None? && WindowLogged(s, log)
    requires !TakesSample(s, w, o) && PublishRel(s, w, o, now, s', r)
    ensures WindowLogged(s', if s'.closedReason.Some? || s'.runtimeEpoch != s.runtimeEpoch then [] else log)
    ensures s'.closedReason.None? && s'.runtimeEpoch == s.runtimeEpoch ==> s'.tpsPolicyEpoch == s.tpsPolicyEpoch
  {
    if !Refuses(s, w, o) {
      FreshLogged(s');
    }
  }

  lemma PublicationLogged(s: State, h: History, log: seq<TW.Sample>, e: Event, s': State, r: PublicationResult)
    requires Sound(s, h) && s.closedReason.None? && WindowLogged(s, log)
    requires Genuine(h, s, e) && e.call.CallPublish?
    requires (s', r) == Publish(s, e.call.order, e.call.window, e.call.observation, e.now)
    requires PublishRel(s, e.call.window, e.call.observation, e.now, s', r)
    ensures WindowLogged(s', NextLog(log, s, e, s'))
  {
    var w, o := e.call.window, e.call.observation;
    if TakesSample(s, w, o) {
      SampleEntersWindow(s, h, e.call.order, w, o, e.now);
      SampleStepLogged(s, log, w, o, e.now, s');
    } else {
      OtherPublicationLogged(s, log, w, o, e.now, s', r);
    }
  }

  /** Every step of a run keeps the window equal to the ring over the logged samples. */
  lemma StepLogged(s: State, h: History, log: seq<TW.Sample>, e: Event, s': State, out: Outcome)
    requires Sound(s, h) && WindowLogged(s, log)
    requires Genuine(h, s, e) && (s', out) == Step(s, e) && StepRel(s, e, s', out)
    ensures WindowLogged(s', NextLog(log, s, e, s'))
  {
    if s.closedReason.Some? {
      ClosedStays(s, e, s', out);
    } else if e.call.CallPublish? {
      PublicationLogged(s, h, log, e, s', out.published);
    } else {
      CallKeepsWindow(s, e, s', out);
      if s'.closedReason.Some? || s'.tpsPolicyEpoch != s.tpsPolicyEpoch { FreshLogged(s'); } else { LaterLogged(s, log, s'); }
    }
  }

  lemma {:induction false} RunLogged(run: Run)
    requires Possible(run)
    ensures WindowLogged(Final(run), SampleLog(run))
  {
    if run.Then? {
      var s, h, e := Final(run.before), Past(run.before), run.event;
      RunLogged(run.before);
      RunSound(run.before);
      StepEffect(s, h, e);
      StepLogged(s, h, SampleLog(run.before), e, Step(s, e).0, Step(s, e).1);
    }
  }

  // ---------- what a reader sees in a run ----------

  /** In every run a snapshot taken after the last observation reads exactly the sums of all logged
      samples clipped to the window, and its active time stays below 61 s. */
  lemma RunSnapshotIsHistory(run: Run, now: Time)
    requires Possible(run) && TW.Enabled(Final(run).tpsWindow) && now != ZERO_TIME
    requires var o := Final(run).observation; o.Some? ==> o.value.observation.observedAt <= now
    ensures var w := Final(run).tpsWindow;
            && TW.Snapshot(w, now) == TW.SnapshotOf(w.reference, w.latest, Some(TW.HistorySums(SampleLog(run), now)))
            && TW.Snapshot(w, now).sums == TW.HistorySums(SampleLog(run), now)
            && TW.Nonnegative(TW.HistorySums(SampleLog(run), now))
            && TW.Snapshot(w, now).sums.activeSeconds < 61.0
  {
    RunLogged(run);
    RunSound(run);
    var reference, log := Final(run).tpsWindow.reference, SampleLog(run);
    TW.SnapshotIsHistory(reference, log, now);
    TW.ActiveTimeBelow61(reference, log, now);
  }

  /** Every decision made on a usable state is made on those sums. */
  lemma DecisionsSeeHistory(run: Run, at: Time)
    requires Possible(run) && TW.Enabled(Final(run).tpsWindow) && StateAt(Final(run), at).2
    ensures var state := StateAt(Final(run), at).0;
            && state.tps.enabled && state.tps.sums == TW.HistorySums(SampleLog(run), at)
            && state.tps.sums.activeSeconds < 61.0
  {
    RunSnapshotIsHistory(run, at);
  }
}
