/** What publishing an observation does to a sound state. */
module PublicationEffects {
  import opened Machine
  import opened Totals
  import opened Exposure
  import TW = TpsWindow
  import opened Policy
  import opened Reservations
  import opened Controller
  import opened ControllerRun
  import opened ControllerSound
  import opened Reconciliation

  function PassOf(s: State, w: SampleWindow, o: Observation, now: Time): Pass {
    Pass(w.eventSequence, o, now, s.leaseDuration)
  }

  predicate Refuses(s: State, w: SampleWindow, o: Observation) {
    || s.closedReason.Some? || !WindowCurrent(s, w) || !ValidObservation(o)
    || (o.runtimeIdentity == s.runtimeIdentity && GoesBack(s, o))
  }

  predicate PublicationExhausted(s: State, o: Observation) {
    s.observationSequence == MAX_UINT64 || (RuntimeReset(s, o) && s.runtimeEpoch == MAX_UINT64)
  }

  function Restarted(s: State, o: Observation): State {
    s.(runtimeEpoch := s.runtimeEpoch + 1, reservations := map[], overlay := NO_OVERLAY,
       sampleSequence := 0, lastPublishedSample := 0, lastExposure := ZERO_SNAPSHOT,
       exposure := EMPTY_LEDGER, tpsWindow := TW.ResetWindow(s.tpsWindow),
       observationSequence := s.observationSequence + 1,
       observation := Some(ObservedState(o, s.observationSequence + 1, 0, 0, 0, 0, 0)))
  }

  /** An accepted sample: reservations reconciled, overlay their from-scratch sum, window consumed. */
  ghost predicate Samples(s: State, w: SampleWindow, o: Observation, now: Time, s': State) {
    && s' == s.(reservations := AfterPass(s.reservations, PassOf(s, w, o, now)),
                overlay := OverlayOf(AfterPass(s.reservations, PassOf(s, w, o, now))),
                lastPublishedSample := w.id,
                lastExposure := w.exposure,
                tpsWindow := s'.tpsWindow,
                observationSequence := s.observationSequence + 1,
                observation := Some(Since(s, o)))
    && s'.overlay.sequenceLiabilities <= MAX_INT64
    && |s'.tpsWindow.buckets| == TW.BUCKETS && RingSound(s')
  }

  ghost predicate PublishRel(s: State, w: SampleWindow, o: Observation, now: Time, s': State, r: PublicationResult) {
    if Refuses(s, w, o) then
      s' == s && !r.accepted
    else if o.runtimeIdentity != s.runtimeIdentity then
      s' == FailClosed(s, ReasonRuntimeIdentityDrift) && !r.accepted
    else if PublicationExhausted(s, o) then
      s' == FailClosed(s, ReasonCounterOverflow) && !r.accepted
    else
      && r.accepted && r.runtimeReset == RuntimeReset(s, o)
      && if RuntimeReset(s, o) then s' == Restarted(s, o) else Samples(s, w, o, now, s')
  }

  /** Between the last published window and any later one both exposures grew, response by no more than
      forwarded: the subtraction never fails and reports exactly the difference. */
  lemma ExposureGrows(s: State, h: History, w: SampleWindow)
    requires LedgerOk(s, h) && WindowsOk(s, h) && IssuedOk(s, h) && s.closedReason.None?
    requires WindowCurrent(s, w) && w in h.marks.issued
    ensures var r := SubtractSnapshot(w.exposure, s.lastExposure);
            && r.Some?
            && Value(r.value.forwarded) == ReportedForwarded(s, w)
            && Value(r.value.response) == ReportedResponse(s, w)
  {
    assert w.id in h.epoch.windows && h.epoch.windows[w.id].window == w;
    var lives, opening := h.epoch.lives, h.epoch.windows[w.id];
    assert ExactWindow(s, h, w.id, opening);
    CompareExact(w.exposure.response, w.exposure.forwarded);
    TotalsBounds(lives, s.exposure.lastEventAt, opening.at, opening.at);
    if s.lastPublishedSample != 0 {
      var last := h.epoch.windows[s.lastPublishedSample];
      assert ExactWindow(s, h, s.lastPublishedSample, last);
      CompareExact(last.window.exposure.response, last.window.exposure.forwarded);
      TotalsBounds(lives, s.exposure.lastEventAt, last.at, opening.at);
    }
    SubtractSnapshotExact(w.exposure, s.lastExposure);
  }

  lemma RingLater(buckets: seq<TW.Bucket>, end: Time, n: nat, end': Time, n': nat)
    requires TW.RingOk(buckets, end, n) && end <= end' && n <= n'
    ensures TW.RingOk(buckets, end', n')
  {
    forall i | 0 <= i < TW.BUCKETS ensures TW.BucketOk(buckets[i], i, end', n') {
      assert TW.BucketOk(buckets[i], i, end, n);
    }
  }

  lemma NewRing(reference: real, end: Time, n: nat)
    ensures TW.RingOk(TW.NewWindow(reference).buckets, end, n)
  {
  }

  /** Whether or not the interval enters the TPS window, the ring stays sound and never fails. */
  lemma RingAfterSample(s: State, o: Observation, exposure: ExposureSnapshot, liabilities: int)
    requires RingSound(s) && |s.tpsWindow.buckets| == TW.BUCKETS && s.observationSequence < MAX_UINT64
    requires s.observation.Some? ==> s.observation.value.observation.observedAt <= o.observedAt
    ensures TW.RingOk(s.tpsWindow.buckets, o.observedAt, s.observationSequence + 1)
    ensures s.observation.Some? && TW.Enabled(s.tpsWindow) ==>
              var (window, ok) := TW.Observe(s.tpsWindow, SampleOf(s, o, exposure, liabilities));
              ok && TW.RingOk(window.buckets, o.observedAt, s.observationSequence + 1)
              && TW.ValidInterval(window.latest) && window.reference == s.tpsWindow.reference
  {
    if s.observation.None? {
      NewRing(s.tpsWindow.reference, o.observedAt, s.observationSequence + 1);
    } else {
      var end := s.observation.value.observation.observedAt;
      RingLater(s.tpsWindow.buckets, end, s.observationSequence, o.observedAt, s.observationSequence + 1);
      if TW.Enabled(s.tpsWindow) {
        TW.ObserveOk(s.tpsWindow, SampleOf(s, o, exposure, liabilities), end, s.observationSequence);
        TW.ObserveKeepsShape(s.tpsWindow, SampleOf(s, o, exposure, liabilities));
      }
    }
  }

  lemma SampleWhenReady(s: State, order: seq<nat>, w: SampleWindow, o: Observation, now: Time, overlay: Overlay, liabilities: int)
    requires Typed(s) && (forall i :: 0 <= i < |order| ==> order[i] in s.reservations) && s.closedReason.None?
    requires SubtractSnapshot(w.exposure, s.lastExposure).Some?
    requires ReconciledOverlay(order, s, w.eventSequence, o, now) == Some((overlay, liabilities))
    requires RingSound(s) && s.observationSequence < MAX_UINT64
    requires s.observation.Some? ==> s.observation.value.observation.observedAt <= o.observedAt
    ensures var (s', r) := PublishSample(s, order, w, o, now);
            && r == PublicationResult(true, false, false, ReasonOpen, s.observationSequence + 1, s.runtimeEpoch)
            && s' == s.(reservations := AfterPass(s.reservations, PassOf(s, w, o, now)), overlay := overlay,
                        lastPublishedSample := w.id, lastExposure := w.exposure, tpsWindow := s'.tpsWindow,
                        observationSequence := s.observationSequence + 1, observation := Some(Since(s, o)))
            && |s'.tpsWindow.buckets| == TW.BUCKETS
            && s'.tpsWindow.reference >= 0.0 && TW.ValidInterval(s'.tpsWindow.latest)
            && TW.RingOk(s'.tpsWindow.buckets, o.observedAt, s.observationSequence + 1)
  {
    RingAfterSample(s, o, SubtractSnapshot(w.exposure, s.lastExposure).value, liabilities);
  }

  predicate TakesSample(s: State, w: SampleWindow, o: Observation) {
    !Refuses(s, w, o) && o.runtimeIdentity == s.runtimeIdentity && !PublicationExhausted(s, o) && !RuntimeReset(s, o)
  }

  lemma PublishWhenReady(s: State, order: seq<nat>, w: SampleWindow, o: Observation, now: Time)
    requires Typed(s) && (forall i :: 0 <= i < |order| ==> order[i] in s.reservations)
    requires TakesSample(s, w, o) ==>
               var (s', r) := PublishSample(s, order, w, o, now);
               r.accepted && !r.runtimeReset && Samples(s, w, o, now, s')
    ensures var (s', r) := Publish(s, order, w, o, now); PublishRel(s, w, o, now, s', r)
  {
  }

  lemma SampleEffect(s: State, h: History, order: seq<nat>, w: SampleWindow, o: Observation, now: Time)
    requires Sound(s, h) && IterationOrder(order, s.reservations) && w.own && w in h.marks.issued
    requires TakesSample(s, w, o)
    ensures var (s', r) := PublishSample(s, order, w, o, now);
            r.accepted && !r.runtimeReset && Samples(s, w, o, now, s')
  {
    ExposureGrows(s, h, w);
    OrderIrrelevant(order, s, PassOf(s, w, o, now));
    SampleWhenReady(s, order, w, o, now,
                    OverlayOf(AfterPass(s.reservations, PassOf(s, w, o, now))),
                    Total(s.reservations, CountedBy(w.eventSequence)));
  }

  /** Publication of a genuine window: refused unchanged, closed for identity drift or an exhausted
      counter, a restart, or an exact sample. */
  lemma PublishEffect(s: State, h: History, order: seq<nat>, w: SampleWindow, o: Observation, now: Time)
    requires Sound(s, h) && IterationOrder(order, s.reservations)
    requires w.own ==> w in h.marks.issued
    ensures var (s', r) := Publish(s, order, w, o, now); PublishRel(s, w, o, now, s', r)
  {
    if TakesSample(s, w, o) {
      SampleEffect(s, h, order, w, o, now);
    }
    PublishWhenReady(s, order, w, o, now);
  }
}
