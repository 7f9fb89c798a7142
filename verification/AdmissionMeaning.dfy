/** When a demand is admitted, in terms of the last observation, the requests held and the samples logged. */
module AdmissionMeaning {
  import opened Machine
  import TW = TpsWindow
  import opened TpsMeaning
  import opened Policy
  import opened PolicyMeaning
  import opened Reservations
  import opened Controller
  import opened ControllerRun
  import opened ControllerSound
  import opened ControllerEffects
  import opened ControllerTheorems
  import opened ControllerWindow

  // ---------- the state a decision sees ----------

  /** Open, observed, and the observation neither from the future nor older than it may be. */
  predicate Fresh(s: State, at: Time) {
    && s.closedReason.None? && s.observation.Some? && at != -62_135_596_800_000_000_000
    && var o := s.observation.value.observation;
       o.observedAt <= at && (at - o.observedAt <= o.maximumAge || o.maximumAge >= 0x7FFF_FFFF_FFFF_FFFF)
  }

  /** The overlay, the observation and the window, each figure in its place. */
  predicate Shows(s: State, at: Time, state: ProjectedState)
    requires s.observation.Some?
  {
    var v := s.observation.value;
    && state.unobservedSequences == s.overlay.unobservedSequences
    && state.coldSheddablePending == s.overlay.coldSheddablePending
    && state.sequenceLiabilities == s.overlay.sequenceLiabilities
    && state.liveReservations == s.overlay.liveReservations
    && state.residualDebts == s.overlay.residualDebts
    && state.rawRunning == v.observation.running && state.rawWaiting == v.observation.waiting
    && state.previousRawRunning == v.previousRunning && state.previousRawWaiting == v.previousWaiting
    && state.generationDelta == v.generationDelta && state.preemptionDelta == v.preemptionDelta
    && state.observationInterval == v.interval
    && (state.observationIntervalValid <==> v.interval > 0 && v.interval <= v.observation.maximumAge)
    && (at != ZERO_TIME && v.observation.observedAt <= at ==> state.tps == TW.Snapshot(s.tpsWindow, at))
    && (at == ZERO_TIME || at < v.observation.observedAt ==> !state.tps.enabled && !state.tps.ready)
  }

  lemma StateExactly(s: State, h: History, at: Time)
    requires Sound(s, h)
    ensures var (state, reason, ok) := StateAt(s, at);
            && (ok <==> Fresh(s, at))
            && reason == (if s.closedReason.Some? then s.closedReason.value
                          else if s.observation.None? then ReasonObservationMissing
                          else if ok then ReasonOpen else ReasonObservationStale)
            && (s.closedReason.None? && s.observation.Some? ==> Shows(s, at, state))
  {
    if s.closedReason.None? && s.observation.Some? { ProjectionExists(s); }
  }

  // ---------- the samples a decision rests on ----------

  /** The latest sample: whether it counts and shows sequence time, its tokens, and that time. */
  datatype LastSample = LastSample(counts: bool, tokens: nat, seconds: real)

  function Weigh(p: TW.Sample): LastSample {
    LastSample(TW.Qualified(p) && TW.SequenceSecondsTotal(p) > 0.0, p.generatedTokens, TW.SequenceSecondsTotal(p))
  }

  function LastOf(log: seq<TW.Sample>): LastSample {
    if log == [] then LastSample(false, 0, 0.0) else Weigh(log[|log| - 1])
  }

  /** Four samples and eight sequence seconds in the window, and the latest sample among what counts. */
  predicate Evidence(h: TW.Sums, last: LastSample) {
    h.sequenceSamples >= 4 && h.sequenceSeconds >= 8.0 && last.counts
  }

  /** Tokens per sequence second over the whole window reach the reference. */
  predicate WindowReaches(h: TW.Sums, reference: real) {
    h.sequenceTokens >= reference * h.sequenceSeconds
  }

  predicate LatestReaches(last: LastSample, reference: real) {
    last.tokens as real >= reference * last.seconds
  }

  /** What the window says of its latest sample is what the last logged sample says. */
  predicate Agrees(latest: TW.IntervalSnapshot, last: LastSample) {
    && (latest.qualified <==> last.counts)
    && (latest.qualified ==>
          latest.sequenceSeconds == last.seconds && latest.meanActiveTPS * last.seconds == last.tokens as real)
  }

  lemma LatestOfSample(w: TW.Window, p: TW.Sample)
    requires TW.Enabled(w) && |w.buckets| == TW.BUCKETS
    ensures Agrees(TW.Observe(w, p).0.latest, Weigh(p))
  {
    LatestOfObserve(w, p);
    if TW.Qualified(p) { WeighAgrees(p); }
  }

  lemma WeighAgrees(p: TW.Sample)
    requires TW.Qualified(p)
    ensures Agrees(TW.Latest(p), Weigh(p))
  {
    if TW.SequenceSecondsTotal(p) > 0.0 { LatestFigures(p, TW.SequenceSecondsTotal(p)); }
  }

  lemma LatestOfLog(reference: real, log: seq<TW.Sample>)
    requires reference > 0.0
    ensures Agrees(TW.Observed(reference, log).0.latest, LastOf(log))
  {
    if log != [] {
      LatestOfSample(TW.Observed(reference, log[..|log| - 1]).0, log[|log| - 1]);
    }
  }

  lemma ReachesExactly(mean: real, seconds: real, tokens: real, reference: real)
    requires seconds > 0.0 && mean * seconds == tokens
    ensures mean >= reference <==> tokens >= reference * seconds
  {
    if mean >= reference {
      assert (mean - reference) * seconds >= 0.0;
    } else {
      assert (reference - mean) * seconds > 0.0;
    }
  }

  /** The gate's comparisons, read off the samples. */
  predicate Judges(tps: TW.TPSSnapshot, h: TW.Sums, last: LastSample, reference: real) {
    && tps.enabled && tps.reference == reference && Comparable(tps)
    && (Measured(tps) <==> Evidence(h, last))
    && (Measured(tps) ==>
          && (WindowHealthy(tps) <==> WindowReaches(h, reference))
          && (LatestHealthy(tps) <==> LatestReaches(last, reference)))
  }

  lemma SnapshotJudges(reference: real, latest: TW.IntervalSnapshot, h: TW.Sums, last: LastSample)
    requires reference > 0.0 && TW.ValidInterval(latest) && TW.Nonnegative(h) && Agrees(latest, last)
    ensures Judges(TW.SnapshotOf(reference, latest, Some(h)), h, last, reference)
  {
    SnapshotExactly(reference, latest, h);
    MeansNonnegative(reference, latest, h);
    var tps := TW.SnapshotOf(reference, latest, Some(h));
    if Measured(tps) {
      ReachesExactly(tps.meanActiveTPS, h.sequenceSeconds, h.sequenceTokens, reference);
      ReachesExactly(latest.meanActiveTPS, last.seconds, last.tokens as real, reference);
    }
  }

  lemma MeansNonnegative(reference: real, latest: TW.IntervalSnapshot, h: TW.Sums)
    requires TW.Nonnegative(h) && TW.ValidInterval(latest)
    ensures TW.SnapshotOf(reference, latest, Some(h)).meanActiveTPS >= 0.0
    ensures TW.SnapshotOf(reference, latest, Some(h)).aggregateTPS >= 0.0
  {
  }

  /** In every run a snapshot taken after the last observation reads the two rates and the readiness off the
      logged samples still in the window, and the latest figures off the last of them. */
  lemma RunSnapshotReads(run: Run, now: Time)
    requires Possible(run) && Final(run).tpsWindow.reference > 0.0 && now != ZERO_TIME
    requires var o := Final(run).observation; o.Some? ==> o.value.observation.observedAt <= now
    ensures var w := Final(run).tpsWindow;
            && Reads(TW.Snapshot(w, now), w.reference, TW.HistorySums(SampleLog(run), now))
            && Agrees(TW.Snapshot(w, now).latest, LastOf(SampleLog(run)))
  {
    var s := Final(run);
    RunLogged(run);
    RunSnapshotIsHistory(run, now);
    LatestOfLog(s.tpsWindow.reference, SampleLog(run));
    RunSound(run);
    LatestIsValid(s, Past(run));
    SnapshotExactly(s.tpsWindow.reference, s.tpsWindow.latest, TW.HistorySums(SampleLog(run), now));
  }

  lemma LatestIsValid(s: State, h: History)
    requires Sound(s, h) && (s.closedReason.Some? ==> s.tpsWindow.latest == TW.NO_INTERVAL)
    ensures TW.ValidInterval(s.tpsWindow.latest)
  {
  }

  // ---------- admission ----------

  predicate GoodDemand(d: Demand) {
    d.decodeSequences > 0 && d.source != SourceUnknown && d.tier != TierUnknown
  }

  /** Where a reference is set: no preemption since the last observation and, once there is evidence, a cold
      prompt needs the window at the reference and no other cold prompt waiting, any other prompt the window
      or the latest sample. */
  predicate FastEnoughForSale(s: State, h: TW.Sums, last: LastSample, d: Demand)
    requires s.observation.Some?
  {
    var reference := s.tpsWindow.reference;
    && s.observation.value.preemptionDelta == 0
    && (Evidence(h, last) ==>
          if ColdPrompt(s.gate, d) then s.overlay.coldSheddablePending == 0 && WindowReaches(h, reference)
          else WindowReaches(h, reference) || LatestReaches(last, reference))
  }

  predicate FastEnoughForPriority(s: State, h: TW.Sums, last: LastSample) {
    Evidence(h, last) ==>
      || WindowReaches(h, s.tpsWindow.reference) || LatestReaches(last, s.tpsWindow.reference)
      || s.gate.backendTierScheduling
  }

  /** Running, waiting, unobserved and new sequences within the running limit if there is one, unobserved and
      new ones within the window, and waiting within its allowance. */
  predicate RoomForSale(s: State, d: Demand)
    requires s.observation.Some?
  {
    var o := s.observation.value.observation;
    var all := o.running + o.waiting + s.overlay.unobservedSequences + d.decodeSequences;
    && o.waiting <= s.waitingAllowance && all <= 0x7FFF_FFFF_FFFF_FFFF
    && (s.runningLimit > 0 ==> all <= s.runningLimit)
    && s.overlay.unobservedSequences + d.decodeSequences <= s.windowConcurrency
  }

  predicate RoomForPriority(s: State, d: Demand)
    requires s.observation.Some?
  {
    && s.observation.value.observation.running + d.decodeSequences <= 0x7FFF_FFFF_FFFF_FFFF
    && s.overlay.unobservedSequences + d.decodeSequences <= 0x7FFF_FFFF_FFFF_FFFF
  }

  /** Room for its tier and, where a TPS reference is set, fast enough. */
  predicate Fits(s: State, h: TW.Sums, last: LastSample, d: Demand)
    requires s.observation.Some?
  {
    if d.tier == TierDefault || d.tier == TierFlex then
      RoomForSale(s, d) && (s.tpsWindow.reference > 0.0 ==> FastEnoughForSale(s, h, last, d))
    else
      RoomForPriority(s, d) && (s.tpsWindow.reference > 0.0 ==> FastEnoughForPriority(s, h, last))
  }

  predicate Counts(s: State)
    requires s.observation.Some?
  {
    var o := s.observation.value.observation;
    && o.running >= 0 && o.waiting >= 0 && s.windowConcurrency > 0 && s.runningLimit >= 0
    && s.overlay.unobservedSequences >= 0 && s.overlay.coldSheddablePending >= 0
  }

  lemma PolicyDecides(s: State, state: ProjectedState, h: TW.Sums, last: LastSample, at: Time, d: Demand)
    requires s.observation.Some? && Shows(s, at, state) && Counts(s) && GoodDemand(d)
    requires if s.tpsWindow.reference > 0.0 then Judges(state.tps, h, last, s.tpsWindow.reference) else !state.tps.enabled
    ensures EvaluateDemand(s.gate, state, d, BoundsOf(s)).admit <==> Fits(s, h, last, d)
  {
    AdmittedExactly(s.gate, state, d, BoundsOf(s));
  }

  lemma SoundCounts(s: State, h: History)
    requires Sound(s, h) && s.closedReason.None? && s.observation.Some?
    ensures Counts(s) && TW.ValidInterval(s.tpsWindow.latest)
  {
    BooksBounds(s);
  }

  lemma RunJudges(run: Run, at: Time)
    requires Possible(run) && Fresh(Final(run), at)
    ensures var s := Final(run);
            var tps := TW.Snapshot(s.tpsWindow, at);
            if s.tpsWindow.reference > 0.0 then
              Judges(tps, TW.HistorySums(SampleLog(run), at), LastOf(SampleLog(run)), s.tpsWindow.reference)
            else
              !tps.enabled
  {
    RunSound(run);
    SoundCounts(Final(run), Past(run));
    var w := Final(run).tpsWindow;
    if w.reference > 0.0 {
      RunLogged(run);
      RunSnapshotIsHistory(run, at);
      LatestOfLog(w.reference, SampleLog(run));
      SnapshotJudges(w.reference, w.latest, TW.HistorySums(SampleLog(run), at), LastOf(SampleLog(run)));
    }
  }

  /** In every run the policy admits a demand exactly when it is a good one, the last observation is fresh,
      there is room for its tier, and, where a TPS reference is set, the logged samples are fast enough. */
  lemma AdmissionDecided(run: Run, at: Time, d: Demand)
    requires Possible(run)
    ensures PolicyAdmits(Final(run), at, d) <==>
              && GoodDemand(d) && Fresh(Final(run), at)
              && Fits(Final(run), TW.HistorySums(SampleLog(run), at), LastOf(SampleLog(run)), d)
  {
    var s := Final(run);
    RunSound(run);
    StateExactly(s, Past(run), at);
    if Fresh(s, at) && GoodDemand(d) {
      SoundCounts(s, Past(run));
      RunJudges(run, at);
      PolicyDecides(s, StateAt(s, at).0, TW.HistorySums(SampleLog(run), at), LastOf(SampleLog(run)), at, d);
    }
  }

  // ---------- the answer ----------

  /** The resource that is exhausted, in the order the code looks. */
  predicate CalledExhausted(s: State, d: Demand, reason: Reason) {
    if |s.reservations| >= s.maximumReservations then reason == ReasonResourceExhausted
    else if s.nextReservationID == 0xFFFF_FFFF_FFFF_FFFF then reason == ReasonCounterOverflow
    else if s.overlay.sequenceLiabilities + d.decodeSequences > 0x7FFF_FFFF_FFFF_FFFF then reason == ReasonResourceExhausted
    else s.eventSequence == 0xFFFF_FFFF_FFFF_FFFF && reason == ReasonCounterOverflow
  }

  /** The record of a decision names the demand, the state it was made in, and the sequence and epoch after it. */
  predicate Records(s: State, d: Demand, s': State, r: AdmissionResult) {
    var x := r.decision;
    && x.demand == d && x.observationSequence == s.observationSequence && x.policyRevision == s.policyRevision
    && x.runtimeEpoch == s'.runtimeEpoch && x.controllerSequence == s'.eventSequence
    && (x.admitted <==> r.handle.Some?)
    && (if r.handle.Some? then
          && x.reason == ReasonOpen && x.scope == ScopeNone
          && x.reservationID == s.nextReservationID + 1 && r.handle.value == Handle(s.runtimeEpoch, x.reservationID)
        else
          x.reservationID == 0)
  }

  /** Why: a bad demand, an unusable state, the policy, or an exhausted resource, which also closes. */
  predicate Explains(s: State, at: Time, d: Demand, s': State, x: Decision) {
    var (state, reason, ok) := StateAt(s, at);
    var policy := EvaluateDemand(s.gate, state, d, BoundsOf(s));
    if !GoodDemand(d) then
      x.reason == ReasonInvalidRequest && x.scope == ScopeRequest && s' == s
    else if !ok then
      x.reason == reason && x.scope == ScopeAvailability && x.state == state && s' == s
    else if !policy.admit then
      && x.reason == policy.reason && x.scope == policy.scope && x.state == state && s' == s
      && x.tpsResult == policy.tpsResult && x.tpsSubreason == policy.tpsSubreason
    else
      && x.state == state
      && (x.admitted ==>
            && x.projectedRunning == policy.projectedRunning && x.projectedWindow == policy.projectedWindow
            && x.tpsResult == policy.tpsResult && x.tpsSubreason == policy.tpsSubreason)
      && (!x.admitted ==>
            x.scope == ScopeAvailability && CalledExhausted(s, d, x.reason) && s'.closedReason == Some(x.reason))
  }

  lemma ReserveAnswer(s: State, at: Time, d: Demand, state: ProjectedState, p: PolicyDecision)
    requires GoodDemand(d) && s.runtimeEpoch != 0 && s.closedReason.None? && p.admit
    requires p.reason == ReasonOpen && p.scope == ScopeNone
    requires ValidOverlay(s.overlay)
    requires s.overlay.liveReservations + s.overlay.residualDebts <= s.overlay.sequenceLiabilities
    ensures var (s', r) := Reserve(s, d, state, p);
            && Records(s, d, s', r) && r.decision.state == state
            && (r.decision.admitted ==>
                  && r.decision.projectedRunning == p.projectedRunning && r.decision.projectedWindow == p.projectedWindow
                  && r.decision.tpsResult == p.tpsResult && r.decision.tpsSubreason == p.tpsSubreason)
            && (!r.decision.admitted ==>
                  && r.decision.scope == ScopeAvailability && CalledExhausted(s, d, r.decision.reason)
                  && s'.closedReason == Some(r.decision.reason))
  {
    NewItemContributes(s, d);
    AddExact(s.overlay, Contribution(NewReservation(s, d)).value);
  }

  /** Every admission is answered with a full record and the reason that applies. */
  lemma AnsweredInFull(s: State, h: History, at: Time, d: Demand)
    requires Sound(s, h)
    ensures var (s', r) := Admit(s, at, d); Records(s, d, s', r) && Explains(s, at, d, s', r.decision)
  {
    if PolicyAdmits(s, at, d) {
      BooksBounds(s);
      var state := StateAt(s, at).0;
      var p := EvaluateDemand(s.gate, state, d, BoundsOf(s));
      ReasonExactly(s.gate, state, d, BoundsOf(s));
      ReserveAnswer(s, at, d, state, p);
    }
  }
}
