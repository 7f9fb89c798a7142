/** How much unobserved and cold work a run can ever hold, and what availability promises. */
module ControllerLoad {
  import opened Machine
  import opened Totals
  import opened Policy
  import opened Reservations
  import opened Controller
  import opened ControllerRun
  import opened ControllerSound
  import opened ControllerEffects
  import opened Reconciliation
  import opened PublicationEffects
  import opened ControllerTheorems

  // ---------- weights that only admission raises ----------

  /** `r'` is a later stage of reservation `r`. */
  predicate Later(r: Reservation, r': Reservation) {
    && r'.id == r.id && r'.runtimeEpoch == r.runtimeEpoch
    && r'.demand == r.demand && r'.coldSheddable == r.coldSheddable
    && (r.pendingFirstByteReleased ==> r'.pendingFirstByteReleased)
    && (r'.phase == r.phase || r'.phase == ResidualDebt
        || (r.phase == Reserved && r'.phase == Forwarded)
        || (r.phase == Forwarded && r'.phase == ActiveDecode && r'.pendingFirstByteReleased))
  }

  /** Unobserved sequences of default and flex requests. */
  function SheddableUnobserved(r: Reservation): int {
    if Sheddable(r.demand.tier) then Unobserved(r) else 0
  }

  lemma WeightsFade(r: Reservation, r': Reservation)
    requires Later(r, r') && WellFormed(r)
    ensures 0 <= SheddableUnobserved(r') <= SheddableUnobserved(r) <= Unobserved(r)
    ensures 0 <= ColdPending(r') <= ColdPending(r)
  {
  }

  /** Every reservation after the call is a later stage of the same reservation before it. */
  ghost predicate OnlyLater(s: State, s': State) {
    forall id :: id in s'.reservations ==> id in s.reservations && Later(s.reservations[id], s'.reservations[id])
  }

  lemma {:induction false} LaterLowers(rs: map<nat, Reservation>, rs': map<nat, Reservation>)
    requires forall id :: id in rs ==> WellFormed(rs[id])
    requires forall id :: id in rs' ==> id in rs && Later(rs[id], rs'[id])
    ensures Total(rs', SheddableUnobserved) <= Total(rs, SheddableUnobserved)
    ensures Total(rs', ColdPending) <= Total(rs, ColdPending)
    decreases |rs|
  {
    if rs == map[] {
      assert rs' == map[];
    } else {
      var id :| id in rs;
      WeightsFade(rs[id], rs[id]);
      TotalSplit(rs, SheddableUnobserved, id);
      TotalSplit(rs, ColdPending, id);
      LaterLowers(rs - {id}, rs' - {id});
      if id in rs' {
        WeightsFade(rs[id], rs'[id]);
        TotalSplit(rs', SheddableUnobserved, id);
        TotalSplit(rs', ColdPending, id);
      } else {
        RemoveAbsent(rs', id);
      }
    }
  }

  lemma LifeLater(s: State, e: Event, s': State, out: Outcome)
    requires Typed(s) && StepRel(s, e, s', out)
    requires e.call.CallForward? || e.call.CallFirstByte? || e.call.CallTerminate?
    ensures OnlyLater(s, s')
  {
  }

  lemma PublishLater(s: State, w: SampleWindow, o: Observation, now: Time, s': State, r: PublicationResult)
    requires PublishRel(s, w, o, now, s', r)
    ensures OnlyLater(s, s')
  {
  }

  lemma OthersLater(s: State, e: Event, s': State, out: Outcome)
    requires Typed(s) && StepRel(s, e, s', out)
    requires e.call.CallStart? || e.call.CallUpdate? || e.call.CallClose? || (e.call.CallAdmit? && out.result.handle.None?)
    ensures OnlyLater(s, s')
  {
  }

  // ---------- the load invariant ----------

  ghost predicate LoadOk(s: State, h: History) {
    && s.windowConcurrency <= h.widest
    && Total(s.reservations, SheddableUnobserved) <= h.widest
    && (h.coldOnEvidence ==> Total(s.reservations, ColdPending) <= 1)
  }

  lemma NewItemWeights(s: State, d: Demand)
    requires ValidDemand(d) && s.runtimeEpoch != 0
    ensures SheddableUnobserved(NewItem(s, d)) == if Sheddable(d.tier) then d.decodeSequences else 0
    ensures ColdPending(NewItem(s, d)) == if ColdSheddable(s.gate, d) then 1 else 0
  {
    NewItemContributes(s, d);
  }

  lemma SheddableBelowOverlay(s: State)
    requires BooksOk(s)
    ensures Total(s.reservations, SheddableUnobserved) <= s.overlay.unobservedSequences
  {
    forall id | id in s.reservations ensures SheddableUnobserved(s.reservations[id]) <= Unobserved(s.reservations[id]) {
      assert Held(s, id, s.reservations[id]);
      WeightsFade(s.reservations[id], s.reservations[id]);
    }
    TotalBelow(s.reservations, SheddableUnobserved, Unobserved);
  }

  /** The state a decision is made on carries the overlay's own counts. */
  lemma DecisionState(s: State, at: Time, d: Demand)
    requires PolicyAdmits(s, at, d)
    ensures var state := StateAt(s, at).0;
            && state.unobservedSequences == s.overlay.unobservedSequences
            && state.coldSheddablePending == s.overlay.coldSheddablePending
            && s.closedReason.None? && s.observation.Some?
            && state.rawRunning == s.observation.value.observation.running
            && state.rawWaiting == s.observation.value.observation.waiting
            && EvaluateDemand(s.gate, state, d, BoundsOf(s)).admit
  {
  }

  lemma LoadAdmit(s: State, h: History, at: Time, d: Demand, s': State, r: AdmissionResult, h': History)
    requires BooksOk(s) && s.runtimeEpoch != 0 && LoadOk(s, h) && AdmitRel(s, at, d, s', r) && r.handle.Some?
    requires h'.widest == h.widest
    requires var tps := StateAt(s, at).0.tps;
             (h'.coldOnEvidence ==>
                h.coldOnEvidence && (ColdSheddable(s.gate, d) ==> tps.enabled && tps.ready && tps.latest.qualified))
    ensures LoadOk(s', h')
  {
    var id := s.nextReservationID + 1;
    FreshId(s, id);
    NewItemWeights(s, d);
    DecisionState(s, at, d);
    TotalInsert(s.reservations, SheddableUnobserved, id, NewItem(s, d));
    TotalInsert(s.reservations, ColdPending, id, NewItem(s, d));
    if Sheddable(d.tier) {
      SheddableWithinBounds(s.gate, StateAt(s, at).0, d, BoundsOf(s));
      SheddableBelowOverlay(s);
    }
    if h'.coldOnEvidence && ColdSheddable(s.gate, d) {
      ColdAdmittedAlone(s.gate, StateAt(s, at).0, d, BoundsOf(s));
    }
  }

  lemma LoadLater(s: State, h: History, s': State, h': History)
    requires AllWellFormed(s.reservations) && LoadOk(s, h) && OnlyLater(s, s')
    requires h.widest <= h'.widest && s'.windowConcurrency <= h'.widest
    requires h'.coldOnEvidence ==> h.coldOnEvidence
    ensures LoadOk(s', h')
  {
    LaterLowers(s.reservations, s'.reservations);
  }

  ghost predicate LoadReady(s: State) {
    && Typed(s) && AllWellFormed(s.reservations)
    && (s.closedReason.None? ==> BooksOk(s) && s.runtimeEpoch != 0)
  }

  lemma SoundIsLoadReady(s: State, h: History)
    requires Sound(s, h)
    ensures LoadReady(s)
  {
    if s.closedReason.None? { WellFormedBooks(s); }
  }

  lemma LoadStep(s: State, h: History, e: Event, s': State, out: Outcome, h': History)
    requires LoadReady(s) && LoadOk(s, h) && StepRel(s, e, s', out)
    requires h'.widest == if s'.windowConcurrency > h.widest then s'.windowConcurrency else h.widest
    requires h'.coldOnEvidence == (h.coldOnEvidence && !ColdWithoutEvidence(s, e, out))
    ensures LoadOk(s', h')
  {
    if e.call.CallAdmit? && out.result.handle.Some? {
      LoadAdmit(s, h, e.call.at, e.call.demand, s', out.result, h');
    } else {
      if e.call.CallForward? || e.call.CallFirstByte? || e.call.CallTerminate? {
        LifeLater(s, e, s', out);
      } else if e.call.CallPublish? {
        PublishLater(s, e.call.window, e.call.observation, e.now, s', out.published);
      } else {
        OthersLater(s, e, s', out);
      }
      LoadLater(s, h, s', h');
    }
  }

  lemma {:induction false} RunLoad(run: Run)
    requires Possible(run)
    ensures LoadOk(Final(run), Past(run))
  {
    match run
    case Begin(_, _) =>
    case Then(before, e) =>
      RunLoad(before);
      RunSound(before);
      SoundIsLoadReady(Final(before), Past(before));
      StepEffect(Final(before), Past(before), e);
      var (s', out) := Step(Final(before), e);
      LoadStep(Final(before), Past(before), e, s', out, Past(run));
  }

  /** At every moment of every run the default and flex sequences still unobserved total at most the
      largest window concurrency any policy revision has set, whatever priority traffic is admitted. */
  lemma SheddableLoadBounded(run: Run)
    requires Possible(run)
    ensures Total(Final(run).reservations, SheddableUnobserved) <= Past(run).widest
  {
    RunLoad(run);
  }

  /** Each default or flex admission leaves running, waiting and unobserved within a positive running limit. */
  lemma SheddableAdmissionWithinLimit(run: Run, at: Time, d: Demand)
    requires Possible(run) && Sheddable(d.tier)
    requires Admit(Final(run), at, d).1.handle.Some?
    ensures var (s, s') := (Final(run), Admit(Final(run), at, d).0);
            && s.observation.Some?
            && var o := s.observation.value.observation;
            && s'.overlay.unobservedSequences == s.overlay.unobservedSequences + d.decodeSequences <= s.windowConcurrency
            && (s.runningLimit > 0 ==> o.running + o.waiting + s'.overlay.unobservedSequences <= s.runningLimit)
            && o.waiting <= s.waitingAllowance
  {
    RunSound(run);
    var s := Final(run);
    AdmitEffect(s, Past(run), at, d);
    DecisionState(s, at, d);
    NewItemContributes(s, d);
    SheddableWithinBounds(s.gate, StateAt(s, at).0, d, BoundsOf(s));
  }

  /** When cold default and flex requests were all admitted on a ready, currently qualified snapshot, at
      most one of them is ever waiting for its first byte. */
  lemma OneColdPromptAtATime(run: Run)
    requires Possible(run) && Past(run).coldOnEvidence
    ensures Final(run).overlay.coldSheddablePending <= 1
  {
    RunLoad(run);
    RunSound(run);
    assert OverlayOf(map[]) == NO_OVERLAY;
  }

  /** Reconciliation, which lets sequence leases expire, never gives the cold slot back. */
  lemma LeaseKeepsColdSlot(rs: map<nat, Reservation>, p: Pass)
    requires AllWellFormed(rs)
    ensures OverlayOf(AfterPass(rs, p)).coldSheddablePending == OverlayOf(rs).coldSheddablePending
  {
    forall id | id in rs
      ensures if Left(rs[id], p).None? then ColdPending(rs[id]) == 0 else ColdPending(Left(rs[id], p).value) == ColdPending(rs[id])
    {
      assert WellFormed(rs[id]);
    }
    PassKeepsTotal(rs, p, ColdPending);
  }

  // ---------- availability ----------

  /** If the controller shows itself available, every valid one-sequence demand of any tier and prompt
      size is admitted at that instant, unless a counter, the cap or the liability total is exhausted. */
  lemma AvailableMeansAdmitted(run: Run, at: Time, d: Demand)
    requires Possible(run) && Available(Final(run), at)
    requires ValidDemand(d) && d.decodeSequences == 1
    ensures Admit(Final(run), at, d).1.handle.Some? <==> !AdmissionExhausted(Final(run), d)
    ensures Admit(Final(run), at, d).1.decision.admitted <==> !AdmissionExhausted(Final(run), d)
  {
    RunSound(run);
    var s := Final(run);
    MinimumIsMostRestricted(s.gate, StateAt(s, at).0, d, BoundsOf(s));
    AdmitEffect(s, Past(run), at, d);
  }
}
