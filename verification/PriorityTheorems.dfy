/** What every interleaving of the priority queue keeps, and that nothing is ever left waiting. */
module PriorityTheorems {
  import opened Machine
  import opened Totals
  import opened PrioritySelection
  import opened PriorityProtocol

  // ---------- reservations ----------

  lemma InHandNotSent(s: Service, c: nat)
    requires Accounted(s) && Entries(Hand(s.worker), c) > 0
    ensures SentTo(s.log, c) == 0 && forall reply :: Sent(c, reply) !in s.log
  {
    assert Copies(s, c) == Owed(s, c);
    forall reply ensures Sent(c, reply) !in s.log {
      if Sent(c, reply) in s.log { SentCounts(s.log, Sent(c, reply)); }
    }
  }

  lemma AskingReservations(s: Service, outcome: Outcome)
    requires Accounted(s) && ReservationsSound(s) && s.worker.Deciding?
    ensures ReservationsSound(Asking(s, outcome))
  {
    EntriesOne(s.worker.entry, s.worker.entry.client);
    InHandNotSent(s, s.worker.entry.client);
  }

  lemma RecheckedReservations(s: Service)
    requires Accounted(s) && ReservationsSound(s) && s.worker.Rechecking?
    ensures ReservationsSound(Rechecked(s))
  {
    EntriesOne(s.worker.entry, s.worker.entry.client);
    InHandNotSent(s, s.worker.entry.client);
  }

  lemma DeliveredReservations(s: Service)
    requires ReservationsSound(s) && s.worker.Sending?
    ensures ReservationsSound(Delivered(s))
  {
    var m := Sent(s.worker.entry.client, s.worker.reply);
    forall c ensures SentTo(Delivered(s).log, c) == SentTo(s.log, c) + if m.client == c then 1 else 0 {
      SentOne(s.log, m, c);
    }
  }

  lemma AnsweredReservations(s: Service)
    requires ReservationsSound(s) && s.worker.Answering? && s.worker.items != []
    ensures ReservationsSound(Answered(s))
  {
    var m := Sent(s.worker.items[0].client, QueueClosed);
    forall c ensures SentTo(Answered(s).log, c) == SentTo(s.log, c) + if m.client == c then 1 else 0 {
      SentOne(s.log, m, c);
    }
  }

  lemma PickingReservations(s: Service, now: Time)
    requires QueueSound(s) && ReservationsSound(s) && s.worker.AtNext?
    ensures ReservationsSound(Picking(s, now))
  {
    PickingFrame(s, now);
  }

  lemma PickingFrame(s: Service, now: Time)
    requires QueueOk(s.queue) && s.worker.AtNext?
    ensures var s' := Picking(s, now);
            && s'.live == s.live && s'.ended == s.ended && s'.log == s.log
            && !s'.worker.Rechecking? && !s'.worker.Sending?
  {
  }

  /** The other steps touch neither reservations nor replies. */
  lemma QuietReservations(s: Service, a: Action)
    requires QueueSound(s) && Enabled(s, a)
    requires !a.AskDelegate? && !a.RecheckContext? && !a.Send? && !a.Answer? && !a.Next?
    ensures Apply(s, a).live == s.live && Apply(s, a).ended == s.ended && Apply(s, a).log == s.log
    ensures forall c :: InHand(s.worker, c) ==> Apply(s, a).worker == s.worker
    ensures forall c :: GrantInHand(Apply(s, a).worker, c) ==> Apply(s, a).worker == s.worker
  {
  }

  lemma ReservationsStep(s: Service, a: Action)
    requires QueueSound(s) && Accounted(s) && ReservationsSound(s) && Enabled(s, a)
    ensures ReservationsSound(Apply(s, a))
  {
    if a.AskDelegate? {
      AskingReservations(s, a.outcome);
    } else if a.RecheckContext? {
      RecheckedReservations(s);
    } else if a.Send? {
      DeliveredReservations(s);
    } else if a.Answer? {
      AnsweredReservations(s);
    } else if a.Next? {
      PickingReservations(s, a.now);
    } else {
      QuietReservations(s, a);
    }
  }

  lemma LogGrows(s: Service, a: Action)
    requires QueueSound(s) && Enabled(s, a)
    ensures s.log <= Apply(s, a).log
  {
  }

  lemma CallersChange(s: Service, a: Action, c: nat)
    requires QueueSound(s) && Enabled(s, a) && c in Apply(s, a).callers
    requires Apply(s, a).callers[c].Returned? && Apply(s, a).callers[c].queued
    ensures (c in s.callers && s.callers[c] == Apply(s, a).callers[c]) || Sent(c, Apply(s, a).callers[c].reply) in s.log
  {
  }

  lemma RepliesStep(s: Service, a: Action)
    requires QueueSound(s) && RepliesSound(s) && Enabled(s, a)
    ensures RepliesSound(Apply(s, a))
  {
    LogGrows(s, a);
    forall c | c in Apply(s, a).callers && Apply(s, a).callers[c].Returned? && Apply(s, a).callers[c].queued
      ensures Sent(c, Apply(s, a).callers[c].reply) in Apply(s, a).log
    {
      CallersChange(s, a, c);
    }
  }

  // ---------- every run ----------

  lemma {:induction false} RunSound(run: Run)
    requires Possible(run)
    ensures Sound(Final(run))
  {
    match run
    case Begin(settings) =>
    case Then(before, a) =>
      RunSound(before);
      var s := Final(before);
      QueueStep(s, a);
      forall c: nat ensures Copies(Apply(s, a), c) == Owed(Apply(s, a), c) {
        AccountedStep(s, a, c);
        assert Copies(s, c) == Owed(s, c);
      }
      ClosingStep(s, a);
      WakeStep(s, a);
      ReservationsStep(s, a);
      RepliesStep(s, a);
  }

  /** Under every interleaving no caller is sent two results, none that was never queued is sent any, and
      one that got its result out of the queue got the single one sent to it. */
  lemma ExactlyOneResult(run: Run, c: nat)
    requires Possible(run)
    ensures var s := Final(run);
            && SentTo(s.log, c) <= 1
            && (!WasQueued(s, c) ==> SentTo(s.log, c) == 0)
            && (SentTo(s.log, c) == 0 && WasQueued(s, c) ==> InFlight(s, c) == 1)
            && (c in s.callers && s.callers[c].Returned? && s.callers[c].queued ==>
                  SentTo(s.log, c) == 1 && Sent(c, s.callers[c].reply) in s.log)
  {
    RunSound(run);
    var s := Final(run);
    assert Copies(s, c) == Owed(s, c);
    if c in s.callers && s.callers[c].Returned? && s.callers[c].queued {
      SentCounts(s.log, Sent(c, s.callers[c].reply));
    }
  }

  lemma SentOnce(s: Service, c: nat, reply: Reply, other: Reply)
    requires Accounted(s) && Sent(c, reply) in s.log
    ensures Entries(Hand(s.worker), c) == 0
    ensures Sent(c, other) in s.log ==> other == reply
  {
    SentCounts(s.log, Sent(c, reply));
    assert Copies(s, c) == Owed(s, c);
    if Sent(c, other) in s.log && other != reply {
      var i :| 0 <= i < |s.log| && s.log[i] == Sent(c, reply);
      var j :| 0 <= j < |s.log| && s.log[j] == Sent(c, other);
      if i < j { SentTwice(s.log, i, j); } else { SentTwice(s.log, j, i); }
    }
  }

  /** A result sent to a caller whose context was cancelled, or who timed out or was drained, leaves no
      reservation behind; a grant leaves exactly the caller owning it. */
  lemma RepliesOwnReservations(run: Run, c: nat, reply: Reply)
    requires Possible(run) && Sent(c, reply) in Final(run).log
    ensures c in Final(run).live <==> reply == Granted
    ensures !GrantInHand(Final(run).worker, c)
  {
    RunSound(run);
    var s := Final(run);
    SentOnce(s, c, reply, Granted);
    if InHand(s.worker, c) { EntriesOne(s.worker.entry, c); }
  }

  predicate Drained(s: Service) {
    s.queue == [] && (s.worker.Answering? || s.worker.Exited?)
  }

  lemma DrainedStays(s: Service, a: Action)
    requires s.closed && Drained(s) && QueueOk(s.queue) && Enabled(s, a)
    ensures Drained(Apply(s, a))
  {
  }

  /** Once the drain has taken the queue, no run ever appends to it again. */
  lemma {:induction false} NothingAfterDrain(run: Run, drained: Run)
    requires Possible(run) && Extends(run, drained)
    requires Final(drained).worker.Answering? || Final(drained).worker.Exited?
    ensures Drained(Final(run))
  {
    RunSound(run);
    if run != drained {
      NothingAfterDrain(run.before, drained);
      RunSound(run.before);
      DrainedStays(Final(run.before), run.action);
    }
  }

  ghost predicate Extends(run: Run, earlier: Run)
    ensures Extends(run, earlier) && Possible(run) ==> Possible(earlier)
  {
    run == earlier || (run.Then? && Extends(run.before, earlier))
  }

  // ---------- nothing is left waiting ----------

  /** Steps the service takes on its own: everything but new calls, cancellations and the start of closing. */
  predicate Internal(a: Action) {
    !a.Call? && !a.Cancel? && !a.SetClosed?
  }

  ghost predicate Quiescent(s: Service) {
    forall a :: Internal(a) ==> !Enabled(s, a)
  }

  lemma QuietCallers(s: Service, c: nat)
    requires Quiescent(s) && c in s.callers
    ensures s.callers[c].Returned? || s.callers[c].Waiting?
    ensures s.callers[c].Waiting? ==> SentTo(s.log, c) == 0
  {
    assert !Enabled(s, Append(c)) && !Enabled(s, Signal(c));
    if s.callers[c].Waiting? && SentTo(s.log, c) > 0 {
      CountedIsSent(s.log, c);
      var i: nat :| i < |s.log| && s.log[i].client == c;
      assert Enabled(s, Receive(c, i));
    }
  }

  lemma QuietDispatch(s: Service)
    requires Quiescent(s)
    ensures !s.worker.Checking? && !s.worker.Timing? && !s.worker.Deciding? && !s.worker.Rechecking? && !s.worker.Sending?
  {
    assert !Enabled(s, CheckContext) && !Enabled(s, CheckDeadline(0));
    assert !Enabled(s, AskDelegate(Admits)) && !Enabled(s, RecheckContext) && !Enabled(s, Send);
  }

  lemma QuietHands(s: Service)
    requires Quiescent(s)
    ensures s.worker.Parked? || s.worker.Exited?
    ensures s.worker.Parked? ==> !s.worker.timed && !s.wake && !s.closeChannel
  {
    QuietDispatch(s);
    assert !Enabled(s, Next(0)) && !Enabled(s, Wake) && !Enabled(s, Fire) && !Enabled(s, SeeClosed);
    assert !Enabled(s, TakeAll) && !Enabled(s, Answer) && !Enabled(s, Exit);
  }

  lemma QuietWorker(s: Service)
    requires Quiescent(s) && ClosingSound(s) && WakeSound(s)
    ensures s.queue == [] && Hand(s.worker) == []
    ensures s.worker == (if s.closed then Exited else Parked(false))
    ensures s.closer == (if s.closed then Closed else NotClosing)
  {
    QuietHands(s);
    assert !Enabled(s, CloseChannel) && !Enabled(s, CloseSignal) && !Enabled(s, Finish);
    if s.worker == Parked(false) && s.queue != [] {
      var c :| c in s.callers && s.callers[c].MustSignal?;
      QuietCallers(s, c);
    }
  }

  /** No lost wakeup, no deadlock: whenever nothing can move by itself, every caller has its result, the
      queue is empty, and the worker is parked, or has left with the closer if the service was closed. */
  lemma NothingLeftWaiting(run: Run)
    requires Possible(run) && Quiescent(Final(run))
    ensures var s := Final(run);
            && (forall c :: c in s.callers ==> s.callers[c].Returned?)
            && s.queue == []
            && s.worker == (if s.closed then Exited else Parked(false))
            && s.closer == (if s.closed then Closed else NotClosing)
  {
    RunSound(run);
    var s := Final(run);
    QuietWorker(s);
    forall c | c in s.callers ensures s.callers[c].Returned? {
      QuietCallers(s, c);
      assert Copies(s, c) == Owed(s, c);
    }
  }

  // ---------- closing ends ----------

  function CallerWork(c: Caller): int {
    match c
    case Stamped(_, _) => 3
    case MustSignal => 2
    case Waiting => 1
    case Returned(_, _) => 0
  }

  function WorkerWork(s: Service): nat {
    match s.worker
    case Checking(_) => 9 + |s.queue|
    case Timing(_) => 8 + |s.queue|
    case Deciding(_) => 7 + |s.queue|
    case Rechecking(_, _) => 6 + |s.queue|
    case Sending(_, _) => 5 + |s.queue|
    case Parked(_) => 5 + |s.queue|
    case AtNext => 4 + |s.queue|
    case Draining => 3 + |s.queue|
    case Answering(items) => 1 + |items|
    case Exited => 0
  }

  function CloserWork(c: Closer): nat {
    match c
    case NotClosing => 4
    case FlagSet => 3
    case ChannelClosed => 2
    case Signalled => 1
    case Closed => 0
  }

  /** A bound on the internal steps left once the service is closed. */
  ghost function Work(s: Service): int {
    Total(s.callers, CallerWork) + WorkerWork(s) + CloserWork(s.closer)
  }

  lemma CallerWorkNonnegative(callers: map<nat, Caller>)
    ensures Total(callers, CallerWork) >= 0
  {
    TotalNonnegative(callers, CallerWork);
  }

  lemma {:induction false} CallerMoves(s: Service, a: Action)
    requires s.closed && QueueSound(s) && Enabled(s, a) && (a.Append? || a.Signal? || a.Receive?)
    ensures Total(Apply(s, a).callers, CallerWork) < Total(s.callers, CallerWork)
    ensures WorkerWork(Apply(s, a)) == WorkerWork(s) && Apply(s, a).closer == s.closer
  {
    TotalUpdate(s.callers, CallerWork, a.c, Apply(s, a).callers[a.c]);
    assert Apply(s, a).callers == s.callers[a.c := Apply(s, a).callers[a.c]];
  }

  lemma OthersMove(s: Service, a: Action)
    requires s.closed && QueueSound(s) && Enabled(s, a) && Internal(a) && !a.Append? && !a.Signal? && !a.Receive?
    ensures Apply(s, a).callers == s.callers
    ensures WorkerWork(Apply(s, a)) + CloserWork(Apply(s, a).closer) < WorkerWork(s) + CloserWork(s.closer)
  {
    if ByCloser(a) {
      CloserMoves(s, a);
    } else if a.Next? || ByDrain(a) {
      DrainMoves(s, a);
    } else {
      HandsMove(s, a);
    }
  }

  lemma CloserMoves(s: Service, a: Action)
    requires QueueOk(s.queue) && Enabled(s, a) && ByCloser(a)
    ensures Apply(s, a).callers == s.callers && WorkerWork(Apply(s, a)) == WorkerWork(s)
    ensures CloserWork(Apply(s, a).closer) < CloserWork(s.closer)
  {
  }

  lemma DrainMoves(s: Service, a: Action)
    requires s.closed && QueueOk(s.queue) && Enabled(s, a) && (a.Next? || ByDrain(a))
    ensures Apply(s, a).callers == s.callers && Apply(s, a).closer == s.closer && WorkerWork(Apply(s, a)) < WorkerWork(s)
  {
  }

  lemma HandsMove(s: Service, a: Action)
    requires QueueOk(s.queue) && Enabled(s, a) && !ByOthers(a) && !a.Append? && !a.Next? && !ByDrain(a)
    ensures Apply(s, a).callers == s.callers && Apply(s, a).closer == s.closer && WorkerWork(Apply(s, a)) < WorkerWork(s)
  {
  }

  /** Once closed, every internal step brings the service closer to having answered everyone. */
  lemma ClosedStepProgresses(s: Service, a: Action)
    requires s.closed && QueueSound(s) && Enabled(s, a) && Internal(a)
    ensures Work(Apply(s, a)) < Work(s) && Apply(s, a).closed
  {
    if a.Append? || a.Signal? || a.Receive? {
      CallerMoves(s, a);
    } else {
      OthersMove(s, a);
    }
  }

  ghost predicate CanTake(s: Service, steps: seq<Action>)
    requires QueueSound(s)
    decreases |steps|
  {
    steps != [] ==>
      && Internal(steps[0]) && Enabled(s, steps[0]) && QueueSound(Apply(s, steps[0]))
      && CanTake(Apply(s, steps[0]), steps[1..])
  }

  /** So the drain ends: after at most Work(s) steps the closed service is quiescent. */
  lemma {:induction false} ClosingEnds(s: Service, steps: seq<Action>)
    requires s.closed && QueueSound(s) && CanTake(s, steps)
    ensures |steps| <= Work(s)
    decreases |steps|
  {
    if steps == [] {
      CallerWorkNonnegative(s.callers);
    } else {
      ClosedStepProgresses(s, steps[0]);
      ClosingEnds(Apply(s, steps[0]), steps[1..]);
    }
  }

  // ---------- overtaking in the protocol ----------

  /** The step hands another request to the worker while x is queued and expired, or aged and sheddable. */
  ghost predicate PassedOver(s: Service, a: Action, x: Entry)
    requires QueueOk(s.queue) && Enabled(s, a)
  {
    a.Next? && Picking(s, a.now).worker.Checking? && Overtaken(s.queue, Take(a.now), x, s.settings.maxWait)
  }

  /** The step appends a request that is younger than x by position and older by stamp. */
  ghost predicate AppendedLate(s: Service, a: Action, x: Entry)
    requires Enabled(s, a)
  {
    a.Append? && var s' := Entering(s, a.c);
    |s'.queue| > |s.queue| && s'.queue[|s.queue|].id > x.id && Older(s'.queue[|s.queue|], x)
  }

  ghost function TimesPassedOver(run: Run, x: Entry): nat
    requires Possible(run)
  {
    match run
    case Begin(_) => 0
    case Then(before, a) => TimesPassedOver(before, x) + if PassedOver(Final(before), a, x) then 1 else 0
  }

  ghost function LateAppends(run: Run, x: Entry): nat
    requires Possible(run)
  {
    match run
    case Begin(_) => 0
    case Then(before, a) => LateAppends(before, x) + if AppendedLate(Final(before), a, x) then 1 else 0
  }

  lemma EnteringOlder(s: Service, c: nat, x: Entry)
    requires QueueSound(s) && Enabled(s, Append(c))
    ensures var s' := Entering(s, c);
            && (s'.nextID == s.nextID ==> s'.queue == s.queue)
            && (s'.nextID != s.nextID && s'.nextID > x.id ==>
                  OlderThan(s'.queue, x) == OlderThan(s.queue, x) + if AppendedLate(s, Append(c), x) then 1 else 0)
  {
    if Entering(s, c).nextID != s.nextID {
      var e := Entering(s, c).queue[|s.queue|];
      OlderThanJoin(s.queue, [e], x);
      OlderThanOne(e, x);
    }
  }

  lemma JoiningOlder(s: Service, c: nat, x: Entry)
    requires QueueSound(s) && Enabled(s, Append(c)) && Entering(s, c).queue == s.queue + [x]
    ensures x.id == s.nextID + 1 == Entering(s, c).nextID
    ensures OlderThan(Entering(s, c).queue, x) <= s.settings.maxEntries - 1
  {
    var queue := s.queue + [x];
    assert queue[|s.queue|] == x;
    OlderThanOthers(queue, x);
  }

  lemma PickingOlder(s: Service, now: Time, x: Entry)
    requires QueueSound(s) && s.settings.maxWait > 0 && s.worker.AtNext?
    ensures OlderThan(Picking(s, now).queue, x) + (if PassedOver(s, Next(now), x) then 1 else 0) <= OlderThan(s.queue, x)
  {
    if Picking(s, now).worker.Checking? {
      OvertakingStep(s.queue, Take(now), x, s.settings.maxWait);
    }
  }

  lemma OlderStep(s: Service, a: Action, x: Entry)
    requires QueueSound(s) && s.settings.maxWait > 0 && Enabled(s, a) && x.id <= s.nextID
    ensures x.id <= Apply(s, a).nextID
    ensures OlderThan(Apply(s, a).queue, x) + (if PassedOver(s, a, x) then 1 else 0)
         <= OlderThan(s.queue, x) + if AppendedLate(s, a, x) then 1 else 0
  {
    if a.Append? {
      EnteringOlder(s, a.c, x);
    } else if a.Next? {
      PickingOlder(s, a.now, x);
    } else {
      QueueFrame(s, a);
    }
  }

  lemma {:induction false} SettingsStay(run: Run)
    requires Possible(run)
    ensures Final(run).settings == SettingsOf(run)
  {
    if run.Then? {
      SettingsStay(run.before);
      SettingsStep(Final(run.before), run.action);
    }
  }

  lemma SettingsStep(s: Service, a: Action)
    requires QueueOk(s.queue) && Enabled(s, a)
    ensures Apply(s, a).settings == s.settings
  {
    if !a.Append? && !a.Next? { QueueFrame(s, a); }
  }

  function SettingsOf(run: Run): Settings {
    match run
    case Begin(settings) => settings
    case Then(before, _) => SettingsOf(before)
  }

  /** While x is not queued yet it cannot be passed over. */
  lemma {:induction false} NotYetPassedOver(run: Run, x: Entry)
    requires Possible(run) && Final(run).nextID < x.id
    ensures TimesPassedOver(run, x) == 0
  {
    RunSound(run);
    if run.Then? {
      RunSound(run.before);
      NextIDGrows(Final(run.before), run.action);
      NotYetPassedOver(run.before, x);
      forall i | 0 <= i < |Final(run.before).queue| ensures Final(run.before).queue[i] != x {}
    }
  }

  lemma NextIDGrows(s: Service, a: Action)
    requires QueueSound(s) && Enabled(s, a)
    ensures s.nextID <= Apply(s, a).nextID <= s.nextID + 1
    ensures Apply(s, a).nextID != s.nextID ==> a.Append?
  {
    if !a.Append? && !a.Next? { QueueFrame(s, a); }
  }

  /** In every interleaving, a request that has been queued is passed over, once it is expired or aged and
      sheddable, at most maxEntries - 1 times plus once for every request appended later with an older stamp. */
  lemma {:induction false} PassedOverFewTimes(run: Run, joined: Run, x: Entry)
    requires Possible(run) && SettingsOf(run).maxWait > 0
    requires Extends(run, joined) && Joins(joined, x)
    ensures TimesPassedOver(run, x) + OlderThan(Final(run).queue, x) <= SettingsOf(run).maxEntries - 1 + LateAppends(run, x)
    ensures x.id <= Final(run).nextID
  {
    RunSound(run.before);
    SettingsStay(run.before);
    var s, a := Final(run.before), run.action;
    if run == joined {
      JoiningOlder(s, a.c, x);
      NotYetPassedOver(run.before, x);
    } else {
      PassedOverFewTimes(run.before, joined, x);
      OlderStep(s, a, x);
    }
  }

  /** The last step of the run appends x. */
  ghost predicate Joins(run: Run, x: Entry) {
    run.Then? && Possible(run) && run.action.Append? && Final(run).queue == Final(run.before).queue + [x]
  }

  /** Stamps do not decrease in append order from x on. */
  ghost predicate StampedAfter(run: Run, x: Entry)
    requires Possible(run)
  {
    run.Then? ==>
      && StampedAfter(run.before, x)
      && (run.action.Append? ==>
            var queue, grown := Final(run.before).queue, Final(run).queue;
            |grown| > |queue| && grown[|queue|].id > x.id ==> x.enqueuedAt <= grown[|queue|].enqueuedAt)
  }

  /** With stamps in append order, no request is passed over more than maxEntries - 1 times. */
  lemma {:induction false} PassedOverInOrder(run: Run, joined: Run, x: Entry)
    requires Possible(run) && SettingsOf(run).maxWait > 0
    requires Extends(run, joined) && Joins(joined, x) && StampedAfter(run, x)
    ensures TimesPassedOver(run, x) <= SettingsOf(run).maxEntries - 1
  {
    PassedOverFewTimes(run, joined, x);
    NoLateAppends(run, x);
  }

  lemma {:induction false} NoLateAppends(run: Run, x: Entry)
    requires Possible(run) && StampedAfter(run, x)
    ensures LateAppends(run, x) == 0
  {
    if run.Then? { NoLateAppends(run.before, x); }
  }
}
