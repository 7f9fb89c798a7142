/** Progress of an open service: a request whose deadline has come is answered after a bounded number of
    steps of the worker, whatever callers do in between. */
module PriorityProgress {
  import opened Machine
  import opened PrioritySelection
  import opened PriorityQueue
  import opened PriorityProtocol
  import opened PriorityTheorems

  predicate ByWorker(a: Action) {
    !ByOthers(a) && !a.Append?
  }

  /** Steps until the worker is back at the queue. */
  function RoundWork(w: Worker): nat {
    match w
    case Checking(_) => 5
    case Timing(_) => 4
    case Deciding(_) => 3
    case Rechecking(_, _) => 2
    case Sending(_, _) => 1
    case Parked(_) => 1
    case _ => 0
  }

  predicate Holds(w: Worker, x: Entry) {
    (w.Checking? || w.Timing? || w.Deciding? || w.Rechecking? || w.Sending?) && w.entry == x
  }

  predicate Pending(s: Service, x: Entry) {
    x in s.queue || Holds(s.worker, x)
  }

  /** A bound on the worker's steps before x is answered: one round of six steps for every older request and
      for x. */
  function Remaining(s: Service, x: Entry): nat {
    RoundWork(s.worker) + if Holds(s.worker, x) then 0 else 6 * (OlderThan(s.queue, x) + 1)
  }

  /** A request past its deadline has also outwaited the coalescing delay: the worker never parks over it. */
  lemma ExpiredIsReady(queue: seq<Entry>, x: Entry, now: Time, settings: Settings)
    requires x in queue && settings.coalesce <= settings.maxWait && settings.maxWait > 0
    requires Expired(x, now, settings.maxWait)
    ensures Ready(queue, now, settings.coalesce)
  {
  }

  predicate Timely(settings: Settings) {
    settings.coalesce <= settings.maxWait && settings.maxWait > 0
  }

  lemma StaysQueued(queue: seq<Entry>, k: nat, x: Entry)
    requires k < |queue| && x in queue && queue[k] != x
    ensures x in Without(queue, k)
  {
    var i :| 0 <= i < |queue| && queue[i] == x;
    assert Without(queue, k)[if i < k then i else i - 1] == x;
  }

  /** Taking the next request brings x one round closer. */
  lemma PickingProgress(s: Service, now: Time, x: Entry)
    requires QueueSound(s) && Timely(s.settings) && !s.closed && s.worker.AtNext?
    requires x in s.queue && Expired(x, now, s.settings.maxWait)
    ensures Pending(Picking(s, now), x) && Remaining(Picking(s, now), x) < Remaining(s, x)
  {
    ExpiredIsReady(s.queue, x, now, s.settings);
    var k := Choose(s.queue, now, s.settings.maxWait);
    assert Picking(s, now) == s.(queue := Without(s.queue, k), worker := Checking(s.queue[k]));
    if s.queue[k] != x {
      StaysQueued(s.queue, k, x);
      OvertakenDrops(s.queue, k, x, now, s.settings.maxWait);
    }
  }

  /** Whatever goes before an expired request is older, so there is one older request less. */
  lemma OvertakenDrops(queue: seq<Entry>, k: nat, x: Entry, now: Time, maxWait: int)
    requires maxWait > 0 && First(queue, k, now, maxWait)
    requires x in queue && queue[k] != x && Expired(x, now, maxWait)
    ensures OlderThan(Without(queue, k), x) == OlderThan(queue, x) - 1
  {
    var i: nat :| i < |queue| && queue[i] == x;
    OnlyOlderOvertakes(queue, k, i, now, maxWait);
    OlderThanWithout(queue, k, x);
  }

  lemma EnteringProgress(s: Service, c: nat, x: Entry)
    requires QueueSound(s) && Enabled(s, Append(c)) && Pending(s, x)
    ensures Pending(Entering(s, c), x)
    ensures Remaining(Entering(s, c), x) <= Remaining(s, x) + if AppendedLate(s, Append(c), x) then 6 else 0
  {
    if x in s.queue {
      EnteringOlder(s, c, x);
    }
  }

  /** The steps that do not touch the queue: others leave the worker, the worker moves on. */
  lemma RoundProgress(s: Service, a: Action, x: Entry)
    requires QueueSound(s) && ClosingSound(s) && !s.closed && Enabled(s, a) && Pending(s, x)
    requires !a.Append? && !a.Next? && !(a.Send? && Holds(s.worker, x))
    ensures Pending(Apply(s, a), x)
    ensures Remaining(Apply(s, a), x) + (if ByWorker(a) then 1 else 0) <= Remaining(s, x)
  {
    if ByOthers(a) {
      OthersCopies(s, a, x.client);
    } else {
      WorkerMoves(s, a, x);
    }
  }

  lemma WorkerMoves(s: Service, a: Action, x: Entry)
    requires QueueOk(s.queue) && ClosingSound(s) && !s.closed && Enabled(s, a) && ByWorker(a) && !a.Next?
    requires !(a.Send? && Holds(s.worker, x))
    ensures Apply(s, a).queue == s.queue && (Holds(Apply(s, a).worker, x) <==> Holds(s.worker, x))
    ensures RoundWork(Apply(s, a).worker) < RoundWork(s.worker)
  {
  }

  /** Sent results stay sent. */
  lemma SentStays(s: Service, a: Action, c: nat)
    requires QueueSound(s) && Enabled(s, a)
    ensures SentTo(Apply(s, a).log, c) >= SentTo(s.log, c)
    ensures a.Send? && s.worker.entry.client == c ==> SentTo(Apply(s, a).log, c) > 0
  {
    if a.Send? {
      SentOne(s.log, Sent(s.worker.entry.client, s.worker.reply), c);
    } else if a.Answer? {
      SentOne(s.log, Sent(s.worker.items[0].client, QueueClosed), c);
    } else if ByOthers(a) {
      OthersCopies(s, a, c);
    } else if !a.Append? && !a.Next? {
      QuietCopies(s, a, c);
    }
  }

  /** While x waits for its answer every step of the worker uses up some of what remains. */
  lemma DueStep(s: Service, a: Action, x: Entry)
    requires Sound(s) && Timely(s.settings) && !s.closed && Enabled(s, a) && Pending(s, x)
    requires a.Next? ==> Expired(x, a.now, s.settings.maxWait)
    ensures SentTo(Apply(s, a).log, x.client) == 0 ==>
              && Pending(Apply(s, a), x)
              && Remaining(Apply(s, a), x) + (if ByWorker(a) then 1 else 0)
                 <= Remaining(s, x) + if AppendedLate(s, a, x) then 6 else 0
  {
    if a.Append? {
      EnteringProgress(s, a.c, x);
    } else if a.Next? {
      PickingProgress(s, a.now, x);
    } else if a.Send? && Holds(s.worker, x) {
      SentStays(s, a, x.client);
    } else {
      RoundProgress(s, a, x);
    }
  }

  // ---------- runs ----------

  /** Since `due` the worker has looked at the queue only after x's deadline. */
  ghost predicate DueSince(run: Run, due: Run, x: Entry)
    requires Extends(run, due)
  {
    run == due || (DueSince(run.before, due, x) && (run.action.Next? ==> Expired(x, run.action.now, SettingsOf(run).maxWait)))
  }

  ghost function WorkerSteps(run: Run, due: Run): nat
    requires Extends(run, due)
  {
    if run == due then 0 else WorkerSteps(run.before, due) + if ByWorker(run.action) then 1 else 0
  }

  lemma StaysOpen(s: Service, a: Action)
    requires QueueOk(s.queue) && Enabled(s, a) && !Apply(s, a).closed
    ensures !s.closed
  {
  }

  /** In every interleaving of an open service, a request that is due has been sent its result, or still
      has fewer steps of the worker to wait than one round for each queued request, each older request
      appended since, and the round under way. */
  lemma {:induction false} DueProgress(run: Run, due: Run, x: Entry)
    requires Possible(run) && Extends(run, due) && x in Final(due).queue && Timely(SettingsOf(run))
    requires !Final(run).closed && DueSince(run, due, x)
    ensures LateAppends(due, x) <= LateAppends(run, x)
    ensures SentTo(Final(run).log, x.client) == 0 ==>
              && Pending(Final(run), x)
              && WorkerSteps(run, due) + Remaining(Final(run), x)
                 <= 6 * SettingsOf(run).maxEntries + 5 + 6 * (LateAppends(run, x) - LateAppends(due, x))
  {
    SettingsStay(run);
    if run == due {
      RunSound(run);
      OlderThanOthers(Final(run).queue, x);
    } else {
      var s, a := Final(run.before), run.action;
      RunSound(run.before);
      StaysOpen(s, a);
      DueProgress(run.before, due, x);
      SettingsStay(run.before);
      SentStays(s, a, x.client);
      if SentTo(Final(run).log, x.client) == 0 {
        DueStep(s, a, x);
      }
    }
  }

  /** So a due request of an open service is answered, exactly once, within that many steps of the worker. */
  lemma DueIsAnswered(run: Run, due: Run, x: Entry)
    requires Possible(run) && Extends(run, due) && x in Final(due).queue && Timely(SettingsOf(run))
    requires !Final(run).closed && DueSince(run, due, x)
    requires WorkerSteps(run, due) >= 6 * (SettingsOf(run).maxEntries + 1 + LateAppends(run, x) - LateAppends(due, x))
    ensures SentTo(Final(run).log, x.client) == 1
  {
    DueProgress(run, due, x);
    ExactlyOneResult(run, x.client);
  }

  /** And the worker can take them: over a nonempty queue it always has a step of its own, unless a caller
      that has just appended is about to wake it. */
  lemma WorkerCanStep(s: Service)
    requires ClosingSound(s) && WakeSound(s) && s.queue != []
    requires forall c :: c in s.callers ==> !s.callers[c].MustSignal?
    ensures exists a :: ByWorker(a) && Enabled(s, a)
  {
    var a := WorkerStep(s);
    assert ByWorker(a) && Enabled(s, a);
  }

  /** A step of the worker where it stands. */
  function WorkerStep(s: Service): (a: Action)
    requires !s.worker.Answering? && !s.worker.Exited?
    requires s.worker.Parked? && !s.worker.timed ==> s.wake
    ensures ByWorker(a) && Enabled(s, a)
  {
    match s.worker
    case AtNext => Next(0)
    case Parked(timed) => if timed then Fire else Wake
    case Checking(_) => CheckContext
    case Timing(_) => CheckDeadline(0)
    case Deciding(_) => AskDelegate(Admits)
    case Rechecking(_, _) => RecheckContext
    case Sending(_, _) => Send
    case Draining => TakeAll
  }
}
