/** What the queue's answers mean: which request goes next, and what makes each reply true. */
module PriorityMeaning {
  import opened Machine
  import opened Policy
  import opened PrioritySelection
  import opened PriorityQueue
  import opened PriorityProtocol
  import opened PriorityTheorems

  /** Missing settings are 64 requests, 2 ms and 50 ms, and the longest wait covers the coalescing delay. */
  lemma DefaultedExactly(maxEntries: int, coalesce: int, maxWait: int)
    ensures var s := Defaulted(maxEntries, coalesce, maxWait);
            var longest := if maxWait > 0 then maxWait else 50_000_000;
            && s.maxEntries == (if maxEntries > 0 then maxEntries else 64)
            && s.coalesce == (if coalesce >= 0 then coalesce else 2_000_000)
            && (s.maxWait == longest || s.maxWait == s.coalesce) && s.maxWait >= longest && s.maxWait >= s.coalesce
  {
  }

  /** The worker starts dispatching once some request has waited for the coalescing delay. */
  lemma ReadyExactly(queue: seq<Entry>, now: Time, coalesce: int)
    requires queue != []
    ensures Ready(queue, now, coalesce) <==> exists i :: 0 <= i < |queue| && Waited(queue[i], now, coalesce)
  {
    var i :| 0 <= i < |queue| && OldestAt(queue) == queue[i].enqueuedAt;
    if Ready(queue, now, coalesce) { assert Waited(queue[i], now, coalesce); }
  }

  /** An open service with a waiting request that is ready hands over the right one and keeps the others. */
  lemma DispatchesRight(s: Service, now: Time)
    requires QueueSound(s) && s.worker.AtNext? && 0 < s.settings.maxWait <= MAX_INT64
    ensures var s' := Picking(s, now);
            if s.closed then s'.worker.Draining? && s'.queue == s.queue
            else if exists i :: 0 <= i < |s.queue| && Waited(s.queue[i], now, s.settings.coalesce) then
              exists k :: RightChoice(s.queue, k, now, s.settings.maxWait)
                       && s'.worker == Checking(s.queue[k]) && s'.queue == s.queue[..k] + s.queue[k + 1..]
            else s'.worker == Parked(s.queue != []) && s'.queue == s.queue
  {
    if !s.closed && s.queue != [] {
      ReadyExactly(s.queue, now, s.settings.coalesce);
      if Ready(s.queue, now, s.settings.coalesce) {
        var k := Choose(s.queue, now, s.settings.maxWait);
        FirstIsRight(s.queue, k, now, s.settings.maxWait);
        assert Picking(s, now).worker == Checking(s.queue[k]);
      }
    }
  }

  // ---------- one request's way through the worker ----------

  predicate Cancelled(s: Service, e: Entry) { e.client in s.cancelled }

  /** A cancelled request is not asked about, nor one that has waited for maxWait. */
  lemma ChecksExactly(s: Service, now: Time)
    requires QueueSound(s) && 0 < s.settings.maxWait <= MAX_INT64
    ensures s.worker.Checking? ==>
              var e := s.worker.entry;
              Apply(s, CheckContext).worker == if Cancelled(s, e) then Sending(e, QueueCanceled) else Timing(e)
    ensures s.worker.Timing? ==>
              var e := s.worker.entry;
              Apply(s, CheckDeadline(now)).worker
              == if now - e.enqueuedAt >= s.settings.maxWait then Sending(e, QueueTimeout) else Deciding(e)
  {
  }

  /** The delegate's answer is passed on if it is one; a reservation it made is kept for a grant, ended for a
      malformed answer, and ended for a grant that comes too late. */
  lemma AnswersExactly(s: Service, outcome: Outcome)
    requires s.worker.Deciding?
    ensures var e, asked := s.worker.entry, Asking(s, outcome);
            var reply := match outcome
                         case Admits => Granted
                         case Protects => Protected
                         case _ => DelegateUnavailable;
            && asked.worker == Rechecking(e, reply)
            && Rechecked(asked).worker == Sending(e, if Cancelled(s, e) then QueueCanceled else reply)
            && (Rechecked(asked).live == if outcome.Admits? && !Cancelled(s, e) then s.live + {e.client}
                                         else if outcome.Admits? then s.live - {e.client}
                                         else s.live)
            && (Rechecked(asked).ended
                == if (outcome.Admits? && Cancelled(s, e)) || (outcome.Malformed? && outcome.reserved)
                   then s.ended + {e.client} else s.ended)
  {
    if outcome.Admits? { assert s.live + {s.worker.entry.client} - {s.worker.entry.client} == s.live - {s.worker.entry.client}; }
  }

  /** Entering: turned away closed, turned away full, or appended with the stamp and tier it came with. */
  lemma EntersExactly(s: Service, c: nat)
    requires Enabled(s, Append(c))
    ensures var s' := Entering(s, c);
            if s.closed then s'.callers == s.callers[c := Returned(false, QueueClosed)] && s'.queue == s.queue
            else if |s.queue| >= s.settings.maxEntries then
              s'.callers == s.callers[c := Returned(false, QueueFull)] && s'.queue == s.queue
            else
              && s'.callers == s.callers[c := MustSignal] && |s'.queue| == |s.queue| + 1
              && s'.queue[..|s.queue|] == s.queue
              && s'.queue[|s.queue|] == Entry(c, s.nextID + 1, s.callers[c].tier, s.callers[c].enqueuedAt)
  {
  }

  // ---------- requests are the ones called in ----------

  /** What the caller came with: its tier and the clock at that moment. */
  datatype Came = Came(tier: Tier, at: Time)

  ghost function CameWith(run: Run): map<nat, Came>
    requires Possible(run)
  {
    match run
    case Begin(_) => map[]
    case Then(before, a) =>
      if a.Call? && a.c !in Final(before).cancelled then CameWith(before)[a.c := Came(a.tier, a.now)] else CameWith(before)
  }

  predicate CameSo(came: map<nat, Came>, e: Entry) {
    e.client in came && came[e.client] == Came(e.tier, e.enqueuedAt)
  }

  ghost predicate Faithful(s: Service, came: map<nat, Came>) {
    && (forall c :: c in came ==> c in s.callers)
    && (forall c :: c in s.callers && s.callers[c].Stamped? ==>
          c in came && came[c] == Came(s.callers[c].tier, s.callers[c].enqueuedAt))
    && (forall e :: e in s.queue ==> CameSo(came, e))
    && (forall e :: e in Hand(s.worker) ==> CameSo(came, e))
  }

  lemma CallFaithful(s: Service, a: Action, came: map<nat, Came>)
    requires QueueOk(s.queue) && Faithful(s, came) && Enabled(s, a) && a.Call?
    ensures Faithful(Apply(s, a), if a.c !in s.cancelled then came[a.c := Came(a.tier, a.now)] else came)
  {
    assert forall e :: e in s.queue ==> e.client != a.c;
    assert forall e :: e in Hand(s.worker) ==> e.client != a.c;
  }

  lemma OthersFaithful(s: Service, a: Action, came: map<nat, Came>)
    requires QueueOk(s.queue) && Faithful(s, came) && Enabled(s, a) && ByOthers(a) && !a.Call?
    ensures Faithful(Apply(s, a), came)
  {
  }

  lemma EnteringFaithful(s: Service, c: nat, came: map<nat, Came>)
    requires Faithful(s, came) && Enabled(s, Append(c))
    ensures Faithful(Entering(s, c), came)
  {
  }

  lemma PickingFaithful(s: Service, now: Time, came: map<nat, Came>)
    requires QueueOk(s.queue) && Faithful(s, came) && s.worker.AtNext?
    ensures Faithful(Picking(s, now), came)
  {
    PickingKeeps(s, now);
  }

  lemma PickingKeeps(s: Service, now: Time)
    requires QueueOk(s.queue) && s.worker.AtNext?
    ensures Picking(s, now).callers == s.callers
    ensures forall e :: e in Picking(s, now).queue ==> e in s.queue
    ensures forall e :: e in Hand(Picking(s, now).worker) ==> e in s.queue
  {
    if Picking(s, now).worker.Checking? {
      var k := Choose(s.queue, now, s.settings.maxWait);
      assert Picking(s, now).worker == Checking(s.queue[k]);
    }
  }

  lemma WorkerFaithful(s: Service, a: Action, came: map<nat, Came>)
    requires QueueOk(s.queue) && Faithful(s, came) && Enabled(s, a) && !ByOthers(a) && !a.Append? && !a.Next?
    ensures Faithful(Apply(s, a), came)
  {
    HandsKeep(s, a);
  }

  lemma HandsKeep(s: Service, a: Action)
    requires QueueOk(s.queue) && Enabled(s, a) && !ByOthers(a) && !a.Append? && !a.Next?
    ensures Apply(s, a).callers == s.callers
    ensures forall e :: e in Apply(s, a).queue ==> e in s.queue
    ensures forall e :: e in Hand(Apply(s, a).worker) ==> e in s.queue || e in Hand(s.worker)
  {
    if a.Send? {
    } else if ByDrain(a) {
    } else {
      HandsCopies(s, a, 0);
    }
  }

  /** In every interleaving each request in the queue or the worker's hands carries the tier its caller came
      with and the clock of that moment. */
  lemma {:induction false} RequestsAreCalls(run: Run)
    requires Possible(run)
    ensures Faithful(Final(run), CameWith(run))
  {
    if run.Then? {
      RequestsAreCalls(run.before);
      var s, a, came := Final(run.before), run.action, CameWith(run.before);
      if a.Call? {
        CallFaithful(s, a, came);
      } else if ByOthers(a) {
        OthersFaithful(s, a, came);
      } else if a.Append? {
        EnteringFaithful(s, a.c, came);
      } else if a.Next? {
        PickingFaithful(s, a.now, came);
      } else {
        WorkerFaithful(s, a, came);
      }
    }
  }

  function CancelledIn(run: Run): set<nat> {
    match run
    case Begin(_) => {}
    case Then(before, a) => CancelledIn(before) + if a.Cancel? then {a.c} else {}
  }

  lemma CancelStep(s: Service, a: Action)
    requires QueueOk(s.queue) && Enabled(s, a)
    ensures Apply(s, a).cancelled == s.cancelled + if a.Cancel? then {a.c} else {}
  {
  }

  /** Cancellations are never forgotten, and none is made up. */
  lemma {:induction false} CancellationsStay(run: Run)
    requires Possible(run)
    ensures Final(run).cancelled == CancelledIn(run)
  {
    if run.Then? {
      CancellationsStay(run.before);
      CancelStep(Final(run.before), run.action);
    }
  }

  // ---------- wake tokens ----------

  function Signals(run: Run): nat {
    match run
    case Begin(_) => 0
    case Then(before, a) => Signals(before) + if a.Signal? || a.CloseSignal? then 1 else 0
  }

  function Wakes(run: Run): nat {
    match run
    case Begin(_) => 0
    case Then(before, a) => Wakes(before) + if a.Wake? then 1 else 0
  }

  lemma TokenStep(s: Service, a: Action)
    requires QueueOk(s.queue) && Enabled(s, a)
    ensures a.Wake? ==> s.wake && !Apply(s, a).wake
    ensures !a.Wake? && !a.Signal? && !a.CloseSignal? ==> Apply(s, a).wake == s.wake
  {
  }

  /** Every wake-up is paid for by a signal: the worker never spins on a token already taken. */
  lemma {:induction false} WakesArePaid(run: Run)
    requires Possible(run)
    ensures Wakes(run) + (if Final(run).wake then 1 else 0) <= Signals(run)
  {
    if run.Then? {
      WakesArePaid(run.before);
      TokenStep(Final(run.before), run.action);
    }
  }

  /** Once closed, the worker goes from wherever it waits to the drain, which answers in queue order. */
  lemma DrainsExactly(s: Service)
    requires QueueOk(s.queue)
    ensures s.worker.Parked? && s.closeChannel ==> Apply(s, SeeClosed) == s.(worker := Draining)
    ensures s.worker.Draining? ==> Apply(s, TakeAll) == s.(worker := Answering(s.queue), queue := [])
    ensures s.worker.Answering? && s.worker.items != [] ==>
              var first, rest := s.worker.items[0], s.worker.items[1..];
              Apply(s, Answer) == s.(worker := Answering(rest), log := s.log + [Sent(first.client, QueueClosed)])
  {
  }

  // ---------- replies are true ----------

  /** A reply that a caller can be sent by the worker, and what holds when it is. */
  predicate TrueOf(s: Service, c: nat, reply: Reply) {
    && (reply == QueueCanceled ==> c in s.cancelled)
    && (reply == QueueClosed ==> s.closed)
  }

  ghost predicate Truthful(s: Service) {
    && (forall m :: m in s.log ==> TrueOf(s, m.client, m.reply) && m.reply != QueueFull)
    && (s.worker.Rechecking? ==> s.worker.reply == Granted || s.worker.reply == Protected || s.worker.reply == DelegateUnavailable)
    && (s.worker.Sending? ==> TrueOf(s, s.worker.entry.client, s.worker.reply) && s.worker.reply != QueueFull)
    && (s.worker.Answering? ==> s.closed)
    && (forall c :: c in s.callers && s.callers[c].Returned? ==> TrueOf(s, c, s.callers[c].reply))
  }

  lemma OthersTruthful(s: Service, a: Action)
    requires QueueOk(s.queue) && Truthful(s) && Enabled(s, a) && ByOthers(a)
    ensures Truthful(Apply(s, a))
  {
    var s' := Apply(s, a);
    forall c | c in s'.callers && s'.callers[c].Returned? ensures TrueOf(s', c, s'.callers[c].reply) {
      if a.Receive? && a.c == c { assert s.log[a.at] in s.log; }
    }
  }

  lemma EnteringTruthful(s: Service, c: nat)
    requires Truthful(s) && Enabled(s, Append(c))
    ensures Truthful(Entering(s, c))
  {
  }

  lemma WorkerTruthful(s: Service, a: Action)
    requires QueueOk(s.queue) && ClosingSound(s) && Truthful(s) && Enabled(s, a) && !ByOthers(a) && !a.Append?
    requires !a.Send? && !a.Answer?
    ensures Truthful(Apply(s, a))
  {
    WorkerSays(s, a);
    if a.Next? { PickingFrame(s, a.now); } else if ByDrain(a) { DrainCopies(s, a, 0); } else { HandsCopies(s, a, 0); }
  }

  /** What the worker is about to say, after a step of its own that sends nothing. */
  lemma WorkerSays(s: Service, a: Action)
    requires QueueOk(s.queue) && ClosingSound(s) && Truthful(s) && Enabled(s, a) && !ByOthers(a) && !a.Append?
    requires !a.Send? && !a.Answer?
    ensures var s' := Apply(s, a);
            && s'.closed == s.closed && s'.cancelled == s.cancelled && s'.callers == s.callers
            && (s'.worker.Rechecking? ==>
                  s'.worker.reply == Granted || s'.worker.reply == Protected || s'.worker.reply == DelegateUnavailable)
            && (s'.worker.Sending? ==> TrueOf(s', s'.worker.entry.client, s'.worker.reply) && s'.worker.reply != QueueFull)
            && (s'.worker.Answering? ==> s'.closed)
  {
    if a.AskDelegate? {
      assert Apply(s, a) == Asking(s, a.outcome);
    } else if a.RecheckContext? {
      assert Apply(s, a) == Rechecked(s);
    } else if a.Next? {
      assert Apply(s, a) == Picking(s, a.now);
      PickingFrame(s, a.now);
    }
  }

  lemma SendingTruthful(s: Service, a: Action)
    requires QueueOk(s.queue) && Truthful(s) && Enabled(s, a) && (a.Send? || a.Answer?)
    ensures Truthful(Apply(s, a))
  {
  }

  /** In every interleaving nobody is told a request was cancelled whose context was not, or that the
      service is closed while it is open; and a result out of the queue never says it was full. */
  lemma {:induction false} RepliesAreTrue(run: Run)
    requires Possible(run)
    ensures Truthful(Final(run))
  {
    if run.Then? {
      RepliesAreTrue(run.before);
      RunSound(run.before);
      var s, a := Final(run.before), run.action;
      if ByOthers(a) {
        OthersTruthful(s, a);
      } else if a.Append? {
        EnteringTruthful(s, a.c);
      } else if a.Send? || a.Answer? {
        SendingTruthful(s, a);
      } else {
        WorkerTruthful(s, a);
      }
    }
  }
}
