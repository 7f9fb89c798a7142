/** The priority queue as a concurrent protocol: callers of Decide, one worker and one closer, interleaved
    at every critical section, channel operation and context check. */
module PriorityProtocol {
  import opened Machine
  import opened Policy
  import opened PrioritySelection
  import opened PriorityQueue

  datatype Reply =
    | Granted
    | Protected
    | DelegateUnavailable
    | QueueCanceled
    | QueueTimeout
    | QueueFull
    | QueueClosed

  /** One caller of Decide; `queued` tells whether it was ever appended. */
  datatype Caller =
    | Stamped(tier: Tier, enqueuedAt: Time)
    | MustSignal
    | Waiting
    | Returned(queued: bool, reply: Reply)

  datatype Worker =
    | AtNext
    | Parked(timed: bool)
    | Checking(entry: Entry)
    | Timing(entry: Entry)
    | Deciding(entry: Entry)
    | Rechecking(entry: Entry, reply: Reply)
    | Sending(entry: Entry, reply: Reply)
    | Draining
    | Answering(items: seq<Entry>)
    | Exited

  datatype Closer = NotClosing | FlagSet | ChannelClosed | Signalled | Closed

  /** A value sent on a caller's result channel. */
  datatype Sent = Sent(client: nat, reply: Reply)

  /** `wake` is the one token the wake channel can hold; `log` is everything sent on result channels.
      `live` and `ended` are the callers whose delegate reservation is held or has been terminated. */
  datatype Service = Service(
    settings: Settings,
    queue: seq<Entry>,
    nextID: nat,
    closed: bool,
    closeChannel: bool,
    wake: bool,
    worker: Worker,
    closer: Closer,
    callers: map<nat, Caller>,
    cancelled: set<nat>,
    log: seq<Sent>,
    live: set<nat>,
    ended: set<nat>)

  function Start(settings: Settings): Service {
    Service(settings, [], 0, false, false, false, AtNext, NotClosing, map[], {}, [], {}, {})
  }

  datatype Outcome = Admits | Protects | Panics | Malformed(reserved: bool)

  datatype Action =
    | Call(c: nat, tier: Tier, now: Time)
    | Append(c: nat)
    | Signal(c: nat)
    | Receive(c: nat, at: nat)
    | Cancel(c: nat)
    | Next(now: Time)
    | CheckContext
    | CheckDeadline(now: Time)
    | AskDelegate(outcome: Outcome)
    | RecheckContext
    | Send
    | Wake
    | Fire
    | SeeClosed
    | TakeAll
    | Answer
    | Exit
    | SetClosed
    | CloseChannel
    | CloseSignal
    | Finish

  predicate Enabled(s: Service, a: Action) {
    match a
    case Call(c, _, _) => c !in s.callers
    case Append(c) => c in s.callers && s.callers[c].Stamped?
    case Signal(c) => c in s.callers && s.callers[c].MustSignal?
    case Receive(c, at) => c in s.callers && s.callers[c].Waiting? && at < |s.log| && s.log[at].client == c
    case Cancel(c) => true
    case Next(_) => s.worker.AtNext?
    case CheckContext => s.worker.Checking?
    case CheckDeadline(_) => s.worker.Timing?
    case AskDelegate(_) => s.worker.Deciding?
    case RecheckContext => s.worker.Rechecking?
    case Send => s.worker.Sending?
    case Wake => s.worker.Parked? && s.wake
    case Fire => s.worker.Parked? && s.worker.timed
    case SeeClosed => s.worker.Parked? && s.closeChannel
    case TakeAll => s.worker.Draining?
    case Answer => s.worker.Answering? && s.worker.items != []
    case Exit => s.worker == Answering([])
    case SetClosed => s.closer.NotClosing?
    case CloseChannel => s.closer.FlagSet?
    case CloseSignal => s.closer.ChannelClosed?
    case Finish => s.closer.Signalled? && s.worker.Exited?
  }

  function Entering(s: Service, c: nat): Service
    requires Enabled(s, Append(c))
  {
    if s.closed then s.(callers := s.callers[c := Returned(false, QueueClosed)])
    else if |s.queue| >= s.settings.maxEntries then s.(callers := s.callers[c := Returned(false, QueueFull)])
    else s.(nextID := s.nextID + 1,
            queue := s.queue + [Entry(c, s.nextID + 1, s.callers[c].tier, s.callers[c].enqueuedAt)],
            callers := s.callers[c := MustSignal])
  }

  function Picking(s: Service, now: Time): Service
    requires QueueOk(s.queue)
  {
    if s.closed then s.(worker := Draining)
    else if s.queue == [] then s.(worker := Parked(false))
    else if !Ready(s.queue, now, s.settings.coalesce) then s.(worker := Parked(true))
    else
      var k := Choose(s.queue, now, s.settings.maxWait);
      s.(queue := Without(s.queue, k), worker := Checking(s.queue[k]))
  }

  /** The delegate, with a panic or a malformed answer turned into an unavailable one. */
  function Asking(s: Service, outcome: Outcome): Service
    requires s.worker.Deciding?
  {
    var e := s.worker.entry;
    match outcome
    case Admits => s.(worker := Rechecking(e, Granted), live := s.live + {e.client})
    case Protects => s.(worker := Rechecking(e, Protected))
    case Panics => s.(worker := Rechecking(e, DelegateUnavailable))
    case Malformed(reserved) =>
      s.(worker := Rechecking(e, DelegateUnavailable),
         ended := if reserved then s.ended + {e.client} else s.ended)
  }

  /** A reservation won in a race with cancellation is terminated before the reply. */
  function Rechecked(s: Service): Service
    requires s.worker.Rechecking?
  {
    var e := s.worker.entry;
    if e.client !in s.cancelled then s.(worker := Sending(e, s.worker.reply))
    else if s.worker.reply != Granted then s.(worker := Sending(e, QueueCanceled))
    else s.(worker := Sending(e, QueueCanceled), live := s.live - {e.client}, ended := s.ended + {e.client})
  }

  function Delivered(s: Service): Service
    requires s.worker.Sending?
  {
    s.(log := s.log + [Sent(s.worker.entry.client, s.worker.reply)], worker := AtNext)
  }

  /** The drain answers what it took, one request after another. */
  function Answered(s: Service): Service
    requires s.worker.Answering? && s.worker.items != []
  {
    s.(log := s.log + [Sent(s.worker.items[0].client, QueueClosed)], worker := Answering(s.worker.items[1..]))
  }

  function Apply(s: Service, a: Action): Service
    requires QueueOk(s.queue) && Enabled(s, a)
  {
    match a
    case Call(c, tier, now) =>
      s.(callers := s.callers[c := if c in s.cancelled then Returned(false, QueueCanceled) else Stamped(tier, now)])
    case Append(c) => Entering(s, c)
    case Signal(c) => s.(callers := s.callers[c := Waiting], wake := true)
    case Receive(c, at) => s.(callers := s.callers[c := Returned(true, s.log[at].reply)])
    case Cancel(c) => s.(cancelled := s.cancelled + {c})
    case Next(now) => Picking(s, now)
    case CheckContext =>
      var e := s.worker.entry;
      s.(worker := if e.client in s.cancelled then Sending(e, QueueCanceled) else Timing(e))
    case CheckDeadline(now) =>
      var e := s.worker.entry;
      s.(worker := if Expired(e, now, s.settings.maxWait) then Sending(e, QueueTimeout) else Deciding(e))
    case AskDelegate(outcome) => Asking(s, outcome)
    case RecheckContext => Rechecked(s)
    case Send => Delivered(s)
    case Wake => s.(wake := false, worker := AtNext)
    case Fire => s.(worker := AtNext)
    case SeeClosed => s.(worker := Draining)
    case TakeAll => s.(queue := [], worker := Answering(s.queue))
    case Answer => Answered(s)
    case Exit => s.(worker := Exited)
    case SetClosed => s.(closed := true, closer := FlagSet)
    case CloseChannel => s.(closeChannel := true, closer := ChannelClosed)
    case CloseSignal => s.(wake := true, closer := Signalled)
    case Finish => s.(closer := Closed)
  }

  // ---------- where every request is ----------

  /** How many of the entries are c's. */
  function Entries(entries: seq<Entry>, c: nat): nat {
    if entries == [] then 0 else (if entries[0].client == c then 1 else 0) + Entries(entries[1..], c)
  }

  function SentTo(log: seq<Sent>, c: nat): nat {
    if log == [] then 0 else SentTo(log[..|log| - 1], c) + if log[|log| - 1].client == c then 1 else 0
  }

  /** The requests in the worker's hands. */
  function Hand(w: Worker): seq<Entry> {
    match w
    case Checking(e) => [e]
    case Timing(e) => [e]
    case Deciding(e) => [e]
    case Rechecking(e, _) => [e]
    case Sending(e, _) => [e]
    case Answering(items) => items
    case _ => []
  }

  function InFlight(s: Service, c: nat): nat {
    Entries(s.queue, c) + Entries(Hand(s.worker), c)
  }

  /** The caller was appended to the queue at some time. */
  predicate WasQueued(s: Service, c: nat) {
    c in s.callers && (s.callers[c].MustSignal? || s.callers[c].Waiting? || (s.callers[c].Returned? && s.callers[c].queued))
  }

  function Copies(s: Service, c: nat): nat {
    InFlight(s, c) + SentTo(s.log, c)
  }

  function Owed(s: Service, c: nat): nat {
    if WasQueued(s, c) then 1 else 0
  }

  /** Every appended request is in exactly one place: the queue, the worker's hands, or answered once. */
  ghost predicate Accounted(s: Service) {
    forall c: nat :: Copies(s, c) == Owed(s, c)
  }

  ghost predicate QueueSound(s: Service) {
    && s.settings.maxEntries > 0
    && QueueOk(s.queue) && |s.queue| <= s.settings.maxEntries
    && forall i :: 0 <= i < |s.queue| ==> s.queue[i].id <= s.nextID
  }

  /** Closing goes flag, channel, wake, drain, in this order, and the drained queue stays empty. */
  ghost predicate ClosingSound(s: Service) {
    && (s.closed <==> s.closer != NotClosing)
    && (s.closeChannel <==> s.closer != NotClosing && s.closer != FlagSet)
    && (s.worker.Draining? || s.worker.Answering? || s.worker.Exited? ==> s.closed)
    && (s.worker.Answering? || s.worker.Exited? ==> s.queue == [])
    && (s.closer.Closed? ==> s.worker.Exited?)
  }

  /** A worker parked without a timer over a nonempty queue has a wake token, or a caller about to send one. */
  ghost predicate WakeSound(s: Service) {
    s.worker == Parked(false) && s.queue != [] ==> s.wake || exists c :: c in s.callers && s.callers[c].MustSignal?
  }

  /** The delegate has answered for c and the worker has not sent the reply yet. */
  predicate InHand(w: Worker, c: nat) {
    (w.Rechecking? || w.Sending?) && w.entry.client == c
  }

  predicate GrantInHand(w: Worker, c: nat) {
    InHand(w, c) && w.reply == Granted
  }

  /** A live reservation has an owner: the worker holding its grant, or the caller the grant was sent to. */
  ghost predicate ReservationsSound(s: Service) {
    && (forall c :: c in s.live <==> GrantInHand(s.worker, c) || Sent(c, Granted) in s.log)
    && (forall c :: c in s.ended ==> c !in s.live && (InHand(s.worker, c) || SentTo(s.log, c) > 0))
  }

  /** What a caller got back is what was sent to it. */
  ghost predicate RepliesSound(s: Service) {
    forall c :: c in s.callers && s.callers[c].Returned? && s.callers[c].queued ==> Sent(c, s.callers[c].reply) in s.log
  }

  ghost predicate Sound(s: Service) {
    && QueueSound(s) && Accounted(s) && ClosingSound(s) && WakeSound(s) && ReservationsSound(s) && RepliesSound(s)
  }

  // ---------- runs ----------

  datatype Run = Begin(settings: Settings) | Then(before: Run, action: Action)

  ghost predicate Possible(run: Run)
    decreases run, 0
  {
    match run
    case Begin(settings) => settings.maxEntries > 0
    case Then(before, action) => Possible(before) && QueueOk(Final(before).queue) && Enabled(Final(before), action)
  }

  ghost function Final(run: Run): Service
    requires Possible(run)
    decreases run, 1
  {
    match run
    case Begin(settings) => Start(settings)
    case Then(before, action) => Apply(Final(before), action)
  }

  // ---------- counting ----------

  lemma {:induction false} EntriesJoin(a: seq<Entry>, b: seq<Entry>, c: nat)
    ensures Entries(a + b, c) == Entries(a, c) + Entries(b, c)
  {
    if a == [] {
      assert a + b == b;
    } else {
      EntriesJoin(a[1..], b, c);
      assert (a + b)[1..] == a[1..] + b;
    }
  }

  lemma EntriesOne(e: Entry, c: nat)
    ensures Entries([e], c) == if e.client == c then 1 else 0
  {
    assert [e][1..] == [];
  }

  lemma EntriesWithout(queue: seq<Entry>, k: nat, c: nat)
    requires k < |queue|
    ensures Entries(queue, c) == Entries(Without(queue, k), c) + Entries([queue[k]], c)
  {
    EntriesJoin(queue[..k], queue[k + 1..], c);
    EntriesJoin(queue[..k], queue[k..], c);
    EntriesJoin([queue[k]], queue[k + 1..], c);
    assert queue == queue[..k] + queue[k..];
    assert queue[k..] == [queue[k]] + queue[k + 1..];
  }

  lemma SentOne(log: seq<Sent>, m: Sent, c: nat)
    ensures SentTo(log + [m], c) == SentTo(log, c) + if m.client == c then 1 else 0
  {
    assert (log + [m])[..|log|] == log;
  }

  lemma {:induction false} SentCounts(log: seq<Sent>, m: Sent)
    requires m in log
    ensures SentTo(log, m.client) > 0
  {
    var n := |log| - 1;
    if log[n] != m { SentCounts(log[..n], m); }
  }

  lemma {:induction false} CountedIsSent(log: seq<Sent>, c: nat)
    requires SentTo(log, c) > 0
    ensures exists i :: 0 <= i < |log| && log[i].client == c
  {
    var n := |log| - 1;
    if log[n].client != c {
      CountedIsSent(log[..n], c);
      var i :| 0 <= i < n && log[..n][i].client == c;
      assert log[i].client == c;
    }
  }

  lemma {:induction false} SentTwice(log: seq<Sent>, i: nat, j: nat)
    requires i < j < |log| && log[i].client == log[j].client
    ensures SentTo(log, log[i].client) > 1
  {
    var n := |log| - 1;
    if j < n {
      SentTwice(log[..n], i, j);
    } else {
      assert log[i] in log[..n] by { assert log[..n][i] == log[i]; }
      SentCounts(log[..n], log[i]);
    }
  }

  // ---------- each part is kept by every step ----------

  lemma EnteringQueue(s: Service, c: nat)
    requires QueueSound(s) && Enabled(s, Append(c))
    ensures QueueSound(Entering(s, c))
  {
  }

  lemma PickingQueue(s: Service, now: Time)
    requires QueueSound(s)
    ensures QueueSound(Picking(s, now))
  {
    var s' := Picking(s, now);
    if s'.worker.Checking? {
      WithoutBelow(s.queue, Choose(s.queue, now, s.settings.maxWait), s.nextID);
    }
  }

  /** Only Append and Next move requests through the queue; the drain empties it. */
  lemma QueueFrame(s: Service, a: Action)
    requires QueueOk(s.queue) && Enabled(s, a) && !a.Append? && !a.Next?
    ensures Apply(s, a).settings == s.settings && Apply(s, a).nextID == s.nextID
    ensures Apply(s, a).queue == s.queue || Apply(s, a).queue == []
  {
    if ByOthers(a) { OthersFrame(s, a); } else if ByDrain(a) { DrainFrame(s, a); } else { HandsFrame(s, a); }
  }

  predicate SameQueue(s: Service, s': Service) {
    s'.settings == s.settings && s'.nextID == s.nextID && s'.queue == s.queue
  }

  lemma OthersFrame(s: Service, a: Action)
    requires QueueOk(s.queue) && Enabled(s, a) && ByOthers(a)
    ensures SameQueue(s, Apply(s, a))
  {
  }

  lemma DrainFrame(s: Service, a: Action)
    requires QueueOk(s.queue) && Enabled(s, a) && ByDrain(a)
    ensures SameQueue(s.(queue := Apply(s, a).queue), Apply(s, a))
    ensures Apply(s, a).queue == s.queue || Apply(s, a).queue == []
  {
  }

  lemma HandsFrame(s: Service, a: Action)
    requires QueueOk(s.queue) && Enabled(s, a) && !ByOthers(a) && !ByDrain(a) && !a.Append? && !a.Next?
    ensures SameQueue(s, Apply(s, a))
  {
  }

  lemma QueueStep(s: Service, a: Action)
    requires QueueSound(s) && Enabled(s, a)
    ensures QueueSound(Apply(s, a))
  {
    if a.Append? {
      EnteringQueue(s, a.c);
    } else if a.Next? {
      PickingQueue(s, a.now);
    } else {
      QueueFrame(s, a);
    }
  }

  lemma EnteringCopies(s: Service, d: nat, c: nat)
    requires QueueSound(s) && Enabled(s, Append(d))
    ensures Copies(Entering(s, d), c) - Copies(s, c) == Owed(Entering(s, d), c) - Owed(s, c)
  {
    if !s.closed && |s.queue| < s.settings.maxEntries {
      var e := Entering(s, d).queue[|s.queue|];
      EntriesJoin(s.queue, [e], c);
      EntriesOne(e, c);
    }
  }

  lemma PickingCopies(s: Service, now: Time, c: nat)
    requires QueueSound(s) && s.worker.AtNext?
    ensures Copies(Picking(s, now), c) == Copies(s, c)
  {
    if Picking(s, now).worker.Checking? {
      EntriesWithout(s.queue, Choose(s.queue, now, s.settings.maxWait), c);
    }
  }

  lemma DeliveredCopies(s: Service, c: nat)
    requires s.worker.Sending?
    ensures Copies(Delivered(s), c) == Copies(s, c)
  {
    SentOne(s.log, Sent(s.worker.entry.client, s.worker.reply), c);
    EntriesOne(s.worker.entry, c);
  }

  lemma AnsweredCopies(s: Service, c: nat)
    requires s.worker.Answering? && s.worker.items != []
    ensures Copies(Answered(s), c) == Copies(s, c)
  {
    SentOne(s.log, Sent(s.worker.items[0].client, QueueClosed), c);
  }

  predicate ByCloser(a: Action) {
    a.SetClosed? || a.CloseChannel? || a.CloseSignal? || a.Finish?
  }

  predicate ByDrain(a: Action) {
    a.SeeClosed? || a.TakeAll? || a.Answer? || a.Exit?
  }

  /** Callers and the closer do not move requests once they are queued. */
  predicate ByOthers(a: Action) {
    a.Call? || a.Signal? || a.Receive? || a.Cancel? || ByCloser(a)
  }

  lemma OthersCopies(s: Service, a: Action, c: nat)
    requires QueueSound(s) && Enabled(s, a) && ByOthers(a)
    ensures Apply(s, a).queue == s.queue && Apply(s, a).worker == s.worker && Apply(s, a).log == s.log
    ensures WasQueued(Apply(s, a), c) <==> WasQueued(s, c)
  {
  }

  /** The worker's other steps leave the queue and its hands together as they are. */
  lemma QuietCopies(s: Service, a: Action, c: nat)
    requires QueueSound(s) && Enabled(s, a) && !ByOthers(a) && !a.Append? && !a.Next? && !a.Send? && !a.Answer?
    ensures InFlight(Apply(s, a), c) == InFlight(s, c) && Apply(s, a).log == s.log
    ensures Apply(s, a).callers == s.callers
  {
    if ByDrain(a) { DrainCopies(s, a, c); } else { HandsCopies(s, a, c); }
  }

  lemma DrainCopies(s: Service, a: Action, c: nat)
    requires QueueOk(s.queue) && Enabled(s, a) && ByDrain(a) && !a.Answer?
    ensures InFlight(Apply(s, a), c) == InFlight(s, c) && Apply(s, a).log == s.log && Apply(s, a).callers == s.callers
  {
  }

  lemma HandsCopies(s: Service, a: Action, c: nat)
    requires QueueOk(s.queue) && Enabled(s, a) && !ByOthers(a) && !ByDrain(a) && !a.Append? && !a.Next? && !a.Send?
    ensures Apply(s, a).queue == s.queue && Hand(Apply(s, a).worker) == Hand(s.worker)
    ensures Apply(s, a).log == s.log && Apply(s, a).callers == s.callers
  {
    if a.AskDelegate? {
      assert Apply(s, a) == Asking(s, a.outcome);
    } else if a.RecheckContext? {
      assert Apply(s, a) == Rechecked(s);
    }
  }

  /** Every step moves a request from one place to the next or leaves it where it is. */
  lemma AccountedStep(s: Service, a: Action, c: nat)
    requires QueueSound(s) && Enabled(s, a)
    ensures Copies(Apply(s, a), c) - Copies(s, c) == Owed(Apply(s, a), c) - Owed(s, c)
  {
    if a.Append? {
      EnteringCopies(s, a.c, c);
    } else if a.Next? {
      PickingCopies(s, a.now, c);
    } else if a.Send? {
      DeliveredCopies(s, c);
    } else if a.Answer? {
      AnsweredCopies(s, c);
    } else if ByOthers(a) {
      OthersCopies(s, a, c);
    } else {
      QuietCopies(s, a, c);
    }
  }

  lemma CloserCloses(s: Service, a: Action)
    requires QueueOk(s.queue) && ClosingSound(s) && Enabled(s, a) && ByCloser(a)
    ensures ClosingSound(Apply(s, a))
  {
  }

  lemma DrainCloses(s: Service, a: Action)
    requires QueueOk(s.queue) && ClosingSound(s) && Enabled(s, a) && (ByDrain(a) || a.Next? || a.Append?)
    ensures ClosingSound(Apply(s, a))
  {
  }

  predicate SameClosing(s: Service, s': Service) {
    s'.closed == s.closed && s'.closeChannel == s.closeChannel && s'.closer == s.closer && s'.queue == s.queue
  }

  lemma CallersDoNotClose(s: Service, a: Action)
    requires QueueOk(s.queue) && Enabled(s, a) && ByOthers(a) && !ByCloser(a)
    ensures SameClosing(s, Apply(s, a)) && Apply(s, a).worker == s.worker
  {
  }

  /** Dispatching one request leaves the closer and its flags alone and does not start the drain. */
  lemma HandsDoNotClose(s: Service, a: Action)
    requires QueueOk(s.queue) && Enabled(s, a) && !ByOthers(a) && !ByDrain(a) && !a.Next? && !a.Append?
    ensures SameClosing(s, Apply(s, a)) && !s.worker.Exited?
    ensures !Apply(s, a).worker.Draining? && !Apply(s, a).worker.Answering? && !Apply(s, a).worker.Exited?
  {
  }

  lemma ClosingStep(s: Service, a: Action)
    requires QueueSound(s) && ClosingSound(s) && Enabled(s, a)
    ensures ClosingSound(Apply(s, a))
  {
    if ByCloser(a) {
      CloserCloses(s, a);
    } else if ByDrain(a) || a.Next? || a.Append? {
      DrainCloses(s, a);
    } else if ByOthers(a) {
      CallersDoNotClose(s, a);
    } else {
      HandsDoNotClose(s, a);
    }
  }

  lemma WakeStep(s: Service, a: Action)
    requires QueueSound(s) && WakeSound(s) && Enabled(s, a)
    ensures WakeSound(Apply(s, a))
  {
    var s' := Apply(s, a);
    if s'.worker == Parked(false) && s'.queue != [] && !s'.wake && !a.Next? {
      if a.Append? && WasQueued(s', a.c) {
        assert s'.callers[a.c].MustSignal?;
      } else {
        var d :| d in s.callers && s.callers[d].MustSignal?;
        assert d in s'.callers && s'.callers[d] == s.callers[d];
      }
    }
  }
}
