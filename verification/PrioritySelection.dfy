/** Which queued request is dispatched next: the three scans as one total order, and how often a request
    whose turn has come can still be overtaken. */
module PrioritySelection {
  import opened Machine
  import opened Policy

  /** A queued request. Ids are given in append order, so they order the queue by position. */
  datatype Entry = Entry(client: nat, id: nat, tier: Tier, enqueuedAt: Time)

  const MAXIMUM_ENTRIES: int := 64
  const COALESCE_DELAY: int := 2_000_000
  const MAXIMUM_WAIT: int := 50_000_000

  /** The queue's settings after defaulting. */
  datatype Settings = Settings(maxEntries: int, coalesce: int, maxWait: int)

  function Defaulted(maxEntries: int, coalesce: int, maxWait: int): (s: Settings)
    ensures s.maxEntries > 0 && 0 <= s.coalesce <= s.maxWait && s.maxWait > 0
  {
    var entries := if maxEntries <= 0 then MAXIMUM_ENTRIES else maxEntries;
    var delay := if coalesce < 0 then COALESCE_DELAY else coalesce;
    var wait := if maxWait <= 0 then MAXIMUM_WAIT else maxWait;
    Settings(entries, delay, if wait < delay then delay else wait)
  }

  // ---------- the order ----------

  predicate Expired(e: Entry, now: Time, maxWait: int) {
    Sub(now, e.enqueuedAt) >= maxWait
  }

  predicate Aged(e: Entry, now: Time, maxWait: int) {
    Sheddable(e.tier) && Sub(now, e.enqueuedAt) >= maxWait / 2
  }

  /** 0 for a request past its deadline, 1 for a sheddable one past half of it, 2 otherwise. */
  function Urgency(e: Entry, now: Time, maxWait: int): int {
    if Expired(e, now, maxWait) then 0 else if Aged(e, now, maxWait) then 1 else 2
  }

  /** Stamp order; requests with the same stamp stand in append order. */
  predicate Older(a: Entry, b: Entry) {
    a.enqueuedAt < b.enqueuedAt || (a.enqueuedAt == b.enqueuedAt && a.id < b.id)
  }

  /** Dispatch order: expired first, then aged sheddable, then the higher rank; the older within each. */
  predicate Before(a: Entry, b: Entry, now: Time, maxWait: int) {
    var ua, ub := Urgency(a, now, maxWait), Urgency(b, now, maxWait);
    || ua < ub
    || (ua == ub == 2 && Rank(a.tier) > Rank(b.tier))
    || (ua == ub && (ua == 2 ==> Rank(a.tier) == Rank(b.tier)) && Older(a, b))
  }

  /** Append order: every queue the service can hold. */
  predicate QueueOk(queue: seq<Entry>) {
    forall i, j :: 0 <= i < j < |queue| ==> queue[i].id < queue[j].id
  }

  /** The order is strict and total on requests with different ids, so a queue has exactly one first. */
  lemma BeforeIsTotal(now: Time, maxWait: int)
    ensures forall a, b, c :: Before(a, b, now, maxWait) && Before(b, c, now, maxWait) ==> Before(a, c, now, maxWait)
    ensures forall a :: !Before(a, a, now, maxWait)
    ensures forall a: Entry, b: Entry :: a.id != b.id ==> Before(a, b, now, maxWait) || Before(b, a, now, maxWait)
  {
  }

  ghost predicate First(queue: seq<Entry>, k: int, now: Time, maxWait: int) {
    && 0 <= k < |queue|
    && forall i :: 0 <= i < |queue| && i != k ==> Before(queue[k], queue[i], now, maxWait)
  }

  /** The first in dispatch order, found by one pass. */
  function Choose(queue: seq<Entry>, now: Time, maxWait: int): (k: nat)
    requires queue != [] && QueueOk(queue)
    ensures First(queue, k, now, maxWait)
  {
    var n := |queue| - 1;
    if n == 0 then 0
    else
      var k := Choose(queue[..n], now, maxWait);
      BeforeIsTotal(now, maxWait);
      if Before(queue[k], queue[n], now, maxWait) then k else n
  }

  lemma FirstIsUnique(queue: seq<Entry>, j: int, k: int, now: Time, maxWait: int)
    requires First(queue, j, now, maxWait) && 0 <= k < |queue| && k != j
    ensures !First(queue, k, now, maxWait)
  {
    assert Before(queue[j], queue[k], now, maxWait);
  }

  // ---------- the choice in plain terms ----------

  predicate Waited(e: Entry, now: Time, duration: int) {
    now - e.enqueuedAt >= duration
  }

  /** Default or flex, and waiting for half of the longest wait. */
  predicate HalfWaited(e: Entry, now: Time, maxWait: int) {
    (e.tier == TierDefault || e.tier == TierFlex) && Waited(e, now, maxWait / 2)
  }

  /** Of the entries that satisfy p, k has the oldest stamp, and stands first among those with its stamp. */
  ghost predicate OldestWhere(queue: seq<Entry>, k: int, p: Entry -> bool) {
    && 0 <= k < |queue| && p(queue[k])
    && forall i :: 0 <= i < |queue| && p(queue[i]) ==>
         queue[k].enqueuedAt < queue[i].enqueuedAt || (queue[k].enqueuedAt == queue[i].enqueuedAt && k <= i)
  }

  ghost predicate AnyWhere(queue: seq<Entry>, p: Entry -> bool) {
    exists i :: 0 <= i < |queue| && p(queue[i])
  }

  /** The oldest request that has waited for maxWait; without one, the oldest default or flex request that
      has waited for half of it; otherwise the oldest priority request, without one the oldest default
      request, and without one the oldest of the rest. */
  ghost predicate RightChoice(queue: seq<Entry>, k: int, now: Time, maxWait: int) {
    if AnyWhere(queue, e => Waited(e, now, maxWait)) then OldestWhere(queue, k, e => Waited(e, now, maxWait))
    else if AnyWhere(queue, e => HalfWaited(e, now, maxWait)) then OldestWhere(queue, k, e => HalfWaited(e, now, maxWait))
    else if AnyWhere(queue, (e: Entry) => e.tier == TierPriority) then OldestWhere(queue, k, (e: Entry) => e.tier == TierPriority)
    else if AnyWhere(queue, (e: Entry) => e.tier == TierDefault) then OldestWhere(queue, k, (e: Entry) => e.tier == TierDefault)
    else OldestWhere(queue, k, (e: Entry) => true)
  }

  /** The first in dispatch order is the right choice. */
  lemma FirstIsRight(queue: seq<Entry>, k: int, now: Time, maxWait: int)
    requires QueueOk(queue) && First(queue, k, now, maxWait) && 0 < maxWait <= 0x7FFF_FFFF_FFFF_FFFF
    ensures RightChoice(queue, k, now, maxWait)
  {
  }

  /** The three scans of the code, each keeping the first best entry, find the first in dispatch order. */
  method ChooseIndex(queue: seq<Entry>, now: Time, maxWait: int) returns (selected: int)
    requires queue != [] && QueueOk(queue)
    ensures First(queue, selected, now, maxWait)
    ensures 0 < maxWait <= MAX_INT64 ==> RightChoice(queue, selected, now, maxWait)
  {
    selected := ScanThrice(queue, now, maxWait);
    if 0 < maxWait <= MAX_INT64 { FirstIsRight(queue, selected, now, maxWait); }
  }

  method ScanThrice(queue: seq<Entry>, now: Time, maxWait: int) returns (selected: int)
    requires queue != [] && QueueOk(queue)
    ensures First(queue, selected, now, maxWait)
  {
    selected := -1;
    for index := 0 to |queue|
      invariant selected == -1 ==> forall i :: 0 <= i < index ==> !Expired(queue[i], now, maxWait)
      invariant selected != -1 ==> 0 <= selected < index && Expired(queue[selected], now, maxWait)
      invariant selected != -1 ==> forall i :: 0 <= i < index && i != selected && Expired(queue[i], now, maxWait) ==>
                                     Older(queue[selected], queue[i])
    {
      if Expired(queue[index], now, maxWait) &&
         (selected < 0 || queue[index].enqueuedAt < queue[selected].enqueuedAt) {
        selected := index;
      }
    }
    if selected >= 0 {
      return;
    }
    for index := 0 to |queue|
      invariant selected == -1 ==> forall i :: 0 <= i < index ==> !Aged(queue[i], now, maxWait)
      invariant selected != -1 ==> 0 <= selected < index && Aged(queue[selected], now, maxWait)
      invariant selected != -1 ==> forall i :: 0 <= i < index && i != selected && Aged(queue[i], now, maxWait) ==>
                                     Older(queue[selected], queue[i])
    {
      if Aged(queue[index], now, maxWait) &&
         (selected < 0 || queue[index].enqueuedAt < queue[selected].enqueuedAt) {
        selected := index;
      }
    }
    if selected >= 0 {
      return;
    }
    for index := 0 to |queue|
      invariant selected == -1 ==> index == 0
      invariant selected != -1 ==> 0 <= selected < index
      invariant selected != -1 ==> forall i :: 0 <= i < index && i != selected ==>
                                     Before(queue[selected], queue[i], now, maxWait)
    {
      if selected < 0 || Rank(queue[index].tier) > Rank(queue[selected].tier) ||
         (Rank(queue[index].tier) == Rank(queue[selected].tier) &&
          queue[index].enqueuedAt < queue[selected].enqueuedAt) {
        selected := index;
      }
    }
  }

  // ---------- overtaking ----------

  predicate Urgent(e: Entry, now: Time, maxWait: int) {
    Expired(e, now, maxWait) || Aged(e, now, maxWait)
  }

  function Without(queue: seq<Entry>, k: nat): (r: seq<Entry>)
    requires k < |queue|
    ensures |r| == |queue| - 1
    ensures QueueOk(queue) ==> QueueOk(r)
  {
    queue[..k] + queue[k + 1..]
  }

  lemma WithoutBelow(queue: seq<Entry>, k: nat, bound: nat)
    requires k < |queue| && forall i :: 0 <= i < |queue| ==> queue[i].id <= bound
    ensures forall i :: 0 <= i < |queue| - 1 ==> Without(queue, k)[i].id <= bound
  {
  }

  /** How many requests of the queue are older than x. */
  function OlderThan(queue: seq<Entry>, x: Entry): nat {
    if queue == [] then 0
    else OlderThan(queue[..|queue| - 1], x) + if Older(queue[|queue| - 1], x) then 1 else 0
  }

  lemma {:induction false} OlderThanJoin(a: seq<Entry>, b: seq<Entry>, x: Entry)
    ensures OlderThan(a + b, x) == OlderThan(a, x) + OlderThan(b, x)
  {
    if b == [] {
      assert a + b == a;
    } else {
      var n := |b| - 1;
      OlderThanJoin(a, b[..n], x);
      assert (a + b)[..|a + b| - 1] == a + b[..n];
    }
  }

  lemma OlderThanWithout(queue: seq<Entry>, k: nat, x: Entry)
    requires k < |queue|
    ensures OlderThan(queue, x) == OlderThan(Without(queue, k), x) + if Older(queue[k], x) then 1 else 0
  {
    OlderThanJoin(queue[..k], queue[k + 1..], x);
    OlderThanJoin(queue[..k], [queue[k]], x);
    OlderThanJoin(queue[..k + 1], queue[k + 1..], x);
    assert queue[..k + 1] == queue[..k] + [queue[k]];
    assert queue == queue[..k + 1] + queue[k + 1..];
  }

  /** Only an older request is dispatched before one that is expired or aged and sheddable. */
  lemma OnlyOlderOvertakes(queue: seq<Entry>, k: nat, i: nat, now: Time, maxWait: int)
    requires maxWait > 0 && First(queue, k, now, maxWait)
    requires i < |queue| && i != k && Urgent(queue[i], now, maxWait)
    ensures Older(queue[k], queue[i])
  {
    assert Before(queue[k], queue[i], now, maxWait);
  }

  /** An expired request is dispatched next exactly when no queued request is older. */
  lemma ExpiredGoesNext(queue: seq<Entry>, i: nat, now: Time, maxWait: int)
    requires maxWait > 0 && QueueOk(queue) && i < |queue| && Expired(queue[i], now, maxWait)
    ensures Choose(queue, now, maxWait) == i <==> OlderThan(queue, queue[i]) == 0
  {
    var k := Choose(queue, now, maxWait);
    if k != i {
      OnlyOlderOvertakes(queue, k, i, now, maxWait);
      OlderThanWithout(queue, k, queue[i]);
    } else {
      NoneOlder(queue, queue, i, now, maxWait);
    }
  }

  lemma {:induction false} NoneOlder(part: seq<Entry>, queue: seq<Entry>, i: nat, now: Time, maxWait: int)
    requires part <= queue && First(queue, i, now, maxWait) && Expired(queue[i], now, maxWait)
    ensures OlderThan(part, queue[i]) == 0
  {
    if part != [] {
      var n := |part| - 1;
      NoneOlder(part[..n], queue, i, now, maxWait);
      if n != i { assert Before(queue[i], queue[n], now, maxWait); }
    }
  }

  // ---------- runs of the queue ----------

  datatype Operation = Put(entry: Entry) | Take(now: Time)

  function After(queue: seq<Entry>, op: Operation, maxWait: int): seq<Entry>
    requires QueueOk(queue)
  {
    match op
    case Put(entry) => queue + [entry]
    case Take(now) => if queue == [] then queue else Without(queue, Choose(queue, now, maxWait))
  }

  /** Appended requests get fresh, growing ids. */
  ghost predicate Orderly(queue: seq<Entry>, ops: seq<Operation>, maxWait: int)
    decreases |ops|
  {
    && QueueOk(queue)
    && (ops != [] ==>
          && (ops[0].Put? ==> forall i :: 0 <= i < |queue| ==> queue[i].id < ops[0].entry.id)
          && Orderly(After(queue, ops[0], maxWait), ops[1..], maxWait))
  }

  /** One dispatch of another request while x is queued and expired, or aged and sheddable. */
  ghost predicate Overtaken(queue: seq<Entry>, op: Operation, x: Entry, maxWait: int)
    requires QueueOk(queue)
  {
    && op.Take? && x in queue && Urgent(x, op.now, maxWait)
    && queue[Choose(queue, op.now, maxWait)] != x
  }

  ghost function Overtakes(queue: seq<Entry>, ops: seq<Operation>, x: Entry, maxWait: int): nat
    requires Orderly(queue, ops, maxWait)
    decreases |ops|
  {
    if ops == [] then 0
    else (if Overtaken(queue, ops[0], x, maxWait) then 1 else 0)
         + Overtakes(After(queue, ops[0], maxWait), ops[1..], x, maxWait)
  }

  /** Requests appended during the run with an older stamp: their stamp was read before the lock was won. */
  function LateOlder(ops: seq<Operation>, x: Entry): nat {
    if ops == [] then 0
    else LateOne(ops[0], x) + LateOlder(ops[1..], x)
  }

  function LateOne(op: Operation, x: Entry): nat {
    if op.Put? && Older(op.entry, x) then 1 else 0
  }

  /** An overtaking removes an older request from the queue. */
  lemma OvertakingStep(queue: seq<Entry>, op: Operation, x: Entry, maxWait: int)
    requires maxWait > 0 && QueueOk(queue)
    ensures OlderThan(After(queue, op, maxWait), x) + (if Overtaken(queue, op, x, maxWait) then 1 else 0)
         <= OlderThan(queue, x) + LateOne(op, x)
  {
    match op
    case Put(entry) =>
      OlderThanJoin(queue, [entry], x);
      OlderThanOne(entry, x);
    case Take(now) =>
      if queue != [] {
        var k := Choose(queue, now, maxWait);
        OlderThanWithout(queue, k, x);
        if Overtaken(queue, op, x, maxWait) {
          var i :| 0 <= i < |queue| && queue[i] == x;
          OnlyOlderOvertakes(queue, k, i, now, maxWait);
        }
      }
  }

  lemma OlderThanOne(entry: Entry, x: Entry)
    ensures OlderThan([entry], x) == if Older(entry, x) then 1 else 0
  {
    assert [entry][..0] == [];
  }

  /** In every run the overtakings of a request whose turn has come are paid for by requests that were
      older than it, in the queue already or appended late. */
  lemma {:induction false} OvertakingBound(queue: seq<Entry>, ops: seq<Operation>, x: Entry, maxWait: int)
    requires maxWait > 0 && Orderly(queue, ops, maxWait)
    ensures Overtakes(queue, ops, x, maxWait) <= OlderThan(queue, x) + LateOlder(ops, x)
    decreases |ops|
  {
    if ops != [] {
      OvertakingBound(After(queue, ops[0], maxWait), ops[1..], x, maxWait);
      OvertakingStep(queue, ops[0], x, maxWait);
    }
  }

  /** With stamps nondecreasing in append order, nothing appended later is older. */
  lemma {:induction false} StampedInOrder(ops: seq<Operation>, x: Entry)
    requires forall i :: 0 <= i < |ops| && ops[i].Put? ==> x.enqueuedAt <= ops[i].entry.enqueuedAt && x.id < ops[i].entry.id
    ensures LateOlder(ops, x) == 0
  {
    if ops != [] {
      assert ops[0].Put? ==> !Older(ops[0].entry, x);
      forall i | 0 <= i < |ops[1..]| && ops[1..][i].Put?
        ensures x.enqueuedAt <= ops[1..][i].entry.enqueuedAt && x.id < ops[1..][i].entry.id
      {
        assert ops[1..][i] == ops[i + 1];
      }
      StampedInOrder(ops[1..], x);
    }
  }

  lemma {:induction false} OlderThanOthers(queue: seq<Entry>, x: Entry)
    ensures OlderThan(queue, x) <= |queue|
    ensures x in queue ==> OlderThan(queue, x) < |queue|
  {
    if queue != [] {
      OlderThanOthers(queue[..|queue| - 1], x);
      assert queue == queue[..|queue| - 1] + [queue[|queue| - 1]];
    }
  }

  /** So a queued request is overtaken at most maxEntries - 1 times once its turn has come. */
  lemma {:induction false} OvertakenFewTimes(queue: seq<Entry>, ops: seq<Operation>, x: Entry, settings: Settings)
    requires settings.maxWait > 0 && Orderly(queue, ops, settings.maxWait)
    requires x in queue && |queue| <= settings.maxEntries
    requires forall i :: 0 <= i < |ops| && ops[i].Put? ==> x.enqueuedAt <= ops[i].entry.enqueuedAt && x.id < ops[i].entry.id
    ensures Overtakes(queue, ops, x, settings.maxWait) <= settings.maxEntries - 1
  {
    OvertakingBound(queue, ops, x, settings.maxWait);
    StampedInOrder(ops, x);
    OlderThanOthers(queue, x);
  }

  /** Requests that read their stamp before x did and win the lock after it, one at a time. */
  function Latecomers(n: nat, id: nat): seq<Operation> {
    if n == 0 then []
    else [Put(Entry(id, id, TierDefault, 99)), Take(MAXIMUM_WAIT + 100)] + Latecomers(n - 1, id + 1)
  }

  /** Without that condition there is no bound: stamps are read before the lock, and an expired request
      with nothing older in the queue can be overtaken any number of times. */
  lemma {:induction false} LatecomersOvertake(n: nat, id: nat)
    requires id > 1
    ensures var x := Entry(0, 1, TierDefault, 100);
            && Expired(x, MAXIMUM_WAIT + 100, MAXIMUM_WAIT) && OlderThan([x], x) == 0
            && Orderly([x], Latecomers(n, id), MAXIMUM_WAIT)
            && Overtakes([x], Latecomers(n, id), x, MAXIMUM_WAIT) == n
  {
    var x := Entry(0, 1, TierDefault, 100);
    OlderThanOne(x, x);
    if n > 0 {
      LatecomersOvertake(n - 1, id + 1);
      LatecomerOvertakes(x, Entry(id, id, TierDefault, 99), Latecomers(n - 1, id + 1));
    }
  }

  lemma LatecomerOvertakes(x: Entry, y: Entry, rest: seq<Operation>)
    requires x.enqueuedAt == 100 && y.enqueuedAt == 99 && x.id < y.id
    requires Orderly([x], rest, MAXIMUM_WAIT)
    ensures var ops := [Put(y), Take(MAXIMUM_WAIT + 100)] + rest;
            && Orderly([x], ops, MAXIMUM_WAIT)
            && Overtakes([x], ops, x, MAXIMUM_WAIT) == 1 + Overtakes([x], rest, x, MAXIMUM_WAIT)
  {
    var now := MAXIMUM_WAIT + 100;
    var ops, queue := [Put(y), Take(now)] + rest, [x] + [y];
    assert ops[1..] == [Take(now)] + rest;
    assert ops[1..][1..] == rest;
    assert Before(y, x, now, MAXIMUM_WAIT) && !Before(x, y, now, MAXIMUM_WAIT);
    assert Choose(queue, now, MAXIMUM_WAIT) == 1;
    assert Without(queue, 1) == [x];
    assert x in queue;
  }
}
