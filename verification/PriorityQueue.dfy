/** The critical sections of the priority queue, each run under its lock. */
module PriorityQueue {
  import opened Machine
  import opened Policy
  import opened PrioritySelection

  /** The oldest stamp in the queue. */
  function OldestAt(queue: seq<Entry>): (at: Time)
    requires queue != []
    ensures forall i :: 0 <= i < |queue| ==> at <= queue[i].enqueuedAt
    ensures exists i :: 0 <= i < |queue| && at == queue[i].enqueuedAt
  {
    var n := |queue| - 1;
    if n == 0 then queue[0].enqueuedAt
    else
      var at := OldestAt(queue[..n]);
      if queue[n].enqueuedAt < at then queue[n].enqueuedAt else at
  }

  /** Dispatching starts once the oldest request has waited for the coalescing delay. */
  predicate Ready(queue: seq<Entry>, now: Time, coalesce: int)
    requires queue != []
  {
    OldestAt(queue) + coalesce <= now
  }

  lemma ChosenIsFirst(queue: seq<Entry>, k: int, now: Time, maxWait: int)
    requires QueueOk(queue) && First(queue, k, now, maxWait)
    ensures k == Choose(queue, now, maxWait)
  {
    var chosen := Choose(queue, now, maxWait);
    if k != chosen { FirstIsUnique(queue, chosen, k, now, maxWait); }
  }

  method OldestStamp(queue: seq<Entry>) returns (at: Time)
    requires queue != []
    ensures at == OldestAt(queue)
  {
    at := queue[0].enqueuedAt;
    assert queue[..1] == [queue[0]];
    for i := 1 to |queue|
      invariant at == OldestAt(queue[..i])
    {
      assert queue[..i + 1][..i] == queue[..i];
      if queue[i].enqueuedAt < at {
        at := queue[i].enqueuedAt;
      }
    }
    assert queue[..|queue|] == queue;
  }

  datatype Entrance = Entered(id: nat) | RefusedClosed | RefusedFull

  datatype Pick = Picked(entry: Entry) | Idle | NotYet(wait: int) | SeenClosed

  class Queue {
    const settings: Settings
    var queue: seq<Entry>
    var nextID: nat
    var closed: bool

    ghost predicate Valid()
      reads this
    {
      && settings.maxEntries > 0 && 0 <= settings.coalesce <= settings.maxWait && settings.maxWait > 0
      && QueueOk(queue) && |queue| <= settings.maxEntries
      && forall i :: 0 <= i < |queue| ==> queue[i].id <= nextID
    }

    constructor (maxEntries: int, coalesce: int, maxWait: int)
      ensures Valid() && queue == [] && nextID == 0 && !closed
      ensures settings == Defaulted(maxEntries, coalesce, maxWait)
    {
      settings := Defaulted(maxEntries, coalesce, maxWait);
      queue, nextID, closed := [], 0, false;
    }

    /** The locked part of Decide. */
    method Enter(client: nat, tier: Tier, enqueuedAt: Time) returns (r: Entrance)
      requires Valid()
      modifies `queue, `nextID
      ensures Valid()
      ensures r.RefusedClosed? <==> closed
      ensures r.RefusedFull? <==> !closed && |old(queue)| >= settings.maxEntries
      ensures r.Entered? ==>
                && r.id == nextID == old(nextID) + 1
                && queue == old(queue) + [Entry(client, r.id, tier, enqueuedAt)]
      ensures !r.Entered? ==> queue == old(queue) && nextID == old(nextID)
    {
      if closed {
        return RefusedClosed;
      }
      if |queue| >= settings.maxEntries {
        return RefusedFull;
      }
      nextID := nextID + 1;
      queue := queue + [Entry(client, nextID, tier, enqueuedAt)];
      return Entered(nextID);
    }

    method Next(now: Time) returns (r: Pick)
      requires Valid()
      modifies `queue
      ensures Valid()
      ensures r.SeenClosed? <==> closed
      ensures r.Idle? <==> !closed && old(queue) == []
      ensures r.NotYet? <==> !closed && old(queue) != [] && !Ready(old(queue), now, settings.coalesce)
      ensures r.NotYet? ==> r.wait == Sub(OldestAt(old(queue)) + settings.coalesce, now) > 0
      ensures !r.Picked? ==> queue == old(queue)
      ensures r.Picked? ==>
                var k := Choose(old(queue), now, settings.maxWait);
                && r.entry == old(queue)[k] && queue == Without(old(queue), k)
                && (settings.maxWait <= MAX_INT64 ==> RightChoice(old(queue), k, now, settings.maxWait))
    {
      if closed {
        return SeenClosed;
      }
      if queue == [] {
        return Idle;
      }
      var oldestAt := OldestStamp(queue);
      var readyAt := oldestAt + settings.coalesce;
      if now < readyAt {
        return NotYet(Sub(readyAt, now));
      }
      var index := ChooseIndex(queue, now, settings.maxWait);
      ChosenIsFirst(queue, index, now, settings.maxWait);
      var entry := queue[index];
      WithoutBelow(queue, index, nextID);
      queue := Without(queue, index);
      return Picked(entry);
    }

    method SetClosed()
      requires Valid()
      modifies `closed
      ensures Valid() && closed
    {
      closed := true;
    }

    /** The locked part of the drain. */
    method TakeAll() returns (items: seq<Entry>)
      requires Valid()
      modifies `queue
      ensures Valid() && queue == [] && items == old(queue)
    {
      items := queue;
      queue := [];
    }
  }
}
