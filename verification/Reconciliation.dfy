/** Reconciliation does not depend on the order in which map iteration visits the reservations: the
    incremental overlay is always the from-scratch sum of the map that is left. */
module Reconciliation {
  import opened Machine
  import opened Totals
  import opened Reservations
  import opened Controller
  import opened ControllerSound

  /** One publication as seen by reconciliation. */
  datatype Pass = Pass(watermark: nat, observation: Observation, at: Time, lease: int)

  function Left(r: Reservation, p: Pass): Option<Reservation> {
    Reconcile(r, p.watermark, p.observation, p.at, p.lease)
  }

  function AfterPass(rs: map<nat, Reservation>, p: Pass): map<nat, Reservation> {
    Reconciled(rs, p.watermark, p.observation, p.at, p.lease)
  }

  /** The reservations when only those in `seen` have been reconciled. */
  ghost function Partly(rs: map<nat, Reservation>, seen: set<nat>, p: Pass): map<nat, Reservation> {
    map id | id in rs && (id in seen ==> Left(rs[id], p).Some?) :: if id in seen then Left(rs[id], p).value else rs[id]
  }

  ghost function Visited(rs: map<nat, Reservation>, seen: set<nat>): map<nat, Reservation> {
    map id | id in rs && id in seen :: rs[id]
  }

  /** Sequences of a request whose forwarding the sample covers. */
  function CountedBy(watermark: nat): Reservation -> int {
    (r: Reservation) => if 0 < r.forwardedSequence <= watermark then r.demand.decodeSequences else 0
  }

  ghost function Seen(order: seq<nat>): set<nat> {
    set i | 0 <= i < |order| :: order[i]
  }

  lemma PartlyStep(rs: map<nat, Reservation>, seen: set<nat>, id: nat, p: Pass)
    requires id in rs && id !in seen
    ensures id in Partly(rs, seen, p) && Partly(rs, seen, p)[id] == rs[id]
    ensures Partly(rs, seen + {id}, p)
         == if Left(rs[id], p).None? then Partly(rs, seen, p) - {id} else Partly(rs, seen, p)[id := Left(rs[id], p).value]
  {
  }

  lemma NoneSeen(rs: map<nat, Reservation>, p: Pass)
    ensures Partly(rs, {}, p) == rs && Visited(rs, {}) == map[]
  {
  }

  lemma AllSeen(rs: map<nat, Reservation>, seen: set<nat>, p: Pass)
    requires forall id :: id in rs ==> id in seen
    ensures Partly(rs, seen, p) == AfterPass(rs, p) && Visited(rs, seen) == rs
  {
  }

  lemma PartlyWellFormed(rs: map<nat, Reservation>, seen: set<nat>, p: Pass)
    requires AllWellFormed(rs)
    ensures AllWellFormed(Partly(rs, seen, p))
  {
    var partly := Partly(rs, seen, p);
    forall id | id in partly ensures WellFormed(partly[id]) {
      if id in seen { LeftKeepsDemand(rs[id], p); }
    }
  }

  lemma LeftKeepsDemand(r: Reservation, p: Pass)
    requires Left(r, p).Some?
    ensures Left(r, p).value.demand == r.demand
    ensures WellFormed(r) ==> WellFormed(Left(r, p).value)
  {
  }

  /** Liabilities counted so far never exceed the liabilities of all reservations. */
  lemma CountedFits(rs: map<nat, Reservation>, seen: set<nat>, watermark: nat)
    requires AllWellFormed(rs)
    ensures 0 <= Total(Visited(rs, seen), CountedBy(watermark)) <= OverlayOf(rs).sequenceLiabilities
  {
    var visited := Visited(rs, seen);
    TotalNonnegative(visited, CountedBy(watermark));
    TotalBelow(visited, CountedBy(watermark), Liability);
    VisitedBelow(rs, seen);
  }

  lemma {:induction false} VisitedBelow(rs: map<nat, Reservation>, seen: set<nat>)
    requires AllWellFormed(rs)
    ensures Total(Visited(rs, seen), Liability) <= Total(rs, Liability)
    decreases |rs|
  {
    if rs != map[] {
      var id :| id in rs;
      TotalSplit(rs, Liability, id);
      VisitedBelow(rs - {id}, seen);
      VisitedRemove(rs, seen, id);
      if id in seen {
        TotalSplit(Visited(rs, seen), Liability, id);
      }
    } else {
      PartlyVisitedEmpty(seen);
    }
  }

  lemma PartlyVisitedEmpty(seen: set<nat>)
    ensures Visited(map[], seen) == map[]
  {
  }

  lemma VisitedRemove(rs: map<nat, Reservation>, seen: set<nat>, id: nat)
    requires id in rs
    ensures Visited(rs - {id}, seen) == Visited(rs, seen) - {id}
    ensures id !in seen ==> Visited(rs, seen) - {id} == Visited(rs, seen)
  {
  }

  lemma CountedStep(rs: map<nat, Reservation>, seen: set<nat>, id: nat, watermark: nat)
    requires AllWellFormed(rs) && id in rs && id !in seen && OverlayOf(rs).sequenceLiabilities <= MAX_INT64
    ensures var before, after := Total(Visited(rs, seen), CountedBy(watermark)), Total(Visited(rs, seen + {id}), CountedBy(watermark));
            if 0 < rs[id].forwardedSequence <= watermark
            then AddNonnegativeInt64(before, rs[id].demand.decodeSequences) == Some(after) else before == after
  {
    CountedFits(rs, seen, watermark);
    CountedFits(rs, seen + {id}, watermark);
    VisitedStep(rs, seen, id);
    TotalInsert(Visited(rs, seen), CountedBy(watermark), id, rs[id]);
    assert WellFormed(rs[id]);
  }

  lemma VisitedStep(rs: map<nat, Reservation>, seen: set<nat>, id: nat)
    requires id in rs && id !in seen
    ensures id !in Visited(rs, seen)
    ensures Visited(rs, seen + {id}) == Visited(rs, seen)[id := rs[id]]
  {
  }

  /** The overlay half of a turn, on the partly reconciled map. */
  lemma OverlayTurn(partly: map<nat, Reservation>, id: nat, p: Pass, after: map<nat, Reservation>)
    requires AllWellFormed(partly) && id in partly && OverlayOf(partly).sequenceLiabilities <= MAX_INT64
    requires after == if Left(partly[id], p).None? then partly - {id} else partly[id := Left(partly[id], p).value]
    ensures OverlayOf(after).sequenceLiabilities <= MAX_INT64
    ensures Contribution(partly[id]).Some?
    ensures Left(partly[id], p).None? ==>
              SubtractOverlay(OverlayOf(partly), Contribution(partly[id]).value) == Some(OverlayOf(after))
    ensures Left(partly[id], p).Some? ==>
              Replacement(OverlayOf(partly), partly[id], Left(partly[id], p).value) == Some(OverlayOf(after))
    ensures Left(partly[id], p) == Some(partly[id]) ==> OverlayOf(after) == OverlayOf(partly)
  {
    assert WellFormed(partly[id]);
    if Left(partly[id], p).None? {
      DropReservation(partly, id);
    } else {
      LeftKeepsDemand(partly[id], p);
      ReplaceReservation(partly, id, Left(partly[id], p).value);
      SameItem(partly, id);
    }
  }

  /** One turn of the loop: the overlay follows the reservations exactly and nothing is refused. */
  lemma ReconcileTurn(rs: map<nat, Reservation>, seen: set<nat>, id: nat, p: Pass)
    requires AllWellFormed(rs) && id in rs && id !in seen
    requires OverlayOf(rs).sequenceLiabilities <= MAX_INT64
    requires OverlayOf(Partly(rs, seen, p)).sequenceLiabilities <= MAX_INT64
    ensures var acc := (OverlayOf(Partly(rs, seen, p)), Total(Visited(rs, seen), CountedBy(p.watermark)));
            var next := (OverlayOf(Partly(rs, seen + {id}, p)), Total(Visited(rs, seen + {id}), CountedBy(p.watermark)));
            && ReconcileItem(rs[id], acc, p.watermark, p.observation, p.at, p.lease) == Some(next)
            && next.0.sequenceLiabilities <= MAX_INT64
  {
    PartlyStep(rs, seen, id, p);
    PartlyWellFormed(rs, seen, p);
    CountedStep(rs, seen, id, p.watermark);
    OverlayTurn(Partly(rs, seen, p), id, p, Partly(rs, seen + {id}, p));
    assert WellFormed(rs[id]);
  }

  lemma SameItem(rs: map<nat, Reservation>, id: nat)
    requires id in rs
    ensures rs[id := rs[id]] == rs
  {
  }

  lemma SeenStep(order: seq<nat>)
    requires order != []
    ensures Seen(order) == Seen(order[..|order| - 1]) + {order[|order| - 1]}
  {
    var n := |order| - 1;
    forall x | x in Seen(order) ensures x in Seen(order[..n]) + {order[n]} {
      var i :| 0 <= i < |order| && x == order[i];
      if i < n { assert order[..n][i] == x; }
    }
    forall x | x in Seen(order[..n]) ensures x in Seen(order) {
      var i :| 0 <= i < n && x == order[..n][i];
      assert order[i] == x;
    }
  }

  /** After any distinct prefix of the iteration the loop holds the exact overlay of the partly
      reconciled map and the exact liabilities of the reservations visited. */
  lemma {:induction false} LoopExact(order: seq<nat>, s: State, p: Pass)
    requires BooksOk(s) && p.lease == s.leaseDuration
    requires forall i :: 0 <= i < |order| ==> order[i] in s.reservations
    requires forall i, j :: 0 <= i < j < |order| ==> order[i] != order[j]
    ensures var overlay := OverlayOf(Partly(s.reservations, Seen(order), p));
            && ReconciledOverlay(order, s, p.watermark, p.observation, p.at)
               == Some((overlay, Total(Visited(s.reservations, Seen(order)), CountedBy(p.watermark))))
            && overlay.sequenceLiabilities <= MAX_INT64
  {
    WellFormedBooks(s);
    if order == [] {
      NoneSeen(s.reservations, p);
      assert Seen(order) == {};
    } else {
      var n := |order| - 1;
      var prefix, id := order[..n], order[n];
      LoopExact(prefix, s, p);
      SeenStep(order);
      assert id !in Seen(prefix);
      ReconcileTurn(s.reservations, Seen(prefix), id, p);
    }
  }

  /** In whatever order the map is iterated, reconciliation succeeds with the from-scratch overlay of the
      map left behind and the liabilities the sample covers. */
  lemma OrderIrrelevant(order: seq<nat>, s: State, p: Pass)
    requires BooksOk(s) && p.lease == s.leaseDuration && IterationOrder(order, s.reservations)
    ensures ReconciledOverlay(order, s, p.watermark, p.observation, p.at)
         == Some((OverlayOf(AfterPass(s.reservations, p)), Total(s.reservations, CountedBy(p.watermark))))
    ensures OverlayOf(AfterPass(s.reservations, p)).sequenceLiabilities <= MAX_INT64
    ensures 0 <= Total(s.reservations, CountedBy(p.watermark)) <= s.overlay.sequenceLiabilities
  {
    LoopExact(order, s, p);
    forall id | id in s.reservations ensures id in Seen(order) {
      var i :| 0 <= i < |order| && order[i] == id;
    }
    AllSeen(s.reservations, Seen(order), p);
    WellFormedBooks(s);
    CountedFits(s.reservations, Seen(order), p.watermark);
  }

  /** A weight reconciliation does not change, and which debts do not carry, keeps its total. */
  lemma {:induction false} PassKeepsTotal(rs: map<nat, Reservation>, p: Pass, weight: Reservation -> int)
    requires forall id :: id in rs ==>
               if Left(rs[id], p).None? then weight(rs[id]) == 0 else weight(Left(rs[id], p).value) == weight(rs[id])
    ensures Total(AfterPass(rs, p), weight) == Total(rs, weight)
    decreases |rs|
  {
    if rs == map[] {
      PassOfNothing(p);
    } else {
      var id :| id in rs;
      TotalSplit(rs, weight, id);
      PassKeepsTotal(rs - {id}, p, weight);
      PassRemove(rs, p, id);
      if Left(rs[id], p).Some? {
        TotalSplit(AfterPass(rs, p), weight, id);
      }
    }
  }

  /** A weight reconciliation never raises has a total that never rises. */
  lemma {:induction false} PassLowersTotal(rs: map<nat, Reservation>, p: Pass, weight: Reservation -> int)
    requires forall id :: id in rs ==>
               if Left(rs[id], p).None? then weight(rs[id]) >= 0 else weight(Left(rs[id], p).value) <= weight(rs[id])
    ensures Total(AfterPass(rs, p), weight) <= Total(rs, weight)
    decreases |rs|
  {
    if rs == map[] {
      PassOfNothing(p);
    } else {
      var id :| id in rs;
      TotalSplit(rs, weight, id);
      PassLowersTotal(rs - {id}, p, weight);
      PassRemove(rs, p, id);
      if Left(rs[id], p).Some? {
        TotalSplit(AfterPass(rs, p), weight, id);
      }
    }
  }

  lemma PassOfNothing(p: Pass)
    ensures AfterPass(map[], p) == map[]
  {
  }

  lemma PassRemove(rs: map<nat, Reservation>, p: Pass, id: nat)
    requires id in rs
    ensures AfterPass(rs - {id}, p) == AfterPass(rs, p) - {id}
    ensures Left(rs[id], p).None? ==> AfterPass(rs, p) - {id} == AfterPass(rs, p)
    ensures Left(rs[id], p).Some? ==> id in AfterPass(rs, p) && AfterPass(rs, p)[id] == Left(rs[id], p).value
  {
  }
}
