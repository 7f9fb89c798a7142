/** Reservations, what each contributes to the overlay, and checked overlay arithmetic. */
module Reservations {
  import opened Machine
  import opened Totals
  import opened Policy

  datatype Phase = Reserved | Forwarded | ActiveDecode | ResidualDebt

  datatype Reservation = Reservation(
    id: nat,
    runtimeEpoch: nat,
    demand: Demand,
    coldSheddable: bool,
    phase: Phase,
    pendingFirstByteReleased: bool,
    forwardedAt: Time,
    admittedSequence: nat,
    forwardedSequence: nat,
    terminalSequence: nat)

  datatype Overlay = Overlay(
    unobservedSequences: int,
    sequenceLiabilities: int,
    liveReservations: int,
    residualDebts: int,
    coldSheddablePending: int)

  const NO_OVERLAY := Overlay(0, 0, 0, 0, 0)

  predicate ValidOverlay(o: Overlay) {
    && 0 <= o.unobservedSequences <= o.sequenceLiabilities
    && 0 <= o.coldSheddablePending <= o.liveReservations
    && o.residualDebts >= 0
  }

  function Contribution(r: Reservation): Option<Overlay> {
    if r.id == 0 || r.runtimeEpoch == 0 || !ValidDemand(r.demand) then
      None
    else
      var n := r.demand.decodeSequences;
      var contribution := match r.phase
        case Reserved | Forwarded =>
          Overlay(if r.pendingFirstByteReleased then 0 else n, n, 1, 0, if r.coldSheddable then 1 else 0)
        case ActiveDecode => Overlay(0, n, 1, 0, 0)
        case ResidualDebt => Overlay(0, n, 0, 1, 0);
      if (r.phase == ActiveDecode && !r.pendingFirstByteReleased) || !ValidOverlay(contribution) then None
      else Some(contribution)
  }

  function AddOverlay(a: Overlay, b: Overlay): Option<Overlay> {
    var unobserved := AddNonnegativeInt64(a.unobservedSequences, b.unobservedSequences);
    var liabilities := AddNonnegativeInt64(a.sequenceLiabilities, b.sequenceLiabilities);
    var live := AddNonnegativeInt64(a.liveReservations, b.liveReservations);
    var debts := AddNonnegativeInt64(a.residualDebts, b.residualDebts);
    var cold := AddNonnegativeInt64(a.coldSheddablePending, b.coldSheddablePending);
    if unobserved.None? || liabilities.None? || live.None? || debts.None? || cold.None? then
      None
    else
      var sum := Overlay(unobserved.value, liabilities.value, live.value, debts.value, cold.value);
      if ValidOverlay(sum) then Some(sum) else None
  }

  function SubtractOverlay(a: Overlay, b: Overlay): Option<Overlay> {
    if !ValidOverlay(a) || !ValidOverlay(b) ||
       a.unobservedSequences < b.unobservedSequences || a.sequenceLiabilities < b.sequenceLiabilities ||
       a.liveReservations < b.liveReservations || a.residualDebts < b.residualDebts ||
       a.coldSheddablePending < b.coldSheddablePending then
      None
    else
      var difference := Minus(a, b);
      if ValidOverlay(difference) then Some(difference) else None
  }

  function ReplaceOverlay(current: Overlay, before: Overlay, after: Overlay): Option<Overlay> {
    var without := SubtractOverlay(current, before);
    if without.None? then None else AddOverlay(without.value, after)
  }

  // ---------- unchecked overlay arithmetic and the from-scratch sum ----------

  function Plus(a: Overlay, b: Overlay): Overlay {
    Overlay(a.unobservedSequences + b.unobservedSequences, a.sequenceLiabilities + b.sequenceLiabilities,
            a.liveReservations + b.liveReservations, a.residualDebts + b.residualDebts,
            a.coldSheddablePending + b.coldSheddablePending)
  }

  function Minus(a: Overlay, b: Overlay): Overlay {
    Overlay(a.unobservedSequences - b.unobservedSequences, a.sequenceLiabilities - b.sequenceLiabilities,
            a.liveReservations - b.liveReservations, a.residualDebts - b.residualDebts,
            a.coldSheddablePending - b.coldSheddablePending)
  }

  function Share(r: Reservation): Overlay {
    if Contribution(r).Some? then Contribution(r).value else NO_OVERLAY
  }

  function Unobserved(r: Reservation): int { Share(r).unobservedSequences }
  function Liability(r: Reservation): int { Share(r).sequenceLiabilities }
  function Live(r: Reservation): int { Share(r).liveReservations }
  function Debt(r: Reservation): int { Share(r).residualDebts }
  function ColdPending(r: Reservation): int { Share(r).coldSheddablePending }

  /** The overlay recomputed from nothing: every reservation's contribution added up. */
  ghost function OverlayOf(rs: map<nat, Reservation>): Overlay {
    Overlay(Total(rs, Unobserved), Total(rs, Liability), Total(rs, Live), Total(rs, Debt), Total(rs, ColdPending))
  }

  /** A reservation the controller can hold: it contributes, and its sequences fit an int64. */
  predicate WellFormed(r: Reservation) {
    Contribution(r).Some? && r.demand.decodeSequences <= MAX_INT64
  }

  ghost predicate AllWellFormed(rs: map<nat, Reservation>) {
    forall id :: id in rs ==> WellFormed(rs[id])
  }

  lemma PlusByFields(sum: Overlay, a: Overlay, b: Overlay)
    requires sum.unobservedSequences == a.unobservedSequences + b.unobservedSequences
    requires sum.sequenceLiabilities == a.sequenceLiabilities + b.sequenceLiabilities
    requires sum.liveReservations == a.liveReservations + b.liveReservations
    requires sum.residualDebts == a.residualDebts + b.residualDebts
    requires sum.coldSheddablePending == a.coldSheddablePending + b.coldSheddablePending
    ensures sum == Plus(a, b) && Minus(sum, b) == a
  {
  }

  lemma {:induction false} OverlaySplit(rs: map<nat, Reservation>, id: nat)
    requires id in rs
    ensures OverlayOf(rs) == Plus(OverlayOf(rs - {id}), Share(rs[id]))
    ensures Minus(OverlayOf(rs), Share(rs[id])) == OverlayOf(rs - {id})
  {
    TotalSplit(rs, Unobserved, id);
    TotalSplit(rs, Liability, id);
    TotalSplit(rs, Live, id);
    TotalSplit(rs, Debt, id);
    TotalSplit(rs, ColdPending, id);
    PlusByFields(OverlayOf(rs), OverlayOf(rs - {id}), Share(rs[id]));
  }

  lemma {:induction false} OverlayPut(rs: map<nat, Reservation>, id: nat, r: Reservation)
    ensures OverlayOf(rs[id := r]) == Plus(OverlayOf(rs - {id}), Share(r))
  {
    OverlaySplit(rs[id := r], id);
    RemoveAfterPut(rs, id, r);
  }

  /** The sum is a valid overlay, and every component is bounded by the sequence liabilities. */
  lemma {:induction false} OverlayBounds(rs: map<nat, Reservation>)
    requires AllWellFormed(rs)
    ensures ValidOverlay(OverlayOf(rs))
    ensures OverlayOf(rs).liveReservations + OverlayOf(rs).residualDebts <= OverlayOf(rs).sequenceLiabilities
  {
    TotalNonnegative(rs, Unobserved);
    TotalBelow(rs, Unobserved, Liability);
    TotalNonnegative(rs, ColdPending);
    TotalBelow(rs, ColdPending, Live);
    TotalNonnegative(rs, Debt);
    var held := (r: Reservation) => Live(r) + Debt(r);
    TotalLinear(rs, Live, Debt, held, 1);
    TotalBelow(rs, held, Liability);
  }

  /** Dropping a reservation: the checked subtraction succeeds and gives the smaller map's sum. */
  lemma {:induction false} DropReservation(rs: map<nat, Reservation>, id: nat)
    requires AllWellFormed(rs) && id in rs
    ensures SubtractOverlay(OverlayOf(rs), Contribution(rs[id]).value) == Some(OverlayOf(rs - {id}))
    ensures OverlayOf(rs - {id}).sequenceLiabilities <= OverlayOf(rs).sequenceLiabilities
  {
    OverlaySplit(rs, id);
    OverlayBounds(rs);
    OverlayBounds(rs - {id});
  }

  lemma AddExact(a: Overlay, b: Overlay)
    requires ValidOverlay(a) && ValidOverlay(b)
    requires Plus(a, b).liveReservations + Plus(a, b).residualDebts <= Plus(a, b).sequenceLiabilities
    ensures AddOverlay(a, b) == if Plus(a, b).sequenceLiabilities <= MAX_INT64 then Some(Plus(a, b)) else None
  {
  }

  /** Changing a reservation's phase, never its sequences: the checked replacement succeeds and is exact. */
  lemma {:induction false} ReplaceReservation(rs: map<nat, Reservation>, id: nat, r: Reservation)
    requires AllWellFormed(rs) && id in rs && WellFormed(r)
    requires r.demand.decodeSequences == rs[id].demand.decodeSequences
    requires OverlayOf(rs).sequenceLiabilities <= MAX_INT64
    ensures ReplaceOverlay(OverlayOf(rs), Contribution(rs[id]).value, Contribution(r).value) == Some(OverlayOf(rs[id := r]))
    ensures OverlayOf(rs[id := r]).sequenceLiabilities == OverlayOf(rs).sequenceLiabilities
  {
    OverlaySplit(rs, id);
    DropReservation(rs, id);
    InsertedOverlay(rs, id, r);
  }

  lemma {:induction false} InsertedOverlay(rs: map<nat, Reservation>, id: nat, r: Reservation)
    requires AllWellFormed(rs - {id}) && WellFormed(r)
    ensures OverlayOf(rs[id := r]) == Plus(OverlayOf(rs - {id}), Share(r))
    ensures AddOverlay(OverlayOf(rs - {id}), Contribution(r).value)
         == if OverlayOf(rs - {id}).sequenceLiabilities + r.demand.decodeSequences <= MAX_INT64
            then Some(OverlayOf(rs[id := r])) else None
  {
    OverlayPut(rs, id, r);
    OverlayBounds(rs - {id});
    AddExact(OverlayOf(rs - {id}), Contribution(r).value);
  }

  /** Adding a reservation is exact, and refused exactly when the liabilities leave int64. */
  lemma {:induction false} InsertReservation(rs: map<nat, Reservation>, id: nat, r: Reservation)
    requires AllWellFormed(rs) && id !in rs && WellFormed(r)
    ensures AddOverlay(OverlayOf(rs), Contribution(r).value)
         == if OverlayOf(rs).sequenceLiabilities + r.demand.decodeSequences <= MAX_INT64
            then Some(OverlayOf(rs[id := r])) else None
  {
    RemoveAbsent(rs, id);
    InsertedOverlay(rs, id, r);
  }
}
