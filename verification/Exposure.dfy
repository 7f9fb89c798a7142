/** Sequence time integrated without scanning the reservations: a 128-bit accumulator in two words,
    the ledger that advances it, and its meaning as a sum of request lifetimes. */
module Exposure {
  import opened Machine
  import opened Totals

  const TWO64: int := 0x1_0000_0000_0000_0000
  const TWO128: int := TWO64 * TWO64

  // ---------- two-word arithmetic ----------

  datatype SequenceNanoseconds = SequenceNanoseconds(high: Word, low: Word)

  const ZERO_NANOSECONDS := SequenceNanoseconds(0, 0)

  function Value(n: SequenceNanoseconds): nat {
    n.high * TWO64 + n.low
  }

  lemma ProductOfWords(x: Word, y: Word)
    ensures 0 <= x * y < TWO128
    ensures 0 <= x * y / TWO64 < TWO64
  {
    assert x * y <= MAX_UINT64 * y;
  }

  /** bits.Mul64: the high and low words of a product. */
  function Mul64(x: Word, y: Word): (Word, Word) {
    ProductOfWords(x, y);
    (x * y / TWO64, x * y % TWO64)
  }

  /** bits.Add64: the sum modulo 2^64 and the carry out. */
  function Add64(x: Word, y: Word, carry: Word): (Word, Word)
    requires carry <= 1
  {
    if x + y + carry < TWO64 then (x + y + carry, 0) else (x + y + carry - TWO64, 1)
  }

  /** bits.Sub64: the difference modulo 2^64 and the borrow out. */
  function Sub64(x: Word, y: Word, borrow: Word): (Word, Word)
    requires borrow <= 1
  {
    if x >= y + borrow then (x - y - borrow, 0) else (x - y - borrow + TWO64, 1)
  }

  function AddDuration(n: SequenceNanoseconds, duration: int, sequences: int): Option<SequenceNanoseconds>
    requires duration <= MAX_INT64 && sequences <= MAX_INT64
  {
    if duration < 0 || sequences < 0 then
      None
    else
      var (productHigh, productLow) := Mul64(duration, sequences);
      var (low, carry) := Add64(n.low, productLow, 0);
      var (high, overflow) := Add64(n.high, productHigh, carry);
      if overflow != 0 then None else Some(SequenceNanoseconds(high, low))
  }

  function Subtract(n: SequenceNanoseconds, previous: SequenceNanoseconds): Option<SequenceNanoseconds> {
    var (low, borrow) := Sub64(n.low, previous.low, 0);
    var (high, underflow) := Sub64(n.high, previous.high, borrow);
    if underflow != 0 then None else Some(SequenceNanoseconds(high, low))
  }

  function Compare(n: SequenceNanoseconds, other: SequenceNanoseconds): int {
    if n.high < other.high || (n.high == other.high && n.low < other.low) then -1
    else if n == other then 0
    else 1
  }

  /** The two-word accumulation is the exact integer sum, refused exactly when it leaves 128 bits. */
  lemma AddDurationExact(n: SequenceNanoseconds, duration: int, sequences: int)
    requires 0 <= duration <= MAX_INT64 && 0 <= sequences <= MAX_INT64
    ensures var r := AddDuration(n, duration, sequences);
            && (r.Some? <==> Value(n) + duration * sequences < TWO128)
            && (r.Some? ==> Value(r.value) == Value(n) + duration * sequences)
  {
    ProductOfWords(duration, sequences);
    var product := duration * sequences;
    assert product == product / TWO64 * TWO64 + product % TWO64;
  }

  /** The two-word difference is exact, refused exactly when it would be negative. */
  lemma SubtractExact(n: SequenceNanoseconds, previous: SequenceNanoseconds)
    ensures var r := Subtract(n, previous);
            && (r.Some? <==> Value(n) >= Value(previous))
            && (r.Some? ==> Value(r.value) == Value(n) - Value(previous))
  {
  }

  /** Word-by-word comparison is integer comparison. */
  lemma CompareExact(n: SequenceNanoseconds, other: SequenceNanoseconds)
    ensures Compare(n, other) < 0 <==> Value(n) < Value(other)
    ensures Compare(n, other) == 0 <==> Value(n) == Value(other)
    ensures Compare(n, other) > 0 <==> Value(n) > Value(other)
  {
  }

  // ---------- snapshots ----------

  datatype ExposureSnapshot = ExposureSnapshot(forwarded: SequenceNanoseconds, response: SequenceNanoseconds)

  const ZERO_SNAPSHOT := ExposureSnapshot(ZERO_NANOSECONDS, ZERO_NANOSECONDS)

  predicate ValidSnapshot(s: ExposureSnapshot) {
    Compare(s.response, s.forwarded) <= 0
  }

  function SubtractSnapshot(s: ExposureSnapshot, previous: ExposureSnapshot): Option<ExposureSnapshot> {
    if !ValidSnapshot(s) || !ValidSnapshot(previous) then
      None
    else
      var forwarded := Subtract(s.forwarded, previous.forwarded);
      var response := Subtract(s.response, previous.response);
      if forwarded.None? || response.None? then
        None
      else
        var result := ExposureSnapshot(forwarded.value, response.value);
        if ValidSnapshot(result) then Some(result) else None
  }

  function Seconds(n: SequenceNanoseconds): real {
    Value(n) as real / SECOND as real
  }

  /** A snapshot difference exists exactly when both totals grew, response by no more than forwarded. */
  lemma SubtractSnapshotExact(s: ExposureSnapshot, previous: ExposureSnapshot)
    requires ValidSnapshot(s) && ValidSnapshot(previous)
    ensures var r := SubtractSnapshot(s, previous);
            && (r.Some? <==> 0 <= Value(s.response) - Value(previous.response)
                             <= Value(s.forwarded) - Value(previous.forwarded))
            && (r.Some? ==> Value(r.value.forwarded) == Value(s.forwarded) - Value(previous.forwarded))
            && (r.Some? ==> Value(r.value.response) == Value(s.response) - Value(previous.response))
  {
    SubtractExact(s.forwarded, previous.forwarded);
    SubtractExact(s.response, previous.response);
    CompareExact(s.response, s.forwarded);
    var forwarded := Subtract(s.forwarded, previous.forwarded);
    var response := Subtract(s.response, previous.response);
    if forwarded.Some? && response.Some? {
      CompareExact(response.value, forwarded.value);
    }
  }

  // ---------- the ledger ----------

  datatype Ledger = Ledger(
    initialized: bool,
    lastEventAt: Time,
    activeForwarded: int,
    activeResponse: int,
    forwardedTime: SequenceNanoseconds,
    responseTime: SequenceNanoseconds)

  const EMPTY_LEDGER := Ledger(false, ZERO_TIME, 0, 0, ZERO_NANOSECONDS, ZERO_NANOSECONDS)

  predicate ValidLedger(l: Ledger) {
    && 0 <= l.activeResponse <= l.activeForwarded
    && Compare(l.responseTime, l.forwardedTime) <= 0
    && (if !l.initialized then l == EMPTY_LEDGER else l.lastEventAt != ZERO_TIME)
  }

  /** The active counts are int64 fields. */
  predicate Int64Counts(l: Ledger) {
    l.activeForwarded <= MAX_INT64 && l.activeResponse <= MAX_INT64
  }

  function Advance(l: Ledger, now: Time): (Ledger, bool)
    requires Int64Counts(l)
  {
    if now == ZERO_TIME then
      (l, false)
    else if !l.initialized then
      var first := l.(initialized := true, lastEventAt := now);
      (first, ValidLedger(first))
    else if now < l.lastEventAt then
      (l, false)
    else
      var elapsed := Sub(now, l.lastEventAt);
      var forwarded := AddDuration(l.forwardedTime, elapsed, l.activeForwarded);
      var response := AddDuration(l.responseTime, elapsed, l.activeResponse);
      if forwarded.None? || response.None? || Compare(response.value, forwarded.value) > 0 then
        (l, false)
      else
        var next := l.(forwardedTime := forwarded.value, responseTime := response.value, lastEventAt := now);
        (next, ValidLedger(next))
  }

  function AddForwarded(l: Ledger, now: Time, sequences: int): (Ledger, bool)
    requires Int64Counts(l)
  {
    if sequences <= 0 then
      (l, false)
    else
      var (advanced, ok) := Advance(l, now);
      if !ok || advanced.activeForwarded > MAX_INT64 - sequences then
        (advanced, false)
      else
        var next := advanced.(activeForwarded := advanced.activeForwarded + sequences);
        (next, ValidLedger(next))
  }

  function AddResponse(l: Ledger, now: Time, sequences: int): (Ledger, bool)
    requires Int64Counts(l)
  {
    if sequences <= 0 then
      (l, false)
    else
      var (advanced, ok) := Advance(l, now);
      if !ok || advanced.activeResponse > MAX_INT64 - sequences ||
         advanced.activeResponse + sequences > advanced.activeForwarded then
        (advanced, false)
      else
        var next := advanced.(activeResponse := advanced.activeResponse + sequences);
        (next, ValidLedger(next))
  }

  function Remove(l: Ledger, now: Time, forwarded: int, response: int): (Ledger, bool)
    requires Int64Counts(l)
  {
    if forwarded <= 0 || response < 0 || response > forwarded then
      (l, false)
    else
      var (advanced, ok) := Advance(l, now);
      if !ok || advanced.activeForwarded < forwarded || advanced.activeResponse < response then
        (advanced, false)
      else
        var next := advanced.(activeForwarded := advanced.activeForwarded - forwarded,
                              activeResponse := advanced.activeResponse - response);
        (next, ValidLedger(next))
  }

  function Snapshot(l: Ledger, now: Time): (Ledger, Option<ExposureSnapshot>)
    requires Int64Counts(l)
  {
    var (advanced, ok) := Advance(l, now);
    var snapshot := ExposureSnapshot(advanced.forwardedTime, advanced.responseTime);
    (advanced, if ok && ValidSnapshot(snapshot) then Some(snapshot) else None)
  }

  // ---------- what the ledger means ----------

  /** One forwarded request: its sequences, and when it was forwarded, first answered and ended. */
  datatype Lifetime = Lifetime(sequences: int, forwardedAt: Time, firstByteAt: Option<Time>, endedAt: Option<Time>)

  function Elapsed(from: Time, ended: Option<Time>, at: Time): int {
    var until := if ended.Some? && ended.value < at then ended.value else at;
    if until < from then 0 else until - from
  }

  function ForwardedSpan(life: Lifetime, at: Time): int {
    life.sequences * Elapsed(life.forwardedAt, life.endedAt, at)
  }

  function RespondedSpan(life: Lifetime, at: Time): int {
    if life.firstByteAt.None? then 0 else Elapsed(life.firstByteAt.value, life.endedAt, at)
  }

  /** Sequence time a lifetime has spent forwarded, and responding, up to an instant. */
  function ForwardedBy(at: Time): Lifetime -> int { life => ForwardedSpan(life, at) }
  function RespondedBy(at: Time): Lifetime -> int { life => RespondedSpan(life, at) }

  function StillForwarded(life: Lifetime): int {
    if life.endedAt.None? then life.sequences else 0
  }

  function StillResponding(life: Lifetime): int {
    if life.endedAt.None? && life.firstByteAt.Some? then 1 else 0
  }

  /** The lifetime's instants are in order and none is after `at`. */
  predicate Ordered(life: Lifetime, at: Time) {
    && life.sequences > 0
    && life.forwardedAt <= at
    && (life.firstByteAt.Some? ==> life.forwardedAt <= life.firstByteAt.value <= at)
    && (life.endedAt.Some? ==> life.forwardedAt <= life.endedAt.value <= at)
    && (life.firstByteAt.Some? && life.endedAt.Some? ==> life.firstByteAt.value <= life.endedAt.value)
  }

  ghost predicate AllOrdered(lives: map<nat, Lifetime>, at: Time) {
    forall id :: id in lives ==> Ordered(lives[id], at)
  }

  /** The ledger's totals at its last event are exactly the sums over the lifetimes, its active counts
      are the lifetimes still running, and the total stays under `MAX_INT64` sequences since `start`. */
  ghost predicate Integrates(l: Ledger, lives: map<nat, Lifetime>, start: Time) {
    && (!l.initialized ==> l == EMPTY_LEDGER && lives == map[])
    && (l.initialized ==>
          && l.lastEventAt != ZERO_TIME && start <= l.lastEventAt
          && AllOrdered(lives, l.lastEventAt)
          && Value(l.forwardedTime) == Total(lives, ForwardedBy(l.lastEventAt))
          && Value(l.responseTime) == Total(lives, RespondedBy(l.lastEventAt))
          && Value(l.forwardedTime) <= MAX_INT64 * (l.lastEventAt - start))
    && l.activeForwarded == Total(lives, StillForwarded)
    && l.activeResponse == Total(lives, StillResponding)
    && Int64Counts(l)
  }

  /** A clock reading the run allows: not the zero time, and within int64 nanoseconds of the start. */
  predicate Reading(start: Time, now: Time) {
    now != ZERO_TIME && start <= now <= start + MAX_INT64
  }

  predicate NotBefore(l: Ledger, now: Time) {
    l.initialized ==> l.lastEventAt <= now
  }

  lemma SpanGrows(life: Lifetime, at: Time, later: Time)
    requires Ordered(life, at) && at <= later
    ensures ForwardedSpan(life, later) == ForwardedSpan(life, at) + (later - at) * StillForwarded(life)
    ensures RespondedSpan(life, later) == RespondedSpan(life, at) + (later - at) * StillResponding(life)
  {
    if life.endedAt.None? {
      Distribute(life.sequences, at - life.forwardedAt, later - at);
    }
  }

  /** Response time never exceeds forwarded time, over any later stretch as well. */
  lemma SpanBounds(life: Lifetime, at: Time, from: Time, to: Time)
    requires Ordered(life, at) && from <= to
    ensures 0 <= RespondedSpan(life, from) <= RespondedSpan(life, to)
    ensures 0 <= ForwardedSpan(life, from) <= ForwardedSpan(life, to)
    ensures RespondedSpan(life, to) - RespondedSpan(life, from) <= ForwardedSpan(life, to) - ForwardedSpan(life, from)
    ensures RespondedSpan(life, from) <= ForwardedSpan(life, from)
    ensures 0 <= StillResponding(life) <= StillForwarded(life)
  {
    var a := Elapsed(life.forwardedAt, life.endedAt, from);
    var b := Elapsed(life.forwardedAt, life.endedAt, to);
    assert 0 <= a <= b;
    ScaleUp(life.sequences, a, b);
  }

  lemma ScaleUp(sequences: int, a: int, b: int)
    requires 0 < sequences && 0 <= a <= b
    ensures 0 <= a <= sequences * a <= sequences * b && b - a <= sequences * b - sequences * a
  {
    assert sequences * b - sequences * a == sequences * (b - a);
    assert (sequences - 1) * (b - a) >= 0;
    assert (sequences - 1) * a >= 0;
  }

  lemma TotalsGrow(lives: map<nat, Lifetime>, at: Time, later: Time)
    requires AllOrdered(lives, at) && at <= later
    ensures Total(lives, ForwardedBy(later)) == Total(lives, ForwardedBy(at)) + (later - at) * Total(lives, StillForwarded)
    ensures Total(lives, RespondedBy(later)) == Total(lives, RespondedBy(at)) + (later - at) * Total(lives, StillResponding)
  {
    forall id | id in lives
      ensures ForwardedBy(later)(lives[id]) == ForwardedBy(at)(lives[id]) + (later - at) * StillForwarded(lives[id])
      ensures RespondedBy(later)(lives[id]) == RespondedBy(at)(lives[id]) + (later - at) * StillResponding(lives[id])
    {
      SpanGrows(lives[id], at, later);
    }
    TotalLinear(lives, ForwardedBy(at), StillForwarded, ForwardedBy(later), later - at);
    TotalLinear(lives, RespondedBy(at), StillResponding, RespondedBy(later), later - at);
  }

  /** Totals of the same lifetimes at two instants: both grow, response by no more than forwarded. */
  lemma TotalsBounds(lives: map<nat, Lifetime>, at: Time, from: Time, to: Time)
    requires AllOrdered(lives, at) && from <= to
    ensures 0 <= Total(lives, RespondedBy(from)) <= Total(lives, ForwardedBy(from))
    ensures 0 <= Total(lives, RespondedBy(to)) - Total(lives, RespondedBy(from))
              <= Total(lives, ForwardedBy(to)) - Total(lives, ForwardedBy(from))
    ensures 0 <= Total(lives, StillResponding) <= Total(lives, StillForwarded)
  {
    forall id | id in lives
      ensures 0 <= RespondedBy(from)(lives[id]) <= ForwardedBy(from)(lives[id])
      ensures 0 <= RespondedBy(to)(lives[id]) - RespondedBy(from)(lives[id])
                <= ForwardedBy(to)(lives[id]) - ForwardedBy(from)(lives[id])
      ensures 0 <= StillResponding(lives[id]) <= StillForwarded(lives[id])
    {
      SpanBounds(lives[id], at, from, to);
    }
    TotalNonnegative(lives, RespondedBy(from));
    TotalBelow(lives, RespondedBy(from), ForwardedBy(from));
    TotalNonnegative(lives, StillResponding);
    TotalBelow(lives, StillResponding, StillForwarded);
    TotalBelow(lives, RespondedBy(from), RespondedBy(to));
    var slackFrom := (life: Lifetime) => ForwardedBy(from)(life) - RespondedBy(from)(life);
    var slackTo := (life: Lifetime) => ForwardedBy(to)(life) - RespondedBy(to)(life);
    TotalLinear(lives, ForwardedBy(from), RespondedBy(from), slackFrom, -1);
    TotalLinear(lives, ForwardedBy(to), RespondedBy(to), slackTo, -1);
    TotalBelow(lives, slackFrom, slackTo);
  }

  /** Advancing keeps the ledger the exact sum of lifetimes, and cannot fail within the clock's range. */
  lemma AdvanceIntegrates(l: Ledger, lives: map<nat, Lifetime>, start: Time, now: Time)
    requires Integrates(l, lives, start) && Reading(start, now) && NotBefore(l, now)
    ensures var (next, ok) := Advance(l, now);
            && ok && Integrates(next, lives, start)
            && next.initialized && next.lastEventAt == now
            && next.activeForwarded == l.activeForwarded && next.activeResponse == l.activeResponse
            && Compare(next.responseTime, next.forwardedTime) <= 0
  {
    if !l.initialized {
      assert MAX_INT64 * (now - start) >= 0;
      return;
    }
    var last := l.lastEventAt;
    var elapsed := now - last;
    TotalsGrow(lives, last, now);
    TotalsBounds(lives, last, last, now);
    AddDurationExact(l.forwardedTime, elapsed, l.activeForwarded);
    AddDurationExact(l.responseTime, elapsed, l.activeResponse);
    WithinBudget(Value(l.forwardedTime), elapsed, l.activeForwarded, last - start);
    assert elapsed * l.activeResponse <= elapsed * l.activeForwarded;
    var (next, ok) := Advance(l, now);
    CompareExact(l.responseTime, l.forwardedTime);
    CompareExact(AddDuration(l.responseTime, elapsed, l.activeResponse).value,
                 AddDuration(l.forwardedTime, elapsed, l.activeForwarded).value);
    assert AllOrdered(lives, now);
  }

  lemma WithinBudget(total: int, elapsed: int, active: int, since: int)
    requires 0 <= elapsed && 0 <= active <= MAX_INT64 && 0 <= since && elapsed + since <= MAX_INT64
    requires total <= MAX_INT64 * since
    ensures total + elapsed * active <= MAX_INT64 * (since + elapsed) < TWO128
  {
    assert elapsed * active <= elapsed * MAX_INT64;
  }

  lemma ShorterProduct(shorter: int, longer: int, active: int)
    requires shorter < longer && active > 0
    ensures shorter * active < longer * active
  {
  }

  lemma ClampedProduct(elapsed: int, gap: int, active: int)
    requires elapsed <= gap && active >= 0
    ensures elapsed * active == gap * active <==> elapsed == gap || active == 0
  {
    if elapsed != gap && active != 0 { ShorterProduct(elapsed, gap, active); }
  }

  /** A gap the int64 duration cannot hold is the only way a successful advance undercounts, in the
      forwarded and in the response total alike. */
  lemma AdvanceExactUnlessClamped(l: Ledger, now: Time)
    requires Int64Counts(l) && l.initialized && Advance(l, now).1
    ensures Value(Advance(l, now).0.forwardedTime) == Value(l.forwardedTime) + (now - l.lastEventAt) * l.activeForwarded
            <==> now - l.lastEventAt <= MAX_INT64 || l.activeForwarded == 0
    ensures Value(Advance(l, now).0.responseTime) == Value(l.responseTime) + (now - l.lastEventAt) * l.activeResponse
            <==> now - l.lastEventAt <= MAX_INT64 || l.activeResponse == 0
  {
    var elapsed, gap := Sub(now, l.lastEventAt), now - l.lastEventAt;
    AddDurationExact(l.forwardedTime, elapsed, l.activeForwarded);
    AddDurationExact(l.responseTime, elapsed, l.activeResponse);
    ClampedProduct(elapsed, gap, l.activeForwarded);
    ClampedProduct(elapsed, gap, l.activeResponse);
  }

  /** Forwarding a new request opens a lifetime. */
  lemma ForwardIntegrates(l: Ledger, lives: map<nat, Lifetime>, start: Time, now: Time, id: nat, sequences: int)
    requires Integrates(l, lives, start) && Reading(start, now) && NotBefore(l, now)
    requires id !in lives && 0 < sequences && l.activeForwarded + sequences <= MAX_INT64
    ensures var (next, ok) := AddForwarded(l, now, sequences);
            ok && next.initialized && next.lastEventAt == now
            && Integrates(next, lives[id := Lifetime(sequences, now, None, None)], start)
  {
    AdvanceIntegrates(l, lives, start, now);
    var life := Lifetime(sequences, now, None, None);
    TotalInsert(lives, ForwardedBy(now), id, life);
    TotalInsert(lives, RespondedBy(now), id, life);
    TotalInsert(lives, StillForwarded, id, life);
    TotalInsert(lives, StillResponding, id, life);
    TotalsBounds(lives, now, now, now);
  }

  /** The first byte starts one responding sequence of a lifetime already forwarded. */
  lemma RespondIntegrates(l: Ledger, lives: map<nat, Lifetime>, start: Time, now: Time, id: nat)
    requires Integrates(l, lives, start) && Reading(start, now) && NotBefore(l, now)
    requires id in lives && lives[id].endedAt.None? && lives[id].firstByteAt.None?
    ensures var (next, ok) := AddResponse(l, now, 1);
            ok && next.initialized && next.lastEventAt == now
            && Integrates(next, lives[id := lives[id].(firstByteAt := Some(now))], start)
  {
    AdvanceIntegrates(l, lives, start, now);
    var life := lives[id].(firstByteAt := Some(now));
    var after := lives[id := life];
    TotalUpdate(lives, ForwardedBy(now), id, life);
    TotalUpdate(lives, RespondedBy(now), id, life);
    TotalUpdate(lives, StillForwarded, id, life);
    TotalUpdate(lives, StillResponding, id, life);
    assert l.initialized && Ordered(lives[id], l.lastEventAt);
    assert AllOrdered(after, now);
    TotalsBounds(after, now, now, now);
  }

  /** Termination closes a lifetime and gives back exactly the sequences it held. */
  lemma RemoveIntegrates(l: Ledger, lives: map<nat, Lifetime>, start: Time, now: Time, id: nat)
    requires Integrates(l, lives, start) && Reading(start, now) && NotBefore(l, now)
    requires id in lives && lives[id].endedAt.None?
    ensures var (next, ok) := Remove(l, now, lives[id].sequences, StillResponding(lives[id]));
            ok && next.initialized && next.lastEventAt == now
            && Integrates(next, lives[id := lives[id].(endedAt := Some(now))], start)
  {
    AdvanceIntegrates(l, lives, start, now);
    var life := lives[id].(endedAt := Some(now));
    var after := lives[id := life];
    TotalUpdate(lives, ForwardedBy(now), id, life);
    TotalUpdate(lives, RespondedBy(now), id, life);
    TotalUpdate(lives, StillForwarded, id, life);
    TotalUpdate(lives, StillResponding, id, life);
    assert l.initialized && Ordered(lives[id], l.lastEventAt);
    assert AllOrdered(after, now);
    TotalsBounds(after, now, now, now);
  }

  // ---------- the ledger as the mutable object the controller holds ----------

  class SequenceExposureLedger {
    var initialized: bool
    var lastEventAt: Time
    var activeForwarded: int
    var activeResponse: int
    var forwardedTime: SequenceNanoseconds
    var responseTime: SequenceNanoseconds

    function Model(): Ledger
      reads this
    {
      Ledger(initialized, lastEventAt, activeForwarded, activeResponse, forwardedTime, responseTime)
    }

    constructor ()
      ensures Model() == EMPTY_LEDGER
    {
      initialized, lastEventAt := false, ZERO_TIME;
      activeForwarded, activeResponse := 0, 0;
      forwardedTime, responseTime := ZERO_NANOSECONDS, ZERO_NANOSECONDS;
    }

    method Reset()
      modifies this
      ensures Model() == EMPTY_LEDGER
    {
      initialized, lastEventAt := false, ZERO_TIME;
      activeForwarded, activeResponse := 0, 0;
      forwardedTime, responseTime := ZERO_NANOSECONDS, ZERO_NANOSECONDS;
    }

    method AdvanceTo(now: Time) returns (ok: bool)
      requires Int64Counts(Model())
      modifies this
      ensures (Model(), ok) == Advance(old(Model()), now)
      ensures Int64Counts(Model())
    {
      if now == ZERO_TIME {
        return false;
      }
      if !initialized {
        initialized := true;
        lastEventAt := now;
        return ValidLedger(Model());
      }
      if now < lastEventAt {
        return false;
      }
      var elapsed := Sub(now, lastEventAt);
      var forwarded := AddDuration(forwardedTime, elapsed, activeForwarded);
      var response := AddDuration(responseTime, elapsed, activeResponse);
      if forwarded.None? || response.None? || Compare(response.value, forwarded.value) > 0 {
        return false;
      }
      forwardedTime := forwarded.value;
      responseTime := response.value;
      lastEventAt := now;
      return ValidLedger(Model());
    }

    method BeginForwarded(now: Time, sequences: int) returns (ok: bool)
      requires Int64Counts(Model())
      modifies this
      ensures (Model(), ok) == AddForwarded(old(Model()), now, sequences)
      ensures Int64Counts(Model())
    {
      if sequences <= 0 {
        return false;
      }
      ok := AdvanceTo(now);
      if !ok || activeForwarded > MAX_INT64 - sequences {
        return false;
      }
      activeForwarded := activeForwarded + sequences;
      return ValidLedger(Model());
    }

    method BeginResponse(now: Time, sequences: int) returns (ok: bool)
      requires Int64Counts(Model())
      modifies this
      ensures (Model(), ok) == AddResponse(old(Model()), now, sequences)
      ensures Int64Counts(Model())
    {
      if sequences <= 0 {
        return false;
      }
      ok := AdvanceTo(now);
      if !ok || activeResponse > MAX_INT64 - sequences || activeResponse + sequences > activeForwarded {
        return false;
      }
      activeResponse := activeResponse + sequences;
      return ValidLedger(Model());
    }

    method End(now: Time, forwarded: int, response: int) returns (ok: bool)
      requires Int64Counts(Model())
      modifies this
      ensures (Model(), ok) == Remove(old(Model()), now, forwarded, response)
      ensures Int64Counts(Model())
    {
      if forwarded <= 0 || response < 0 || response > forwarded {
        return false;
      }
      ok := AdvanceTo(now);
      if !ok || activeForwarded < forwarded || activeResponse < response {
        return false;
      }
      activeForwarded := activeForwarded - forwarded;
      activeResponse := activeResponse - response;
      return ValidLedger(Model());
    }

    method TakeSnapshot(now: Time) returns (snapshot: Option<ExposureSnapshot>)
      requires Int64Counts(Model())
      modifies this
      ensures (Model(), snapshot) == Snapshot(old(Model()), now)
      ensures Int64Counts(Model())
    {
      var ok := AdvanceTo(now);
      var taken := ExposureSnapshot(forwardedTime, responseTime);
      return if ok && ValidSnapshot(taken) then Some(taken) else None;
    }
  }
}
