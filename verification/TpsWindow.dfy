/** The rolling TPS window: a ring of 61 one-second buckets that must behave like the full list of
    samples seen since the last reset, cut at the start of the oldest whole second still inside 60 s. */
module TpsWindow {
  import opened Machine

  const WINDOW: int := 60 * SECOND
  const BUCKETS: int := 61
  const MINIMUM_SAMPLES: int := 4
  const MINIMUM_SEQUENCE_SECONDS: real := 8.0

  datatype Sample = Sample(
    start: Time,
    end: Time,
    maximumInterval: int,
    generatedTokens: nat,
    previousRunning: int,
    running: int,
    forwardedLiabilities: int,
    localExposureMeasured: bool,
    localForwardedSeconds: real,
    localResponseSeconds: real)

  /** What a bucket, a segment or a whole window adds up to. */
  datatype Sums = Sums(
    tokens: real,
    activeSeconds: real,
    samples: int,
    sequenceTokens: real,
    sequenceSeconds: real,
    sequenceSamples: int)

  const NOTHING := Sums(0.0, 0.0, 0, 0.0, 0.0, 0)

  function Plus(a: Sums, b: Sums): Sums {
    Sums(a.tokens + b.tokens, a.activeSeconds + b.activeSeconds, a.samples + b.samples,
         a.sequenceTokens + b.sequenceTokens, a.sequenceSeconds + b.sequenceSeconds,
         a.sequenceSamples + b.sequenceSamples)
  }

  predicate Nonnegative(a: Sums) {
    a.tokens >= 0.0 && a.activeSeconds >= 0.0 && a.sequenceTokens >= 0.0 && a.sequenceSeconds >= 0.0
  }

  datatype Bucket = Bucket(second: int, valid: bool, sums: Sums)

  const EMPTY_BUCKET := Bucket(0, false, NOTHING)

  datatype IntervalSnapshot = IntervalSnapshot(
    qualified: bool,
    tokens: nat,
    durationSeconds: real,
    sequenceSeconds: real,
    aggregateTPS: real,
    meanActiveTPS: real)

  const NO_INTERVAL := IntervalSnapshot(false, 0, 0.0, 0.0, 0.0, 0.0)

  predicate ValidInterval(s: IntervalSnapshot) {
    if !s.qualified then
      s == NO_INTERVAL
    else
      s.durationSeconds > 0.0 && s.sequenceSeconds > 0.0 && s.aggregateTPS >= 0.0 && s.meanActiveTPS >= 0.0
  }

  datatype Window = Window(reference: real, buckets: seq<Bucket>, latest: IntervalSnapshot)

  function NewWindow(reference: real): (w: Window)
    ensures |w.buckets| == BUCKETS
  {
    Window(reference, seq(BUCKETS, _ => EMPTY_BUCKET), NO_INTERVAL)
  }

  function ResetWindow(w: Window): Window {
    NewWindow(w.reference)
  }

  predicate Enabled(w: Window) {
    w.reference > 0.0
  }

  // ---------- buckets ----------

  /** A second is visible at `now` while any of it lies after the 60 s cutoff. */
  predicate Visible(second: int, now: Time) {
    (second + 1) * SECOND > now - WINDOW
  }

  function ExpireBucket(b: Bucket, now: Time): Bucket {
    if b.valid && !Visible(b.second, now) then EMPTY_BUCKET else b
  }

  function Expire(buckets: seq<Bucket>, now: Time): (r: seq<Bucket>)
    ensures |r| == |buckets|
  {
    if now == ZERO_TIME then buckets
    else seq(|buckets|, i requires 0 <= i < |buckets| => ExpireBucket(buckets[i], now))
  }

  /** Go's remainder made nonnegative, which is the Euclidean remainder. */
  function Slot(second: int): (i: nat)
    ensures i < BUCKETS
  {
    second % BUCKETS
  }

  function Add(buckets: seq<Bucket>, second: int, added: Sums): (r: (seq<Bucket>, bool))
    requires |buckets| == BUCKETS
    ensures |r.0| == BUCKETS
  {
    var bucket := buckets[Slot(second)];
    if !Nonnegative(added) || (bucket.valid && bucket.second != second) then
      (buckets, false)
    else
      var base := if bucket.valid then bucket else Bucket(second, true, NOTHING);
      var next := Plus(base.sums, added);
      if MAX_UINT64 - base.sums.samples < added.samples ||
         MAX_UINT64 - base.sums.sequenceSamples < added.sequenceSamples || !Nonnegative(next) then
        (buckets[Slot(second) := base], false)
      else
        (buckets[Slot(second) := Bucket(second, true, next)], true)
  }

  // ---------- observing one sample ----------

  function Max(a: real, b: real): real {
    if a > b then a else b
  }

  function MaxCount(a: int, b: int): int {
    if a > b then (if a > 0 then a else 0) else (if b > 0 then b else 0)
  }

  function InSeconds(nanoseconds: int): real {
    nanoseconds as real / SECOND as real
  }

  function Interval(p: Sample): int {
    Sub(p.end, p.start)
  }

  /** Samples that are neither malformed nor without evidence of decoding. */
  predicate Qualified(p: Sample) {
    && p.start != ZERO_TIME && p.end != ZERO_TIME && p.maximumInterval > 0
    && p.previousRunning >= 0 && p.running >= 0 && p.forwardedLiabilities >= 0
    && p.localForwardedSeconds >= 0.0 && p.localResponseSeconds >= 0.0
    && 0 < Interval(p) <= p.maximumInterval
    && (p.generatedTokens > 0 || p.localResponseSeconds > 0.0)
  }

  /** The largest of the endpoint, forwarded, response and fallback sequence times. */
  function SequenceSecondsTotal(p: Sample): real {
    var endpoint := InSeconds(Interval(p)) * MaxCount(p.previousRunning, p.running) as real;
    var measured := Max(Max(Max(0.0, endpoint), p.localForwardedSeconds), p.localResponseSeconds);
    if !p.localExposureMeasured && p.localForwardedSeconds == 0.0 && p.localResponseSeconds == 0.0 then
      Max(measured, InSeconds(Interval(p)) * p.forwardedLiabilities as real)
    else
      measured
  }

  function Latest(p: Sample): IntervalSnapshot
    requires Qualified(p)
  {
    var total := SequenceSecondsTotal(p);
    var seconds := InSeconds(Interval(p));
    if total > 0.0 then
      IntervalSnapshot(true, p.generatedTokens, seconds, total,
                       p.generatedTokens as real / seconds, p.generatedTokens as real / total)
    else
      NO_INTERVAL
  }

  /** The part of a quantity spread evenly over the interval that falls in `span` nanoseconds. */
  function Portion(quantity: real, span: int, interval: int): real
    requires interval > 0
  {
    quantity * (InSeconds(span) / InSeconds(interval))
  }

  /** What `span` nanoseconds of a sample are worth, with `count` samples attached. */
  function Worth(p: Sample, span: int, count: int): Sums
    requires Qualified(p)
  {
    var total := SequenceSecondsTotal(p);
    var tokens := Portion(p.generatedTokens as real, span, Interval(p));
    if total > 0.0 then
      Sums(tokens, InSeconds(span), count, tokens, Portion(total, span, Interval(p)), count)
    else
      Sums(tokens, InSeconds(span), count, 0.0, 0.0, 0)
  }

  function SegmentEnd(cursor: Time, end: Time): Time {
    var next := (cursor / SECOND + 1) * SECOND;
    if next > end then end else next
  }

  /** The splitting loop: from `cursor` on, one piece per second, the last piece carrying the sample. */
  function AddSegments(buckets: seq<Bucket>, p: Sample, cursor: Time): (r: (seq<Bucket>, bool))
    requires |buckets| == BUCKETS && Qualified(p)
    ensures |r.0| == BUCKETS
    decreases p.end - cursor
  {
    if cursor >= p.end then
      (buckets, true)
    else
      var segmentEnd := SegmentEnd(cursor, p.end);
      var count := if segmentEnd == p.end then 1 else 0;
      var (next, ok) := Add(buckets, cursor / SECOND, Worth(p, segmentEnd - cursor, count));
      if !ok then (next, false) else AddSegments(next, p, segmentEnd)
  }

  function FirstCursor(p: Sample): Time {
    if p.start < p.end - WINDOW then p.end - WINDOW else p.start
  }

  function Observe(w: Window, p: Sample): (Window, bool)
    requires |w.buckets| == BUCKETS
  {
    if !Enabled(w) then
      (w, true)
    else
      var expired := Expire(w.buckets, p.end);
      if !Qualified(p) then
        (w.(buckets := expired, latest := NO_INTERVAL), true)
      else if !ValidInterval(Latest(p)) then
        (w.(buckets := expired, latest := NO_INTERVAL), false)
      else
        var (buckets, ok) := AddSegments(expired, p, FirstCursor(p));
        (w.(buckets := buckets, latest := Latest(p)), ok)
  }

  // ---------- reading the window ----------

  datatype TPSSnapshot = TPSSnapshot(
    enabled: bool,
    ready: bool,
    reference: real,
    sums: Sums,
    aggregateTPS: real,
    meanActiveTPS: real,
    latest: IntervalSnapshot)

  const NO_SNAPSHOT := TPSSnapshot(false, false, 0.0, NOTHING, 0.0, 0.0, NO_INTERVAL)

  predicate ValidTPSSnapshot(s: TPSSnapshot) {
    s.reference >= 0.0 && Nonnegative(s.sums) && s.aggregateTPS >= 0.0 && s.meanActiveTPS >= 0.0 &&
    ValidInterval(s.latest)
  }

  predicate Counted(b: Bucket, now: Time) {
    b.valid && (now == ZERO_TIME || Visible(b.second, now))
  }

  /** Accumulates the first `k` buckets; nothing is returned once a sample counter would wrap. */
  function Accumulate(buckets: seq<Bucket>, now: Time, k: nat): Option<Sums>
    requires k <= |buckets|
  {
    if k == 0 then
      Some(NOTHING)
    else
      var before := Accumulate(buckets, now, k - 1);
      var b := buckets[k - 1];
      if before.None? || !Counted(b, now) then before
      else if MAX_UINT64 - before.value.samples < b.sums.samples ||
              MAX_UINT64 - before.value.sequenceSamples < b.sums.sequenceSamples then None
      else Some(Plus(before.value, b.sums))
  }

  function Quotient(numerator: real, denominator: real): real {
    if denominator > 0.0 then numerator / denominator else 0.0
  }

  function SnapshotOf(reference: real, latest: IntervalSnapshot, accumulated: Option<Sums>): TPSSnapshot {
    var blank := TPSSnapshot(true, false, reference, NOTHING, 0.0, 0.0, NO_INTERVAL);
    if accumulated.None? then
      blank
    else
      var sums := accumulated.value;
      if !ValidTPSSnapshot(TPSSnapshot(true, false, reference, sums, 0.0, 0.0, latest)) then
        blank
      else
        TPSSnapshot(true,
                    sums.sequenceSamples >= MINIMUM_SAMPLES && sums.sequenceSeconds >= MINIMUM_SEQUENCE_SECONDS,
                    reference, sums,
                    Quotient(sums.tokens, sums.activeSeconds),
                    Quotient(sums.sequenceTokens, sums.sequenceSeconds),
                    latest)
  }

  function Snapshot(w: Window, now: Time): TPSSnapshot {
    if !Enabled(w) then
      TPSSnapshot(false, false, w.reference, NOTHING, 0.0, 0.0, w.latest)
    else
      SnapshotOf(w.reference, w.latest, Accumulate(w.buckets, now, |w.buckets|))
  }

  /** Every snapshot, also a blank one: its ratios are those of its own sums, and so is its readiness. */
  predicate RatesOfSums(s: TPSSnapshot) {
    && (s.sums.sequenceSeconds > 0.0 ==> s.meanActiveTPS * s.sums.sequenceSeconds == s.sums.sequenceTokens)
    && (s.sums.sequenceSeconds <= 0.0 ==> s.meanActiveTPS == 0.0)
    && (s.sums.activeSeconds > 0.0 ==> s.aggregateTPS * s.sums.activeSeconds == s.sums.tokens)
    && (s.sums.activeSeconds <= 0.0 ==> s.aggregateTPS == 0.0)
    && (s.ready <==> s.sums.sequenceSamples >= 4 && s.sums.sequenceSeconds >= 8.0)
  }

  lemma SnapshotRates(w: Window, now: Time)
    ensures RatesOfSums(Snapshot(w, now))
  {
    AccumulatedRates(w.reference, w.latest, if Enabled(w) then Accumulate(w.buckets, now, |w.buckets|) else None);
  }

  lemma AccumulatedRates(reference: real, latest: IntervalSnapshot, accumulated: Option<Sums>)
    ensures RatesOfSums(SnapshotOf(reference, latest, accumulated))
  {
  }

  // ---------- the meaning: every sample, clipped to the visible seconds ----------

  /** The start of the oldest second still visible at `now`. */
  function Horizon(now: Time): Time {
    (now - WINDOW) / SECOND * SECOND
  }

  /** What a sample is still worth at `now`, counting only the part after `from`. */
  function Share(p: Sample, from: Time, now: Time): Sums
    requires Qualified(p)
  {
    var clipped := if from < Horizon(now) then Horizon(now) else from;
    if clipped >= p.end then NOTHING else Worth(p, p.end - clipped, 1)
  }

  function HistorySums(samples: seq<Sample>, now: Time): Sums {
    if samples == [] then
      NOTHING
    else
      var last := samples[|samples| - 1];
      var before := HistorySums(samples[..|samples| - 1], now);
      if Qualified(last) then Plus(before, Share(last, FirstCursor(last), now)) else before
  }

  /** The window after observing every sample in turn, and whether every observation succeeded. */
  function Observed(reference: real, samples: seq<Sample>): (r: (Window, bool))
    ensures |r.0.buckets| == BUCKETS && r.0.reference == reference
  {
    if samples == [] then
      (NewWindow(reference), true)
    else
      var (before, ok) := Observed(reference, samples[..|samples| - 1]);
      var (after, observed) := Observe(before, samples[|samples| - 1]);
      ObserveKeepsShape(before, samples[|samples| - 1]);
      (after, ok && observed)
  }

  predicate Chronological(samples: seq<Sample>) {
    forall i, j :: 0 <= i < j < |samples| ==> samples[i].end <= samples[j].end
  }

  lemma ObserveKeepsShape(w: Window, p: Sample)
    requires |w.buckets| == BUCKETS
    ensures |Observe(w, p).0.buckets| == BUCKETS && Observe(w, p).0.reference == w.reference
  {
  }

  // ---------- invariant of the ring ----------

  /** Buckets sit in their own slot, start before `end`, and count at most `n` samples each. */
  predicate RingOk(buckets: seq<Bucket>, end: Time, n: nat) {
    && |buckets| == BUCKETS
    && forall i :: 0 <= i < BUCKETS ==> BucketOk(buckets[i], i, end, n)
  }

  predicate BucketOk(b: Bucket, slot: int, end: Time, n: nat) {
    if !b.valid then
      b == EMPTY_BUCKET
    else
      Slot(b.second) == slot && b.second * SECOND < end && Nonnegative(b.sums) &&
      0 <= b.sums.sequenceSamples <= b.sums.samples <= n
  }

  /** Every valid bucket is visible at `end`, so two of them never compete for a slot. */
  predicate AllVisible(buckets: seq<Bucket>, end: Time) {
    forall i :: 0 <= i < |buckets| && buckets[i].valid ==> Visible(buckets[i].second, end)
  }

  function RingSums(buckets: seq<Bucket>, now: Time, k: nat): Sums
    requires k <= |buckets|
  {
    if k == 0 then NOTHING
    else
      var before := RingSums(buckets, now, k - 1);
      if Counted(buckets[k - 1], now) then Plus(before, buckets[k - 1].sums) else before
  }

  lemma ExpireRing(buckets: seq<Bucket>, end: Time, end': Time, n: nat)
    requires RingOk(buckets, end, n) && end <= end' && end' != ZERO_TIME
    ensures RingOk(Expire(buckets, end'), end', n)
    ensures AllVisible(Expire(buckets, end'), end')
  {
  }

  lemma {:induction false} ExpireKeepsSums(buckets: seq<Bucket>, end: Time, now: Time, k: nat)
    requires end <= now && now != ZERO_TIME && k <= |buckets|
    ensures RingSums(Expire(buckets, end), now, k) == RingSums(buckets, now, k)
  {
    if k > 0 {
      ExpireKeepsSums(buckets, end, now, k - 1);
    }
  }

  /** Replacing one bucket changes the ring's sums by the difference at that bucket. */
  lemma {:induction false} UpdateSums(buckets: seq<Bucket>, i: nat, b: Bucket, added: Sums, now: Time, k: nat)
    requires i < |buckets| && k <= |buckets|
    requires b.valid && (buckets[i].valid ==> buckets[i].second == b.second)
    requires b.sums == if buckets[i].valid then Plus(buckets[i].sums, added) else Plus(NOTHING, added)
    ensures RingSums(buckets[i := b], now, k)
         == if i < k && Counted(b, now) then Plus(RingSums(buckets, now, k), added) else RingSums(buckets, now, k)
  {
    if k > 0 {
      UpdateSums(buckets, i, b, added, now, k - 1);
    }
  }

  lemma SameSlotSameSecond(a: int, b: int, end: Time)
    requires Slot(a) == Slot(b)
    requires Visible(a, end) && a * SECOND < end
    requires Visible(b, end) && b * SECOND < end
    ensures a == b
  {
    assert -BUCKETS < a - b < BUCKETS;
    assert (a - b) % BUCKETS == 0;
  }

  /** Adding one visible second never collides and keeps the ring's invariant. */
  lemma AddOk(buckets: seq<Bucket>, end: Time, n: nat, m: nat, second: int, added: Sums)
    requires RingOk(buckets, end, n) && AllVisible(buckets, end)
    requires Visible(second, end) && second * SECOND < end
    requires Nonnegative(added) && 0 <= added.sequenceSamples <= added.samples
    requires n + added.samples <= m <= MAX_UINT64
    ensures var (next, ok) := Add(buckets, second, added);
            ok && RingOk(next, end, m) && AllVisible(next, end)
  {
    var i := Slot(second);
    assert BucketOk(buckets[i], i, end, n);
    if buckets[i].valid {
      SameSlotSameSecond(buckets[i].second, second, end);
    }
  }

  /** A successful addition adds the segment to every total that still sees its second. */
  lemma AddSums(buckets: seq<Bucket>, second: int, added: Sums, now: Time)
    requires |buckets| == BUCKETS && now != ZERO_TIME && Add(buckets, second, added).1
    ensures RingSums(Add(buckets, second, added).0, now, BUCKETS)
         == if Visible(second, now) then Plus(RingSums(buckets, now, BUCKETS), added) else RingSums(buckets, now, BUCKETS)
  {
    var i := Slot(second);
    UpdateSums(buckets, i, Add(buckets, second, added).0[i], added, now, BUCKETS);
  }

  // ---------- splitting conserves the sample ----------

  lemma PortionAdds(quantity: real, a: int, b: int, interval: int)
    requires interval > 0
    ensures Portion(quantity, a + b, interval) == Portion(quantity, a, interval) + Portion(quantity, b, interval)
    ensures quantity >= 0.0 && a >= 0 ==> Portion(quantity, a, interval) >= 0.0
  {
    var d := InSeconds(interval);
    assert InSeconds(a + b) == InSeconds(a) + InSeconds(b);
    assert InSeconds(a + b) / d == InSeconds(a) / d + InSeconds(b) / d;
    if quantity >= 0.0 && a >= 0 {
      assert InSeconds(a) / d >= 0.0;
    }
  }

  lemma WorthAdds(p: Sample, a: int, b: int, m: int, n: int)
    requires Qualified(p)
    ensures Worth(p, a + b, m + n) == Plus(Worth(p, a, m), Worth(p, b, n))
    ensures a >= 0 ==> Nonnegative(Worth(p, a, m))
  {
    PortionAdds(p.generatedTokens as real, a, b, Interval(p));
    PortionAdds(SequenceSecondsTotal(p), a, b, Interval(p));
  }

  /** Cutting one segment off the front takes exactly its visible worth. */
  lemma ShareSplits(p: Sample, cursor: Time, now: Time)
    requires Qualified(p) && cursor < p.end
    ensures var segmentEnd := SegmentEnd(cursor, p.end);
            var piece := Worth(p, segmentEnd - cursor, if segmentEnd == p.end then 1 else 0);
            Share(p, cursor, now)
            == if Visible(cursor / SECOND, now) then Plus(Share(p, segmentEnd, now), piece) else Share(p, segmentEnd, now)
  {
    var segmentEnd := SegmentEnd(cursor, p.end);
    if Visible(cursor / SECOND, now) {
      assert Horizon(now) <= cursor;
      WorthAdds(p, p.end - segmentEnd, segmentEnd - cursor, 1, 0);
    } else {
      assert segmentEnd <= Horizon(now);
    }
  }

  /** The splitting loop never collides. */
  lemma {:induction false} SegmentsOk(buckets: seq<Bucket>, p: Sample, cursor: Time, n: nat)
    requires Qualified(p) && p.end - WINDOW <= cursor && n < MAX_UINT64
    requires RingOk(buckets, p.end, if cursor < p.end then n else n + 1) && AllVisible(buckets, p.end)
    ensures AddSegments(buckets, p, cursor).1
    ensures RingOk(AddSegments(buckets, p, cursor).0, p.end, n + 1)
    decreases p.end - cursor
  {
    if cursor < p.end {
      var segmentEnd := SegmentEnd(cursor, p.end);
      var count := if segmentEnd == p.end then 1 else 0;
      var piece := Worth(p, segmentEnd - cursor, count);
      WorthAdds(p, segmentEnd - cursor, 0, count, 0);
      AddOk(buckets, p.end, n, n + count, cursor / SECOND, piece);
      SegmentsOk(Add(buckets, cursor / SECOND, piece).0, p, segmentEnd, n);
    }
  }

  /** The segments together are worth exactly the part of the sample still visible at `now`. */
  lemma {:induction false} SegmentsShare(buckets: seq<Bucket>, p: Sample, cursor: Time, now: Time)
    requires |buckets| == BUCKETS && Qualified(p) && now != ZERO_TIME && AddSegments(buckets, p, cursor).1
    ensures RingSums(AddSegments(buckets, p, cursor).0, now, BUCKETS)
         == Plus(RingSums(buckets, now, BUCKETS), Share(p, cursor, now))
    decreases p.end - cursor
  {
    if cursor < p.end {
      var segmentEnd := SegmentEnd(cursor, p.end);
      var piece := Worth(p, segmentEnd - cursor, if segmentEnd == p.end then 1 else 0);
      AddSums(buckets, cursor / SECOND, piece, now);
      SegmentsShare(Add(buckets, cursor / SECOND, piece).0, p, segmentEnd, now);
      ShareSplits(p, cursor, now);
    }
  }

  lemma LatestValid(p: Sample)
    requires Qualified(p)
    ensures ValidInterval(Latest(p))
  {
    if SequenceSecondsTotal(p) > 0.0 {
      assert InSeconds(Interval(p)) > 0.0;
    }
  }

  /** Observing a sample no earlier than the last one always succeeds and adds the sample's share. */
  lemma ObserveOk(w: Window, p: Sample, end: Time, n: nat)
    requires Enabled(w) && RingOk(w.buckets, end, n) && end <= p.end && n < MAX_UINT64
    ensures var (next, ok) := Observe(w, p);
            ok && RingOk(next.buckets, p.end, n + 1) && ValidInterval(next.latest)
            && (forall now :: p.end <= now && now != ZERO_TIME ==>
                  RingSums(next.buckets, now, BUCKETS)
                  == if Qualified(p) then Plus(RingSums(w.buckets, now, BUCKETS), Share(p, FirstCursor(p), now))
                     else RingSums(w.buckets, now, BUCKETS))
  {
    var expired := Expire(w.buckets, p.end);
    if p.end != ZERO_TIME {
      ExpireRing(w.buckets, end, p.end, n);
    }
    if Qualified(p) {
      LatestValid(p);
      assert FirstCursor(p) < p.end;
      SegmentsOk(expired, p, FirstCursor(p), n);
    }
    var (next, ok) := Observe(w, p);
    forall now | p.end <= now && now != ZERO_TIME
      ensures RingSums(next.buckets, now, BUCKETS)
              == if Qualified(p) then Plus(RingSums(w.buckets, now, BUCKETS), Share(p, FirstCursor(p), now))
                 else RingSums(w.buckets, now, BUCKETS)
    {
      ExpireKeepsSums(w.buckets, p.end, now, BUCKETS);
      if Qualified(p) {
        SegmentsShare(expired, p, FirstCursor(p), now);
      }
    }
  }

  // ---------- whole histories ----------

  lemma {:induction false} NewRingSums(reference: real, now: Time, k: nat)
    requires k <= BUCKETS
    ensures RingSums(NewWindow(reference).buckets, now, k) == NOTHING
  {
    if k > 0 {
      NewRingSums(reference, now, k - 1);
    }
  }

  /** For samples whose ends never go back, the ring holds exactly the history clipped to the window. */
  lemma {:induction false} RingIsHistory(reference: real, samples: seq<Sample>, end: Time)
    requires reference > 0.0 && Chronological(samples) && |samples| <= MAX_UINT64
    requires forall i :: 0 <= i < |samples| ==> samples[i].end <= end
    ensures var (w, ok) := Observed(reference, samples);
            ok && RingOk(w.buckets, end, |samples|) && ValidInterval(w.latest)
            && (forall now :: end <= now && now != ZERO_TIME ==>
                  RingSums(w.buckets, now, BUCKETS) == HistorySums(samples, now))
  {
    if samples == [] {
      forall now ensures RingSums(NewWindow(reference).buckets, now, BUCKETS) == NOTHING {
        NewRingSums(reference, now, BUCKETS);
      }
    } else {
      var prefix, last := samples[..|samples| - 1], samples[|samples| - 1];
      RingIsHistory(reference, prefix, last.end);
      ObserveOk(Observed(reference, prefix).0, last, last.end, |prefix|);
    }
  }

  lemma {:induction false} AccumulateIsRingSums(buckets: seq<Bucket>, end: Time, n: nat, now: Time, k: nat)
    requires RingOk(buckets, end, n) && k <= BUCKETS
    requires RingSums(buckets, now, BUCKETS).samples <= MAX_UINT64
    ensures var sums := RingSums(buckets, now, k);
            && Accumulate(buckets, now, k) == Some(sums)
            && Nonnegative(sums) && 0 <= sums.sequenceSamples <= sums.samples <= RingSums(buckets, now, BUCKETS).samples
    decreases k
  {
    RingSumsMonotone(buckets, end, n, now, k, BUCKETS);
    if k > 0 {
      AccumulateIsRingSums(buckets, end, n, now, k - 1);
      assert BucketOk(buckets[k - 1], k - 1, end, n);
    }
  }

  lemma {:induction false} RingSumsMonotone(buckets: seq<Bucket>, end: Time, n: nat, now: Time, j: nat, k: nat)
    requires RingOk(buckets, end, n) && j <= k <= BUCKETS
    ensures RingSums(buckets, now, j).samples <= RingSums(buckets, now, k).samples
  {
    if j < k {
      RingSumsMonotone(buckets, end, n, now, j, k - 1);
      assert BucketOk(buckets[k - 1], k - 1, end, n);
    }
  }

  lemma {:induction false} HistoryCount(samples: seq<Sample>, now: Time)
    ensures 0 <= HistorySums(samples, now).samples <= |samples|
  {
    if samples != [] {
      HistoryCount(samples[..|samples| - 1], now);
    }
  }

  /** The snapshot a reader gets equals the one computed from the whole unbounded history. */
  lemma SnapshotIsHistory(reference: real, samples: seq<Sample>, now: Time)
    requires reference > 0.0 && Chronological(samples) && |samples| <= MAX_UINT64 && now != ZERO_TIME
    requires forall i :: 0 <= i < |samples| ==> samples[i].end <= now
    ensures var (w, ok) := Observed(reference, samples);
            ok && Snapshot(w, now) == SnapshotOf(reference, w.latest, Some(HistorySums(samples, now)))
               && Snapshot(w, now).sums == HistorySums(samples, now)
               && Nonnegative(HistorySums(samples, now))
  {
    RingIsHistory(reference, samples, now);
    HistoryCount(samples, now);
    AccumulateIsRingSums(Observed(reference, samples).0.buckets, now, |samples|, now, BUCKETS);
  }

  /** A sample no longer than the window is conserved: at its own end it counts once and in full. */
  lemma SampleConserved(p: Sample)
    requires Qualified(p) && Interval(p) <= WINDOW
    ensures Share(p, FirstCursor(p), p.end) == Worth(p, Interval(p), 1)
    ensures Share(p, FirstCursor(p), p.end).tokens == p.generatedTokens as real
  {
    assert p.start >= Horizon(p.end);
    WholePortion(p.generatedTokens as real, Interval(p));
  }

  /** Observing a qualified sample no longer than the window adds to the ring, at the sample's end, its
      tokens and its seconds in full and exactly one sample. */
  lemma ObservedInFull(w: Window, p: Sample, end: Time, n: nat)
    requires Enabled(w) && RingOk(w.buckets, end, n) && end <= p.end && n < MAX_UINT64
    requires Qualified(p) && Interval(p) <= WINDOW
    ensures var (next, ok) := Observe(w, p);
            var before, after := RingSums(w.buckets, p.end, BUCKETS), RingSums(next.buckets, p.end, BUCKETS);
            && ok && after.tokens == before.tokens + p.generatedTokens as real
            && after.activeSeconds == before.activeSeconds + InSeconds(p.end - p.start)
            && after.samples == before.samples + 1
            && (if SequenceSecondsTotal(p) > 0.0 then
                  && after.sequenceTokens == before.sequenceTokens + p.generatedTokens as real
                  && after.sequenceSeconds == before.sequenceSeconds + SequenceSecondsTotal(p)
                  && after.sequenceSamples == before.sequenceSamples + 1
                else
                  && after.sequenceTokens == before.sequenceTokens
                  && after.sequenceSeconds == before.sequenceSeconds
                  && after.sequenceSamples == before.sequenceSamples)
  {
    ObserveOk(w, p, end, n);
    SampleConserved(p);
    WholePortion(p.generatedTokens as real, Interval(p));
    WholePortion(SequenceSecondsTotal(p), Interval(p));
  }

  lemma WholePortion(quantity: real, interval: int)
    requires interval > 0
    ensures Portion(quantity, interval, interval) == quantity
  {
    assert InSeconds(interval) > 0.0;
    SelfQuotient(InSeconds(interval));
  }

  lemma SelfQuotient(x: real)
    requires x > 0.0
    ensures x / x == 1.0
  {
  }

  // ---------- disjoint intervals ----------

  /** No bucket holds more active time than its second contains before `until`. */
  predicate Covered(buckets: seq<Bucket>, until: Time) {
    forall i :: 0 <= i < |buckets| && buckets[i].valid ==> CoveredBucket(buckets[i], until)
  }

  predicate CoveredBucket(b: Bucket, until: Time) {
    var limit := if until < (b.second + 1) * SECOND then until else (b.second + 1) * SECOND;
    b.sums.activeSeconds <= InSeconds(limit - b.second * SECOND)
  }

  predicate Disjoint(samples: seq<Sample>) {
    forall i, j :: 0 <= i < j < |samples| ==> samples[i].end <= samples[j].start
  }

  lemma AddCovered(buckets: seq<Bucket>, cursor: Time, segmentEnd: Time, added: Sums)
    requires |buckets| == BUCKETS && Covered(buckets, cursor)
    requires cursor < segmentEnd <= (cursor / SECOND + 1) * SECOND
    requires added.activeSeconds == InSeconds(segmentEnd - cursor)
    requires Add(buckets, cursor / SECOND, added).1
    ensures Covered(Add(buckets, cursor / SECOND, added).0, segmentEnd)
  {
    var i, second := Slot(cursor / SECOND), cursor / SECOND;
    var next := Add(buckets, second, added).0;
    CoveredGrows(buckets, cursor, segmentEnd);
    assert InSeconds(segmentEnd - second * SECOND) == InSeconds(cursor - second * SECOND) + InSeconds(segmentEnd - cursor);
    assert InSeconds(cursor - second * SECOND) >= 0.0;
    assert CoveredBucket(next[i], segmentEnd);
  }

  lemma CoveredGrows(buckets: seq<Bucket>, until: Time, later: Time)
    requires Covered(buckets, until) && until <= later
    ensures Covered(buckets, later)
  {
    forall i | 0 <= i < |buckets| && buckets[i].valid ensures CoveredBucket(buckets[i], later) {
      assert CoveredBucket(buckets[i], until);
    }
  }

  lemma {:induction false} SegmentsCovered(buckets: seq<Bucket>, p: Sample, cursor: Time)
    requires |buckets| == BUCKETS && Qualified(p) && cursor <= p.end && Covered(buckets, cursor)
    requires AddSegments(buckets, p, cursor).1
    ensures Covered(AddSegments(buckets, p, cursor).0, p.end)
    decreases p.end - cursor
  {
    if cursor < p.end {
      var segmentEnd := SegmentEnd(cursor, p.end);
      var piece := Worth(p, segmentEnd - cursor, if segmentEnd == p.end then 1 else 0);
      AddCovered(buckets, cursor, segmentEnd, piece);
      SegmentsCovered(Add(buckets, cursor / SECOND, piece).0, p, segmentEnd);
    }
  }

  /** With disjoint sample intervals no bucket ever holds more than one second of active time. */
  lemma {:induction false} DisjointCovered(reference: real, samples: seq<Sample>, end: Time)
    requires reference > 0.0 && Chronological(samples) && Disjoint(samples) && |samples| <= MAX_UINT64
    requires forall i :: 0 <= i < |samples| ==> samples[i].end <= end
    ensures Covered(Observed(reference, samples).0.buckets, end)
  {
    if samples != [] {
      var prefix, last := samples[..|samples| - 1], samples[|samples| - 1];
      var before := Observed(reference, prefix).0;
      var reached := if Qualified(last) then last.start else last.end;
      DisjointCovered(reference, prefix, reached);
      RingIsHistory(reference, prefix, last.end);
      ObserveOk(before, last, last.end, |prefix|);
      var expired := Expire(before.buckets, last.end);
      CoveredGrows(expired, reached, if Qualified(last) then FirstCursor(last) else last.end);
      if Qualified(last) {
        LatestValid(last);
        SegmentsCovered(expired, last, FirstCursor(last));
      }
      CoveredGrows(Observed(reference, samples).0.buckets, last.end, end);
    }
  }

  /** The slot of the second `end` falls in is empty or only partly filled. */
  lemma PartialSlot(buckets: seq<Bucket>, end: Time, n: nat)
    requires RingOk(buckets, end, n) && Covered(buckets, end)
    ensures var b := buckets[Slot(end / SECOND)]; Counted(b, end) && end != ZERO_TIME ==> b.sums.activeSeconds < 1.0
  {
    var i := Slot(end / SECOND);
    var b := buckets[i];
    assert BucketOk(b, i, end, n);
    if Counted(b, end) && end != ZERO_TIME {
      assert -BUCKETS <= b.second - end / SECOND <= 0;
      assert (b.second - end / SECOND) % BUCKETS == 0;
      assert CoveredBucket(b, end);
    }
  }

  lemma {:induction false} ActiveBound(buckets: seq<Bucket>, end: Time, n: nat, k: nat)
    requires RingOk(buckets, end, n) && Covered(buckets, end) && k <= BUCKETS && end != ZERO_TIME
    ensures RingSums(buckets, end, k).activeSeconds <= k as real
    ensures k > Slot(end / SECOND) ==> RingSums(buckets, end, k).activeSeconds < k as real
  {
    PartialSlot(buckets, end, n);
    if k > 0 {
      ActiveBound(buckets, end, n, k - 1);
      if Counted(buckets[k - 1], end) {
        assert CoveredBucket(buckets[k - 1], end);
      }
    }
  }

  /** With disjoint intervals the window's active time stays below 61 s. */
  lemma ActiveTimeBelow61(reference: real, samples: seq<Sample>, now: Time)
    requires reference > 0.0 && Chronological(samples) && Disjoint(samples) && |samples| <= MAX_UINT64
    requires now != ZERO_TIME && forall i :: 0 <= i < |samples| ==> samples[i].end <= now
    ensures Snapshot(Observed(reference, samples).0, now).sums.activeSeconds < 61.0
  {
    SnapshotIsHistory(reference, samples, now);
    RingIsHistory(reference, samples, now);
    DisjointCovered(reference, samples, now);
    ActiveBound(Observed(reference, samples).0.buckets, now, |samples|, BUCKETS);
  }

  // ---------- the window as the mutable object the controller holds ----------

  class RollingWindow {
    const reference: real
    const buckets: array<Bucket>
    var latest: IntervalSnapshot

    ghost predicate Valid()
      reads this
    {
      buckets.Length == BUCKETS
    }

    ghost function Model(): Window
      reads this, buckets
    {
      Window(reference, buckets[..], latest)
    }

    constructor (reference: real)
      ensures Valid() && fresh(buckets) && Model() == NewWindow(reference)
    {
      this.reference := reference;
      this.buckets := new Bucket[BUCKETS](_ => EMPTY_BUCKET);
      this.latest := NO_INTERVAL;
    }

    method Reset()
      requires Valid()
      modifies this, buckets
      ensures Model() == ResetWindow(old(Model()))
    {
      forall i | 0 <= i < buckets.Length {
        buckets[i] := EMPTY_BUCKET;
      }
      latest := NO_INTERVAL;
    }

    method ExpireAt(now: Time)
      requires Valid()
      modifies buckets
      ensures Model() == old(Model()).(buckets := Expire(old(buckets[..]), now))
    {
      if now == ZERO_TIME {
        return;
      }
      for i := 0 to buckets.Length
        invariant forall j :: 0 <= j < i ==> buckets[j] == ExpireBucket(old(buckets[j]), now)
        invariant forall j :: i <= j < buckets.Length ==> buckets[j] == old(buckets[j])
      {
        if buckets[i].valid && !Visible(buckets[i].second, now) {
          buckets[i] := EMPTY_BUCKET;
        }
      }
    }

    method AddSegment(second: int, added: Sums) returns (ok: bool)
      requires Valid()
      modifies buckets
      ensures (buckets[..], ok) == Add(old(buckets[..]), second, added)
    {
      if !Nonnegative(added) {
        return false;
      }
      var index := Slot(second);
      if buckets[index].valid && buckets[index].second != second {
        return false;
      }
      if !buckets[index].valid {
        buckets[index] := Bucket(second, true, NOTHING);
      }
      assert buckets[..] == old(buckets[..])[index := buckets[index]];
      var sums := buckets[index].sums;
      if MAX_UINT64 - sums.samples < added.samples || MAX_UINT64 - sums.sequenceSamples < added.sequenceSamples {
        return false;
      }
      if !Nonnegative(Plus(sums, added)) {
        return false;
      }
      buckets[index] := buckets[index].(sums := Plus(sums, added));
      assert buckets[..] == old(buckets[..])[index := Bucket(second, true, Plus(sums, added))];
      return true;
    }

    method ObserveSample(p: Sample) returns (ok: bool)
      requires Valid()
      modifies this, buckets
      ensures (Model(), ok) == Observe(old(Model()), p)
    {
      if reference <= 0.0 {
        return true;
      }
      latest := NO_INTERVAL;
      ExpireAt(p.end);
      if !Qualified(p) {
        return true;
      }
      if !ValidInterval(Latest(p)) {
        return false;
      }
      latest := Latest(p);
      var cursor := FirstCursor(p);
      ghost var expired := buckets[..];
      while cursor < p.end
        invariant AddSegments(buckets[..], p, cursor) == AddSegments(expired, p, FirstCursor(p))
        invariant latest == Latest(p)
        decreases p.end - cursor
      {
        var segmentEnd := SegmentEnd(cursor, p.end);
        var count := if segmentEnd == p.end then 1 else 0;
        ok := AddSegment(cursor / SECOND, Worth(p, segmentEnd - cursor, count));
        if !ok {
          return false;
        }
        cursor := segmentEnd;
      }
      return true;
    }

    method Read(now: Time) returns (snapshot: TPSSnapshot)
      requires Valid()
      ensures snapshot == Snapshot(Model(), now) && RatesOfSums(snapshot)
    {
      SnapshotRates(Model(), now);
      if reference <= 0.0 {
        return TPSSnapshot(false, false, reference, NOTHING, 0.0, 0.0, latest);
      }
      var sums := NOTHING;
      for i := 0 to buckets.Length
        invariant Accumulate(buckets[..], now, i) == Some(sums)
      {
        var b := buckets[i];
        if Counted(b, now) {
          if MAX_UINT64 - sums.samples < b.sums.samples || MAX_UINT64 - sums.sequenceSamples < b.sums.sequenceSamples {
            AccumulateStops(buckets[..], now, i + 1, buckets.Length);
            return SnapshotOf(reference, latest, None);
          }
          sums := Plus(sums, b.sums);
        }
      }
      return SnapshotOf(reference, latest, Some(sums));
    }
  }

  lemma {:induction false} AccumulateStops(buckets: seq<Bucket>, now: Time, j: nat, k: nat)
    requires j <= k <= |buckets| && Accumulate(buckets, now, j).None?
    ensures Accumulate(buckets, now, k).None?
  {
    if j < k {
      AccumulateStops(buckets, now, j, k - 1);
    }
  }
}
