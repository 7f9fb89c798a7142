/** What a reader of the TPS window is told, in terms of what was observed. */
module TpsMeaning {
  import opened Machine
  import opened TpsWindow

  // ---------- the snapshot ----------

  /** A snapshot of sums: two ratios, and ready from four sequence samples and eight sequence seconds on. */
  predicate Reads(r: TPSSnapshot, reference: real, h: Sums) {
    && r.enabled && r.reference == reference && r.sums == h
    && (r.ready <==> h.sequenceSamples >= 4 && h.sequenceSeconds >= 8.0)
    && (if h.sequenceSeconds > 0.0 then r.meanActiveTPS * h.sequenceSeconds == h.sequenceTokens
        else r.meanActiveTPS == 0.0)
    && (if h.activeSeconds > 0.0 then r.aggregateTPS * h.activeSeconds == h.tokens else r.aggregateTPS == 0.0)
  }

  lemma SnapshotExactly(reference: real, latest: IntervalSnapshot, h: Sums)
    requires reference >= 0.0 && ValidInterval(latest)
    requires h.tokens >= 0.0 && h.activeSeconds >= 0.0 && h.sequenceTokens >= 0.0 && h.sequenceSeconds >= 0.0
    ensures var r := SnapshotOf(reference, latest, Some(h)); Reads(r, reference, h) && r.latest == latest
  {
  }

  /** A second counts while its last instant is no more than sixty seconds old. */
  lemma VisibleExactly(second: int, now: Time)
    ensures Visible(second, now) <==> now - (second * 1_000_000_000 + 999_999_999) <= 60_000_000_000
  {
  }

  // ---------- the latest sample ----------

  /** Which samples count: real instants in order, no further apart than allowed, counts and exposures that
      are not negative, and evidence of decoding. */
  lemma QualifiedExactly(p: Sample)
    requires p.end - p.start <= 0x7FFF_FFFF_FFFF_FFFF
    ensures Qualified(p) <==>
              && p.start != ZERO_TIME && p.end != ZERO_TIME
              && p.start < p.end && p.end - p.start <= p.maximumInterval
              && p.previousRunning >= 0 && p.running >= 0 && p.forwardedLiabilities >= 0
              && p.localForwardedSeconds >= 0.0 && p.localResponseSeconds >= 0.0
              && (p.generatedTokens > 0 || p.localResponseSeconds > 0.0)
  {
  }

  /** The longer endpoint count held for the whole interval. */
  function EndpointSeconds(p: Sample): real {
    var most := if p.previousRunning > p.running then p.previousRunning else p.running;
    Interval(p) as real / 1_000_000_000.0 * most as real
  }

  function LiabilitySeconds(p: Sample): real {
    Interval(p) as real / 1_000_000_000.0 * p.forwardedLiabilities as real
  }

  predicate Unmeasured(p: Sample) {
    !p.localExposureMeasured && p.localForwardedSeconds == 0.0 && p.localResponseSeconds == 0.0
  }

  /** The sequence time a sample is worth: the largest of the endpoint time and both local exposures, and
      without any local measurement also the liabilities held. */
  lemma SequenceSecondsExactly(p: Sample)
    requires p.previousRunning >= 0 && p.running >= 0 && Interval(p) > 0
    ensures var total := SequenceSecondsTotal(p);
            && total >= EndpointSeconds(p) && total >= p.localForwardedSeconds && total >= p.localResponseSeconds
            && (Unmeasured(p) ==> total >= LiabilitySeconds(p))
            && (|| total == EndpointSeconds(p) || total == p.localForwardedSeconds || total == p.localResponseSeconds
                || (Unmeasured(p) && total == LiabilitySeconds(p)))
  {
    var most := if p.previousRunning > p.running then p.previousRunning else p.running;
    assert MaxCount(p.previousRunning, p.running) == most;
    assert InSeconds(Interval(p)) == Interval(p) as real / 1_000_000_000.0;
    ProductNonnegative(InSeconds(Interval(p)), most as real);
  }

  lemma ProductNonnegative(x: real, y: real)
    requires x >= 0.0 && y >= 0.0
    ensures x * y >= 0.0
  {
  }

  lemma LatestOfObserve(w: Window, p: Sample)
    requires Enabled(w) && |w.buckets| == BUCKETS
    ensures Observe(w, p).0.latest == if Qualified(p) then Latest(p) else NO_INTERVAL
  {
    if Qualified(p) {
      LatestValid(p);
    }
  }

  /** A sample that counts says its tokens over its seconds and over its sequence seconds. */
  lemma LatestFigures(p: Sample, total: real)
    requires Qualified(p) && total == SequenceSecondsTotal(p) && total > 0.0
    ensures var latest := Latest(p);
            && latest.qualified && latest.tokens == p.generatedTokens && latest.sequenceSeconds == total
            && latest.durationSeconds * 1_000_000_000.0 == Interval(p) as real
            && latest.aggregateTPS * latest.durationSeconds == p.generatedTokens as real
            && latest.meanActiveTPS * total == p.generatedTokens as real
  {
  }

  /** What is said of a sample: its tokens over its seconds and over its sequence seconds, or nothing if it
      does not count. */
  predicate Tells(latest: IntervalSnapshot, p: Sample, total: real) {
    if !Qualified(p) || total <= 0.0 then
      latest == IntervalSnapshot(false, 0, 0.0, 0.0, 0.0, 0.0)
    else
      && latest.qualified && latest.tokens == p.generatedTokens && latest.sequenceSeconds == total
      && latest.durationSeconds * 1_000_000_000.0 == Interval(p) as real
      && latest.aggregateTPS * latest.durationSeconds == p.generatedTokens as real
      && latest.meanActiveTPS * total == p.generatedTokens as real
  }

  lemma LatestTells(p: Sample)
    requires Qualified(p)
    ensures Tells(Latest(p), p, SequenceSecondsTotal(p))
  {
    if SequenceSecondsTotal(p) > 0.0 { LatestFigures(p, SequenceSecondsTotal(p)); }
  }

  /** After an observation the window says so of its latest sample. */
  lemma LatestExactly(w: Window, p: Sample)
    requires Enabled(w) && |w.buckets| == BUCKETS
    ensures Tells(Observe(w, p).0.latest, p, SequenceSecondsTotal(p))
  {
    LatestOfObserve(w, p);
    if Qualified(p) { LatestTells(p); }
  }
}
