/** The admission decision in terms of what was measured: which demands pass, and what a refusal is called. */
module PolicyMeaning {
  import opened TpsWindow
  import opened Policy

  /** A snapshot the gate can compare: a positive reference and figures that are not negative. */
  predicate Comparable(t: TPSSnapshot) {
    && t.reference > 0.0 && t.aggregateTPS >= 0.0 && t.meanActiveTPS >= 0.0
    && t.sums.tokens >= 0.0 && t.sums.activeSeconds >= 0.0
    && t.sums.sequenceTokens >= 0.0 && t.sums.sequenceSeconds >= 0.0
    && (if t.latest.qualified then
          && t.latest.durationSeconds > 0.0 && t.latest.sequenceSeconds > 0.0
          && t.latest.aggregateTPS >= 0.0 && t.latest.meanActiveTPS >= 0.0
        else
          t.latest == IntervalSnapshot(false, 0, 0.0, 0.0, 0.0, 0.0))
  }

  predicate ForSale(d: Demand) {
    d.tier == TierDefault || d.tier == TierFlex
  }

  /** Prompt-aware gating is on and the uncached prompt is larger than one chunk, or unknown. */
  predicate ColdPrompt(g: TpsGate, d: Demand) {
    g.warmPromptTokens > 0 && !(d.prefillKnown && d.prefillTokens <= g.warmPromptTokens)
  }

  /** The window is ready and the latest sample qualified. */
  predicate Measured(t: TPSSnapshot) {
    t.ready && t.latest.qualified
  }

  predicate WindowHealthy(t: TPSSnapshot) { t.meanActiveTPS >= t.reference }

  predicate LatestHealthy(t: TPSSnapshot) { t.latest.meanActiveTPS >= t.reference }

  /** The reference keeps a default or flex demand out: a cold prompt needs the window at the reference and
      no other cold prompt pending, any other the window or the latest sample. */
  predicate TooSlowForSale(g: TpsGate, s: ProjectedState, d: Demand) {
    Measured(s.tps) &&
    if ColdPrompt(g, d) then s.coldSheddablePending > 0 || !WindowHealthy(s.tps)
    else !WindowHealthy(s.tps) && !LatestHealthy(s.tps)
  }

  predicate TooSlowForPriority(g: TpsGate, s: ProjectedState) {
    Measured(s.tps) && !WindowHealthy(s.tps) && !LatestHealthy(s.tps) && !g.backendTierScheduling
  }

  /** What the TPS gate refuses for load. */
  predicate Slow(g: TpsGate, s: ProjectedState, b: Bounds, d: Demand) {
    if ForSale(d) then
      || s.rawWaiting > b.waitingAllowance
      || (s.tps.enabled && Comparable(s.tps) && (s.preemptionDelta > 0 || TooSlowForSale(g, s, d)))
    else
      s.tps.enabled && Comparable(s.tps) && TooSlowForPriority(g, s)
  }

  /** All sequences the backend would then run: running, waiting, not yet observed, and the demand's own. */
  function AllSequences(s: ProjectedState, d: Demand): int {
    s.rawRunning + s.rawWaiting + s.unobservedSequences + d.decodeSequences
  }

  /** The numbers the bounds are checked with exist. */
  predicate Computable(s: ProjectedState, b: Bounds, d: Demand) {
    if ForSale(d) then
      && d.decodeSequences > 0 && d.source != SourceUnknown && b.windowConcurrency > 0 && b.runningLimit >= 0
      && s.rawRunning >= 0 && s.rawWaiting >= 0 && s.unobservedSequences >= 0
      && AllSequences(s, d) <= 0x7FFF_FFFF_FFFF_FFFF
    else
      && d.decodeSequences >= 0 && s.rawRunning >= 0 && s.unobservedSequences >= 0
      && s.rawRunning + d.decodeSequences <= 0x7FFF_FFFF_FFFF_FFFF
      && s.unobservedSequences + d.decodeSequences <= 0x7FFF_FFFF_FFFF_FFFF
  }

  predicate OverRunningLimit(s: ProjectedState, b: Bounds, d: Demand) {
    ForSale(d) && b.runningLimit > 0 && AllSequences(s, d) > b.runningLimit
  }

  predicate OverWindow(s: ProjectedState, b: Bounds, d: Demand) {
    ForSale(d) && s.unobservedSequences + d.decodeSequences > b.windowConcurrency
  }

  /** A demand is admitted exactly when the TPS figures, if there are any, can be compared and do not keep
      it out, and, for default and flex, waiting, running and window stay within their limits. */
  lemma AdmittedExactly(g: TpsGate, s: ProjectedState, d: Demand, b: Bounds)
    ensures EvaluateDemand(g, s, d, b).admit <==>
              && !Slow(g, s, b, d) && (s.tps.enabled ==> Comparable(s.tps))
              && Computable(s, b, d) && !OverRunningLimit(s, b, d) && !OverWindow(s, b, d)
  {
  }

  /** With the window and the latest sample both below the reference, priority passes a backend that
      schedules by tier, and nothing else passes. */
  lemma OnlyScheduledPriorityBelowReference(g: TpsGate, s: ProjectedState, d: Demand, b: Bounds)
    requires s.tps.enabled && Comparable(s.tps) && s.tps.ready && s.tps.latest.qualified
    requires s.tps.meanActiveTPS < s.tps.reference && s.tps.latest.meanActiveTPS < s.tps.reference
    ensures EvaluateDemand(g, s, d, b).admit <==>
              d.tier != TierDefault && d.tier != TierFlex && g.backendTierScheduling && Computable(s, b, d)
  {
    AdmittedExactly(g, s, d, b);
  }

  /** A default or flex demand within every limit is admitted on a healthy window with no cold prompt
      pending, and before there is evidence, whatever its prompt. */
  lemma WithinLimitsIsAdmitted(g: TpsGate, s: ProjectedState, d: Demand, b: Bounds)
    requires d.tier == TierDefault || d.tier == TierFlex
    requires s.rawWaiting <= b.waitingAllowance && Computable(s, b, d)
    requires s.unobservedSequences + d.decodeSequences <= b.windowConcurrency
    requires b.runningLimit == 0 || AllSequences(s, d) <= b.runningLimit
    requires s.tps.enabled ==>
               && Comparable(s.tps) && s.preemptionDelta == 0
               && (s.tps.ready && s.tps.latest.qualified ==>
                     s.tps.meanActiveTPS >= s.tps.reference && s.coldSheddablePending == 0)
    ensures EvaluateDemand(g, s, d, b).admit
  {
    AdmittedExactly(g, s, d, b);
  }

  /** The reason of a refusal: load first, then figures that cannot be used, then the running limit, then
      the window. */
  lemma ReasonExactly(g: TpsGate, s: ProjectedState, d: Demand, b: Bounds)
    ensures var r := EvaluateDemand(g, s, d, b);
            && (r.reason == ReasonOpen <==> r.admit)
            && (r.reason == ReasonTPSReference <==> Slow(g, s, b, d))
            && (r.reason == ReasonResourceExhausted <==>
                  !Slow(g, s, b, d) && ((s.tps.enabled && !Comparable(s.tps)) || !Computable(s, b, d)))
            && (r.reason == ReasonRunningLimit <==>
                  && !Slow(g, s, b, d) && (s.tps.enabled ==> Comparable(s.tps))
                  && Computable(s, b, d) && OverRunningLimit(s, b, d))
            && (r.reason == ReasonWindowConcurrency <==>
                  && !Slow(g, s, b, d) && (s.tps.enabled ==> Comparable(s.tps))
                  && Computable(s, b, d) && !OverRunningLimit(s, b, d) && OverWindow(s, b, d))
            && (r.scope == ScopeNone <==> r.admit)
            && (r.scope == ScopeLoad <==>
                  r.reason == ReasonTPSReference || r.reason == ReasonRunningLimit || r.reason == ReasonWindowConcurrency)
            && r.scope != ScopeRequest
  {
  }

  /** The projections an admitted demand is reported with. */
  lemma ProjectionsExactly(g: TpsGate, s: ProjectedState, d: Demand, b: Bounds)
    requires EvaluateDemand(g, s, d, b).admit
    ensures var r := EvaluateDemand(g, s, d, b);
            && r.projectedWindow == s.unobservedSequences + d.decodeSequences
            && r.projectedRunning == if ForSale(d) then AllSequences(s, d) else s.rawRunning + d.decodeSequences
  {
  }

  /** What the TPS gate reports beside its answer. */
  lemma SubreasonExactly(g: TpsGate, s: ProjectedState, d: Demand, b: Bounds)
    ensures var r := EvaluateDemand(g, s, d, b);
            var crowded := ForSale(d) && s.rawWaiting > b.waitingAllowance;
            var compared := !crowded && s.tps.enabled && Comparable(s.tps);
            var calm := compared && !(ForSale(d) && s.preemptionDelta > 0);
            var judged := calm && Measured(s.tps) && !(ForSale(d) && ColdPrompt(g, d) && s.coldSheddablePending > 0);
            var recovered := judged && !WindowHealthy(s.tps) && LatestHealthy(s.tps);
            var below := judged && !WindowHealthy(s.tps) && !LatestHealthy(s.tps);
            && (r.tpsSubreason == SubWaiting <==> crowded)
            && (r.tpsSubreason == SubDisabled <==> !crowded && !s.tps.enabled)
            && (r.tpsSubreason == SubInvalidState <==> !crowded && s.tps.enabled && !Comparable(s.tps))
            && (r.tpsSubreason == SubPreemption <==> compared && !calm)
            && (r.tpsSubreason == SubWarming <==> calm && !s.tps.ready)
            && (r.tpsSubreason == SubNoCurrentEvidence <==> calm && s.tps.ready && !s.tps.latest.qualified)
            && (r.tpsSubreason == SubColdPromptPending <==> calm && Measured(s.tps) && !judged)
            && (r.tpsSubreason == SubHealthyWindow <==> judged && WindowHealthy(s.tps))
            && (r.tpsSubreason == SubColdPrompt <==> recovered && ForSale(d) && ColdPrompt(g, d))
            && (r.tpsSubreason == SubWarmPrompt <==>
                  recovered && ForSale(d) && g.warmPromptTokens > 0 && !ColdPrompt(g, d))
            && (r.tpsSubreason == SubRecoveredCurrent <==> recovered && !(ForSale(d) && g.warmPromptTokens > 0))
            && (r.tpsSubreason == SubBackendScheduled <==> below && !ForSale(d) && g.backendTierScheduling)
            && (r.tpsSubreason == SubBelowReference <==> below && (ForSale(d) || !g.backendTierScheduling))
            && (r.tpsResult == TpsProtect <==> Slow(g, s, b, d))
            && (r.tpsResult == TpsDisabled <==> r.tpsSubreason == SubDisabled)
            && (r.tpsResult == TpsInvalid <==> r.tpsSubreason == SubInvalidState)
            && r.tpsResult != TpsUnknown && r.tpsSubreason != SubUnknown
  {
  }
}
