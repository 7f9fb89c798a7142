/** What a new controller starts with, and which fields a policy update sets. */
module ConfigurationMeaning {
  import opened Machine
  import TW = TpsWindow
  import opened Controller

  /** A configuration is refused for an empty identity, a reference outside 0 to a million, bounds outside 0
      to 2^20 (the window at least 1), a negative lease, an unknown limit source, or a limit of no source. */
  lemma ConfiguredExactly(c: Config)
    ensures Init(c).Some? <==>
              && c.runtimeIdentity != "" && 0.0 <= c.reference <= 1_000_000.0
              && 0 <= c.windowConcurrency <= 1_048_576 && 0 <= c.runningLimit <= 1_048_576 && c.leaseDuration >= 0
              && c.runningLimitSource != LimitOther
              && (c.runningLimit > 0 ==> c.runningLimitSource != LimitUnset && c.runningLimitSource != LimitUnknown)
    ensures Init(c).Some? ==>
              var s := Init(c).value;
              && s.runtimeIdentity == c.runtimeIdentity
              && s.gate.backendTierScheduling == c.backendTierScheduling && s.gate.warmPromptTokens == c.warmPromptTokens
              && s.tpsWindow.reference == c.reference
              && s.windowConcurrency == (if c.windowConcurrency > 0 then c.windowConcurrency else 32)
              && s.runningLimit == c.runningLimit && s.waitingAllowance == 3
              && s.leaseDuration == (if c.leaseDuration > 0 then c.leaseDuration else 1_500_000_000)
              && s.runningLimitSource == (if c.runningLimitSource == LimitUnset then LimitUnknown else c.runningLimitSource)
              && s.runtimeEpoch == 1 && s.policyRevision == 1 && s.tpsPolicyEpoch == 1
              && s.eventSequence == 0 && s.sampleSequence == 0 && s.observationSequence == 0
              && s.nextReservationID == 0 && s.lastPublishedSample == 0
              && s.policyUpdatedAt == -62_135_596_800_000_000_000
              && s.observation.None? && s.closedReason.None? && s.reservations == map[]
              && s.maximumReservations == 1_048_576
  {
  }

  /** Each given figure within its range, at least one given, with a revision and a time. */
  predicate Sensible(u: PolicyUpdate) {
    && u.expectedRevision > 0 && u.updatedAt != -62_135_596_800_000_000_000
    && !(u.reference == None && u.windowConcurrency == None && u.runningLimit == None && u.waitingAllowance == None)
    && (u.reference.None? || 0.0 <= u.reference.value <= 1_000_000.0)
    && (u.windowConcurrency.None? || 1 <= u.windowConcurrency.value <= 1_048_576)
    && (u.runningLimit.None? || 0 <= u.runningLimit.value <= 1_048_576)
    && (u.waitingAllowance.None? || 0 <= u.waitingAllowance.value <= 1_048_576)
  }

  predicate Sets<T(==)>(given: Option<T>, before: T, after: T) {
    (given.Some? ==> after == given.value) && (given.None? ==> after == before)
  }

  predicate Reports(p: PolicySnapshot, s: State) {
    && p.revision == s.policyRevision && p.reference == s.tpsWindow.reference
    && p.windowConcurrency == s.windowConcurrency && p.runningLimit == s.runningLimit
    && p.waitingAllowance == s.waitingAllowance && p.runningLimitSource == s.runningLimitSource
    && p.updatedAt == s.policyUpdatedAt
  }

  /** An update succeeds exactly when it is sensible, the controller is open with revisions left, and it
      expects the current revision. It then sets the figures given and keeps the others, moves the revision
      on by one, and starts an empty window of the next TPS epoch exactly when the reference changed. */
  lemma UpdatedExactly(s: State, u: PolicyUpdate)
    ensures var (s', r) := UpdatePolicy(s, u);
            && (r.error.None? <==>
                  && Sensible(u) && s.closedReason.None? && s.policyRevision != 0xFFFF_FFFF_FFFF_FFFF
                  && s.policyRevision == u.expectedRevision)
            && (r.error == Some(PolicyInvalid) <==> !Sensible(u))
            && (r.error == Some(PolicyUnavailable) <==>
                  Sensible(u) && (s.closedReason.Some? || s.policyRevision == 0xFFFF_FFFF_FFFF_FFFF))
            && Reports(r.previousPolicy, s) && Reports(r.policy, s')
            && (r.error.Some? ==> s' == s && !r.tpsWindowReset)
            && (r.error.None? ==>
                  && s'.policyRevision == s.policyRevision + 1 && s'.policyUpdatedAt == u.updatedAt
                  && Sets(u.reference, s.tpsWindow.reference, s'.tpsWindow.reference)
                  && Sets(u.windowConcurrency, s.windowConcurrency, s'.windowConcurrency)
                  && Sets(u.runningLimit, s.runningLimit, s'.runningLimit)
                  && Sets(u.waitingAllowance, s.waitingAllowance, s'.waitingAllowance)
                  && s'.runningLimitSource == (if u.runningLimit.Some? then LimitAdmin else s.runningLimitSource)
                  && (r.tpsWindowReset <==> s'.tpsWindow.reference != s.tpsWindow.reference)
                  && (r.tpsWindowReset ==>
                        s'.tpsPolicyEpoch == s.tpsPolicyEpoch + 1 && s'.tpsWindow == TW.NewWindow(s'.tpsWindow.reference))
                  && (!r.tpsWindowReset ==> s'.tpsPolicyEpoch == s.tpsPolicyEpoch && s'.tpsWindow == s.tpsWindow)
                  && s'.reservations == s.reservations && s'.overlay == s.overlay && s'.exposure == s.exposure
                  && s'.observation == s.observation && s'.runtimeEpoch == s.runtimeEpoch && s'.gate == s.gate)
  {
  }
}
