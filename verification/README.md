# Inference guard: admission, queueing, request scanning and prompt pricing

A Dafny model of the parts of the guard in which a fast or concurrent form has a simple meaning, with
proofs that it keeps that meaning in every run and on every input.

| part | files |
|---|---|
| machine integers, instants, sums over maps | `Machine`, `Totals` |
| two-word exposure arithmetic and the sequence ledger | `Exposure` |
| the TPS ring window | `TpsWindow` |
| demand, TPS gate and admission bounds | `Policy` |
| reservations and overlays | `Reservations` |
| the admission controller: step functions, runs, invariant, theorems | `Controller*`, `Reconciliation`, `PublicationEffects` |
| the controller as an object | `AdmissionController` |
| the priority queue: selection order, critical sections, protocol, theorems | `Priority*` |
| what decisions, snapshots, publications and replies mean in plain terms | `*Meaning` |
| the JSON grammar, its scanner, soundness and completeness | `JsonGrammar`, `JsonScan`, `JsonSound`, `JsonComplete` |
| the request-shape parser and its fan-out arithmetic | `TpsShape`, `TpsFanout`, `JsonShapeParser` |
| the scheduling-priority rewriters | `SchedulingPriority`, `SchedulingPriorityBody` |
| the prompt mirror | `PromptRecency`, `PromptMirror` |

## How the source is represented

Every method the controller runs under its lock is one atomic step: a function from the state before to
the state after and the result, and a method of a class that changes its record field by field and is
proved against that function. A run is any sequence of calls; next to the state it carries a history that
only an observer could keep: when each request was forwarded, answered and ended, what each sample window
froze, which calls have succeeded. The invariant `ControllerSound.Sound` ties state and history together,
`ControllerTheorems.RunSound` shows that every run keeps it, and the main results read off it.

The clock is an argument of each step. It never goes back during a run, is never zero, and stays within
2^63 - 1 nanoseconds (292 years) of where the run began, because durations are int64;
`Exposure.AdvanceExactUnlessClamped` says exactly when a single advance of the ledger would undercount
otherwise. Instants are integers with Go's zero time kept apart, int64 and uint64 are integers with the
checks written out, float64 is an exact real. Map iteration order is an arbitrary order chosen per call.

The priority queue is a state machine over the single steps of its callers, its worker and its closer: each
critical section, each channel operation and each context check is one step, and a run interleaves them in
any way.

JSON is a datatype of concrete syntax trees with the bytes each stands for. The scanner returns the tree it
recognises, which makes soundness, completeness and the meaning of the fan-out fields statements about one
object. The parser and the streaming rewriter are classes with the source's fields and loops.

The modules named `*Meaning` say what the step functions compute without using their helper functions: which
demands pass and what a refusal is called, what a snapshot and an observed state contain, which request is
dispatched, what a body asks for, which fields a call sets. Numbers and characters are written out there, so
that each constant, comparison and field of the step functions is stated twice and proved the same. Two of
them are stated for whole runs: `AdmissionMeaning.AdmissionDecided` decides every admission from the last
observation, the requests held and the samples logged, and `PublicationMeaning.DeltasAddUp` adds the reported
differences up to the counters.

Two facts about the source worth knowing, both stated as lemmas. Queue stamps are read before the lock, so
a request can be appended after a younger one; without stamps in append order there is no bound on how
often an expired request is overtaken (`PrioritySelection.LatecomersOvertake`), and
`PriorityTheorems.PassedOverFewTimes` gives the bound that holds always. And a prompt with more blocks than
the mirror's capacity evicts its own beginning, so it is charged in full when it comes again
(`PromptRecency.KeptFromTheEnd`).

## Model

| member | source | states |
|---|---|---|
| Machine.AddNonnegativeInt64 | internal/admission/numeric.go:5-10 | a sum is returned exactly when both operands are nonnegative and it fits int64 |
| Exposure.AddDurationExact | internal/admission/sequence_exposure.go:14-25 | the two-word product and sum are exact, and refused exactly when the true value leaves 128 bits |
| Exposure.SubtractExact | internal/admission/sequence_exposure.go:27-34 | the two-word difference is exact and refused exactly when it would be negative |
| Exposure.CompareExact | internal/admission/sequence_exposure.go:36-44 | the two-word comparison orders the true values |
| Exposure.SubtractSnapshotExact | internal/admission/sequence_exposure.go:56-70 | a snapshot difference exists exactly when both totals grew and response grew no more than forwarded, and is exact |
| Exposure.AdvanceIntegrates | internal/admission/sequence_exposure.go:146-171 | advancing keeps the ledger equal to the sum over all lifetimes of weight times elapsed time |
| Exposure.AdvanceExactUnlessClamped | internal/admission/sequence_exposure.go:146-171 | after a successful advance each of the two totals is exact if and only if the gap fits an int64 duration or nothing of its kind is active |
| Exposure.ForwardIntegrates | internal/admission/sequence_exposure.go:98-105 | forwarding opens a lifetime weighted by its sequences and the ledger stays the sum of lifetimes |
| Exposure.RespondIntegrates | internal/admission/sequence_exposure.go:107-115 | a first byte starts a response span of weight one and the ledger stays the sum of lifetimes |
| Exposure.RemoveIntegrates | internal/admission/sequence_exposure.go:117-126 | ending a request closes both its spans and the ledger stays the sum of lifetimes |
| Exposure.TotalsBounds | internal/admission/sequence_exposure.go:128-137 | exposure totals never fall with time, and response never exceeds forwarded, between any two moments |
| Exposure.SequenceExposureLedger.AdvanceTo | internal/admission/sequence_exposure.go:146-171 | the in-place advance, including both branches and the failure flag |
| Exposure.SequenceExposureLedger.BeginForwarded | internal/admission/sequence_exposure.go:98-105 | the in-place addition of forwarded sequences |
| Exposure.SequenceExposureLedger.BeginResponse | internal/admission/sequence_exposure.go:107-115 | the in-place addition of a responding request |
| Exposure.SequenceExposureLedger.End | internal/admission/sequence_exposure.go:117-126 | the in-place removal of an ended request |
| Exposure.SequenceExposureLedger.TakeSnapshot | internal/admission/sequence_exposure.go:128-137 | a snapshot advances the ledger and reads both totals, or refuses |
| Exposure.SequenceExposureLedger.Reset | internal/admission/sequence_exposure.go:139-144 | reset leaves the empty ledger |
| TpsWindow.ObserveOk | internal/admission/tps_window.go:173-288 | with nondecreasing sample ends an observation never fails and keeps every bucket in its slot and in range |
| TpsWindow.SegmentsOk | internal/admission/tps_window.go:237-285 | the segment loop never hits a bucket of another second: 61 slots suffice |
| TpsWindow.SegmentsShare | internal/admission/tps_window.go:237-285 | the segments add to the ring exactly the sample's share of the visible seconds, whatever `now` is asked later |
| TpsWindow.RingIsHistory | internal/admission/tps_window.go:173-404 | the ring's sums at any later time equal those of the unbounded log of samples clipped to visible seconds |
| TpsWindow.SnapshotIsHistory | internal/admission/tps_window.go:290-336 | the snapshot's tokens, seconds and sample counts are those of the unbounded log |
| TpsWindow.ObservedInFull | internal/admission/tps_window.go:173-288 | observing a qualified sample of at most 60 s adds to the ring, at its end, exactly its tokens, its seconds, its sequence seconds and one sample |
| TpsWindow.DisjointCovered | internal/admission/tps_window.go:346-391 | with disjoint sample intervals no bucket accounts for more than one second |
| TpsWindow.ActiveTimeBelow61 | internal/admission/tps_window.go:290-336 | with disjoint intervals the active time of a snapshot stays below 61 s |
| TpsMeaning.SnapshotExactly | internal/admission/tps_window.go:320-335 | the window mean times sequence seconds is the sequence tokens, the aggregate times active seconds the tokens; ready from 4 sequence samples and 8 sequence seconds on |
| TpsMeaning.VisibleExactly | internal/admission/tps_window.go:338-344 | a second counts while its last instant is at most 60 s old |
| TpsMeaning.QualifiedExactly | internal/admission/tps_window.go:181-202 | which samples count: instants in order and close enough, nothing negative, evidence of decoding |
| TpsMeaning.SequenceSecondsExactly | internal/admission/tps_window.go:212-226 | the sequence time is the largest of endpoint time and both local exposures, and of the liabilities where nothing was measured |
| TpsMeaning.LatestExactly | internal/admission/tps_window.go:227-241 | after an observation the latest sample shows its tokens over its seconds and over its sequence seconds, or nothing |
| TpsWindow.RollingWindow.ObserveSample | internal/admission/tps_window.go:173-288 | the in-place observation with its expiry and segment loops |
| TpsWindow.RollingWindow.AddSegment | internal/admission/tps_window.go:346-391 | the in-place addition of one segment to its bucket, or the collision failure |
| TpsWindow.RollingWindow.ExpireAt | internal/admission/tps_window.go:393-404 | the in-place expiry loop clears exactly the buckets outside the window |
| TpsWindow.RollingWindow.Read | internal/admission/tps_window.go:290-336 | the accumulating read of the ring with its early returns; its two rates and its readiness are those of the sums it returns |
| TpsWindow.RollingWindow.Reset | internal/admission/tps_window.go:162-168 | reset empties every bucket and the latest interval |
| Policy.PriorityAdmitsMore | internal/admission/policy.go:24-81 | what is admitted as default or flex is admitted as priority |
| Policy.SheddableWithinBounds | internal/admission/admission_bounds.go:15-53 | an admitted default or flex demand leaves window, running and waiting within their limits |
| Policy.ColdAdmittedAlone | internal/admission/tps_gate.go:90-116 | on a ready, qualified snapshot a cold prompt is admitted only when none is pending |
| PolicyMeaning.AdmittedExactly | internal/admission/policy.go:24-81 | admitted if and only if neither waiting, preemption nor the reference keeps the demand out for its tier and prompt, the figures are usable, and running and window sums fit |
| PolicyMeaning.OnlyScheduledPriorityBelowReference | internal/admission/tps_gate.go:101-137 | with both means below the reference exactly priority on a backend that schedules by tier passes |
| PolicyMeaning.WithinLimitsIsAdmitted | internal/admission/policy.go:24-81 | a default or flex demand within all limits is admitted on a healthy window without a pending cold prompt |
| PolicyMeaning.ReasonExactly | internal/admission/policy.go:31-80 | each reason and scope of a refusal if and only if what it names is the case, in the order the code looks |
| PolicyMeaning.ProjectionsExactly | internal/admission/policy.go:46-69 | the running and window sums an admission reports |
| PolicyMeaning.SubreasonExactly | internal/admission/tps_gate.go:52-138 | each TPS result and subreason if and only if what it names is the case |
| Reservations.OverlayBounds | internal/admission/reservation.go:111-116 | the sum of contributions is always a valid overlay |
| Reservations.InsertReservation | internal/admission/reservation.go:63-82 | adding a contribution gives the sum of the larger map, refused exactly when liabilities leave int64 |
| Reservations.DropReservation | internal/admission/reservation.go:84-101 | subtracting a held contribution never underflows and gives the sum of the smaller map |
| Reservations.ReplaceReservation | internal/admission/reservation.go:103-109 | replacing a contribution for another phase never fails and gives the sum of the changed map |
| ReservationMeaning.ContributionExactly | internal/admission/reservation.go:30-57 | which reservations count, and for what, phase by phase |
| ReservationMeaning.OverlayCounts | internal/admission/reservation.go:30-57 | in every run the overlay is the number of sequences unobserved and held, of live requests, debts, and cold prompts without a first byte |
| ReservationMeaning.TakenExactly | internal/admission/controller.go:317-358 | a reservation taken carries the demand, is reserved, and is cold exactly for a large or unknown prompt of a default or flex demand |
| ReservationMeaning.ForwardedExactly | internal/admission/controller.go:420-445 | forwarding changes phase, instant and sequence of the one request |
| ReservationMeaning.AnsweredExactly | internal/admission/controller.go:447-478 | a first byte changes phase and release of the one request |
| ReservationMeaning.EndedExactly | internal/admission/controller.go:480-528 | a request is gone if and only if it was reserved, or answered and successful; otherwise it is a debt |
| ReservationMeaning.SucceedsExactly | internal/admission/controller.go:126-528 | in every run forwarding, answering, ending and opening a window succeed exactly in the stated phases and epochs, with room on the counter |
| ReservationMeaning.ReconciledExactly | internal/admission/controller.go:700-736 | a debt goes if and only if its end is covered; sequences count as observed if and only if the lease is over by the stated instants; nothing else changes |
| ControllerEffects.ProjectionExists | internal/admission/projector.go:27-59 | on a sound state the projection always exists: no decision is refused as inconsistent |
| Reconciliation.LoopExact | internal/admission/controller.go:621-675 | after any part of the iteration the loop holds the exact overlay of the partly reconciled map |
| Reconciliation.OrderIrrelevant | internal/admission/controller.go:621-698 | for every iteration order reconciliation succeeds with the from-scratch overlay of the map that is left |
| ControllerEffects.AdmitEffect | internal/admission/controller.go:284-358 | on a sound state an admission takes a reservation, refuses unchanged, or closes for an exhausted resource, and nothing else |
| ControllerEffects.ForwardEffect | internal/admission/controller.go:420-445 | marking forwarded succeeds exactly when the handle addresses a reserved request and the counter has room |
| ControllerEffects.AnswerEffect | internal/admission/controller.go:447-478 | marking the first byte succeeds exactly when the request is forwarded and the counter has room |
| ControllerEffects.EndEffect | internal/admission/controller.go:480-528 | terminating succeeds exactly for a live request, a known cause and room on the counter, and leaves a debt or nothing |
| ControllerEffects.StartEffect | internal/admission/controller.go:126-153 | opening a sample window always succeeds on an open controller with room on the counter |
| PublicationEffects.ExposureGrows | internal/admission/sequence_exposure.go:56-70 | publishing a still valid window never fails the exposure subtraction, and it is exact |
| PublicationEffects.PublishEffect | internal/admission/controller.go:155-282 | a publication is refused, closes for drift or exhaustion, restarts the epoch, or takes the sample, exactly as stated |
| PublicationMeaning.AnswerExactly | internal/admission/controller.go:155-230 | a publication is accepted, and each refusal given, if and only if window, measurements, identity, order and counters say so |
| PublicationMeaning.ObservedExactly | internal/admission/controller.go:199-282 | the observed state is the observation with its differences to the last one, each from its own counter, and none after a restart |
| PublicationMeaning.DeltasAddUp | internal/admission/controller.go:214-221 | in every run the generation differences since the backend started add up to the tokens its counter grew by, and the preemption differences to the preemptions |
| PublicationMeaning.PublicationLogs | internal/admission/controller.go:246-262 | in every run an accepted publication of the current policy's window adds exactly one sample: the two instants, running counts, token difference, forwarded sequences and exposures |
| ControllerWindow.PublicationReasons | internal/admission/controller.go:155-282 | every publication says which of the five reasons decided it, with the epoch and sequence that follow |
| ControllerWindow.SampleEntersWindow | internal/admission/controller.go:246-262 | an accepted sample enters the TPS window exactly as observed, with its exact exposure and liabilities, or leaves it untouched |
| ControllerWindow.RunLogged | internal/admission/controller.go:155-282 | in every run the window is the ring over all samples since the last close, reset or new reference, which follow each other without overlap |
| ControllerWindow.RunSnapshotIsHistory | internal/admission/tps_window.go:290-336 | in every run a snapshot after the last observation reads the sums of those samples, with less than 61 s of active time |
| ControllerWindow.DecisionsSeeHistory | internal/admission/controller.go:530-549 | in every run a decision on a usable state is made on those sums |
| AdmissionMeaning.StateExactly | internal/admission/controller.go:530-549 | a decision's state is usable if and only if open, observed and fresh, and shows overlay, observation and window, each figure in its place |
| AdmissionMeaning.RunSnapshotReads | internal/admission/tps_window.go:290-336 | in every run a snapshot reads both rates and its readiness off the logged samples in the window, and its latest figures off the last sample |
| AdmissionMeaning.AdmissionDecided | internal/admission/controller.go:284-316 | in every run a demand is admitted if and only if it is good, the observation fresh, there is room for its tier, and the logged samples reach the reference as its tier and prompt require |
| AdmissionMeaning.AnsweredInFull | internal/admission/controller.go:284-358 | every admission is answered with a full record and the reason that applies, an exhausted resource in the order the code looks |
| ControllerTheorems.StepSound | internal/admission/controller.go:126-602 | every call keeps the invariant over books, ledger, windows, ring and counters |
| ControllerTheorems.RunSound | internal/admission/controller.go:126-602 | every state any run can reach satisfies the invariant |
| ControllerSafety.OverlayIsScan | internal/admission/controller.go:738-751 | in every run the incremental overlay equals the from-scratch sum of all contributions |
| ControllerSafety.WindowsAreExact | internal/admission/controller.go:126-153 | every open window froze exactly the time its epoch's requests had spent forwarded and responding |
| ControllerSafety.DeltasTelescope | internal/admission/controller.go:155-282 | the deltas of an epoch's accepted publications add up to exactly the last published snapshot |
| ControllerSafety.ClosesExactly | internal/admission/controller.go:420-602 | a call closes the controller if and only if a counter, the cap or the liability total is exhausted, identity drifted, or it is Close |
| ControllerSafety.OnceAndInOrder | internal/admission/controller.go:155-528 | each handle is forwarded, answered and terminated at most once and in order, ids are never reused, windows accepted at most once |
| ControllerBounds.EpochsOnlyGrow | internal/admission/controller.go:589-602 | epochs never fall and a closed controller stays closed for the same reason |
| ControllerBounds.OneUpdatePerRevision | internal/admission/policy_update.go:40-87 | in every run at most one of all policy updates expecting the same revision succeeds; the others change nothing and get the policy that stands |
| ConfigurationMeaning.ConfiguredExactly | internal/admission/controller.go:80-124 | which configurations are refused, and every field a new controller starts with |
| ConfigurationMeaning.UpdatedExactly | internal/admission/policy_update.go:40-127 | an update succeeds if and only if sensible, open and of the current revision; it sets exactly the figures given and starts a new window exactly for a new reference |
| ControllerBounds.OldHandlesFenced | internal/admission/controller.go:155-528 | after a reset or close every older handle and window is refused with the state unchanged |
| ControllerBounds.DebtReleasedExactly | internal/admission/controller.go:700-723 | within an epoch a residual debt leaves if and only if a window opened after its termination is published |
| ControllerLoad.SheddableLoadBounded | internal/admission/admission_bounds.go:15-53 | in every run unobserved default and flex sequences total at most the largest window concurrency ever set |
| ControllerLoad.SheddableAdmissionWithinLimit | internal/admission/admission_bounds.go:15-53 | each default or flex admission leaves running, waiting and unobserved within a positive running limit |
| ControllerLoad.OneColdPromptAtATime | internal/admission/tps_gate.go:90-116 | when cold requests were all admitted on qualified evidence, at most one ever waits for its first byte |
| ControllerLoad.LeaseKeepsColdSlot | internal/admission/controller.go:700-723 | reconciliation with its expiring leases never gives the cold slot back |
| ControllerLoad.AvailableMeansAdmitted | internal/admission/controller.go:384-399 | if the snapshot is available, every valid one-sequence demand is admitted unless a resource is exhausted |
| ControllerBooks.AdmitKeepsBooks | internal/admission/controller.go:284-358 | whatever the clock, on sound books an admission refuses, closes for an exhausted resource or takes one reservation, and the overlay stays the sum |
| ControllerBooks.EndKeepsBooks | internal/admission/controller.go:480-528 | whatever the clock and the ledger, ending a request leaves the overlay equal to the sum of what is held |
| ControllerBooks.PublishKeepsBooks | internal/admission/controller.go:155-282 | whatever window is shown and in whatever order the map is visited, a publication leaves the overlay equal to the sum of what is held |
| AdmissionControllerObject.AdmissionController.New | internal/admission/controller.go:80-124 | a controller in its initial state with defaults filled in, or nothing for an invalid configuration |
| AdmissionControllerObject.AdmissionController.FailClosed | internal/admission/controller.go:589-602 | closes once, moves the epoch on and clears books, ledger and window |
| AdmissionControllerObject.AdmissionController.NextEventSequence | internal/admission/controller.go:580-587 | the next event number, or closing at the end of uint64 |
| AdmissionControllerObject.AdmissionController.StartSampleWindow | internal/admission/controller.go:126-153 | the step function of opening a sample window; the books stay sound |
| AdmissionControllerObject.AdmissionController.Admit | internal/admission/controller.go:284-316 | the step function of an admission up to the policy's decision: refused, closed, or one reservation taken, and the books stay sound |
| AdmissionControllerObject.AdmissionController.Reserve | internal/admission/controller.go:317-358 | the step function of taking a reservation, with each exhausted resource closing in turn |
| AdmissionControllerObject.AdmissionController.MarkForwarded | internal/admission/controller.go:420-445 | the step function of marking a request forwarded; the books stay sound |
| AdmissionControllerObject.AdmissionController.BeginForwarded | internal/admission/controller.go:430-444 | the part past the refusals: event number, ledger, phase, each failure closing |
| AdmissionControllerObject.AdmissionController.MarkFirstByte | internal/admission/controller.go:447-478 | the step function of marking a first byte; the books stay sound |
| AdmissionControllerObject.AdmissionController.BeginResponse | internal/admission/controller.go:458-477 | the part past the refusals: overlay, event number, ledger, phase, each failure closing |
| AdmissionControllerObject.AdmissionController.Terminate | internal/admission/controller.go:480-528 | the step function of ending a request; the books stay sound |
| AdmissionControllerObject.AdmissionController.EndReservation | internal/admission/controller.go:490-528 | the part past the refusals: overlay, event number, ledger, then deletion or a debt, each failure closing |
| AdmissionControllerObject.AdmissionController.ReconciledOverlay | internal/admission/controller.go:621-675 | the overlay loop returns what the fold over the order it took returns; with sound books that is the from-scratch overlay |
| AdmissionControllerObject.AdmissionController.ApplyReconciliation | internal/admission/controller.go:677-698 | deleting and rewriting entries while iterating leaves exactly the reconciled map, in whatever order |
| AdmissionControllerObject.AdmissionController.PublishObservation | internal/admission/controller.go:155-282 | the step function of a publication, for the iteration order it happened to take; the books stay sound |
| AdmissionControllerObject.AdmissionController.PublishReset | internal/admission/controller.go:201-213 | the step function of a runtime reset |
| AdmissionControllerObject.AdmissionController.PublishSample | internal/admission/controller.go:214-273 | the step function of an ordinary sample |
| AdmissionControllerObject.AdmissionController.UpdatePolicy | internal/admission/policy_update.go:40-87 | the compare-and-set of the policy with both snapshots, replacing the window only when the reference changed |
| AdmissionControllerObject.AdmissionController.Close | internal/admission/controller.go:411-418 | closing is failing closed with the closed reason |
| AdmissionControllerObject.AdmissionController.SlowOverlay | internal/admission/controller.go:738-751 | the slow scan never refuses and returns the very overlay the controller holds |
| PrioritySelection.ChooseIndex | internal/app/server/priority_admission.go:278-314 | the three scans return the first request of one dispatch order, which is the oldest expired, else the oldest aged default or flex, else the oldest of the highest tier queued |
| PrioritySelection.FirstIsRight | internal/app/server/priority_admission.go:278-314 | the first in dispatch order in plain terms of instants and tiers, priority before default before flex |
| PrioritySelection.FirstIsUnique | internal/app/server/priority_admission.go:278-314 | no queue has two first requests |
| PrioritySelection.ExpiredGoesNext | internal/app/server/priority_admission.go:278-290 | an expired request is next if and only if no queued request is older |
| PrioritySelection.OnlyOlderOvertakes | internal/app/server/priority_admission.go:279-305 | only an older request goes before one that is expired, or aged and sheddable |
| PrioritySelection.OvertakingBound | internal/app/server/priority_admission.go:252-314 | in every run of the queue overtakings are at most the older requests queued plus those appended late with an older stamp |
| PrioritySelection.OvertakenFewTimes | internal/app/server/priority_admission.go:252-314 | with stamps in append order that is at most maxEntries - 1 |
| PrioritySelection.LatecomersOvertake | internal/app/server/priority_admission.go:124-140 | without that order there is no bound: for every n an expired request is overtaken n times |
| PriorityQueue.Queue.Enter | internal/app/server/priority_admission.go:130-144 | the locked part of Decide: refused closed, refused full, or appended with the next id |
| PriorityQueue.Queue.Next | internal/app/server/priority_admission.go:252-276 | the worker sees closed, idle, a positive wait until the oldest has coalesced, or takes the right request out |
| PriorityQueue.Queue.SetClosed | internal/app/server/priority_admission.go:199-201 | the closed flag is set |
| PriorityQueue.Queue.TakeAll | internal/app/server/priority_admission.go:340-343 | the drain takes the whole queue and leaves it empty |
| PriorityProtocol.AccountedStep | internal/app/server/priority_admission.go:109-347 | every step keeps each appended request in exactly one place: queue, worker's hands, or answered |
| PriorityProtocol.ClosingStep | internal/app/server/priority_admission.go:194-250 | every step keeps the order flag, channel, wake, drain, and an emptied queue after the drain |
| PriorityProtocol.WakeStep | internal/app/server/priority_admission.go:212-250 | every step keeps: parked without a timer over a nonempty queue means a wake token or a caller about to signal |
| PriorityTheorems.ReservationsStep | internal/app/server/priority_admission.go:316-337 | every step keeps each live reservation owned by the worker holding its grant or the caller it was sent to |
| PriorityTheorems.RunSound | internal/app/server/priority_admission.go:109-347 | every interleaving keeps all of these |
| PriorityTheorems.ExactlyOneResult | internal/app/server/priority_admission.go:109-152 | no caller is sent two results; one that was queued gets the single one sent to it |
| PriorityTheorems.RepliesOwnReservations | internal/app/server/priority_admission.go:316-337 | a reply other than a grant leaves no live reservation: one won by a cancelled request is terminated before the reply |
| PriorityTheorems.NothingAfterDrain | internal/app/server/priority_admission.go:339-347 | once the drain has taken the queue nothing is ever appended to it |
| PriorityTheorems.NothingLeftWaiting | internal/app/server/priority_admission.go:212-250 | whenever nothing can move by itself every caller has its result: no lost wakeup and no deadlock |
| PriorityTheorems.ClosingEnds | internal/app/server/priority_admission.go:194-250 | a closed service takes a bounded number of steps until it is quiescent |
| PriorityTheorems.PassedOverFewTimes | internal/app/server/priority_admission.go:252-314 | in every interleaving a due request is passed over at most maxEntries - 1 times plus late appends with older stamps |
| PriorityTheorems.PassedOverInOrder | internal/app/server/priority_admission.go:252-314 | with stamps in append order at most maxEntries - 1 times |
| PriorityProgress.ExpiredIsReady | internal/app/server/priority_admission.go:252-276 | over a request past its deadline the worker never waits for coalescing |
| PriorityProgress.DueProgress | internal/app/server/priority_admission.go:212-337 | in every interleaving of an open service a due request is answered or has at most one round of the worker left per queued or late older request |
| PriorityProgress.DueIsAnswered | internal/app/server/priority_admission.go:212-337 | so it is sent exactly one result within 6 * (maxEntries + 1 + late appends) steps of the worker |
| PriorityProgress.WorkerCanStep | internal/app/server/priority_admission.go:212-276 | over a nonempty queue the worker always has a step of its own unless a caller is about to wake it |
| PriorityMeaning.DefaultedExactly | internal/app/server/priority_admission.go:73-91 | missing settings are 64 requests, 2 ms and 50 ms, the wait no shorter than the delay |
| PriorityMeaning.ReadyExactly | internal/app/server/priority_admission.go:262-269 | dispatching starts if and only if some request has waited for the delay |
| PriorityMeaning.DispatchesRight | internal/app/server/priority_admission.go:252-276 | an open service hands over the right request and keeps the others in order |
| PriorityMeaning.ChecksExactly | internal/app/server/priority_admission.go:316-324 | a cancelled request and one that has waited for maxWait are answered without asking |
| PriorityMeaning.AnswersExactly | internal/app/server/priority_admission.go:325-337 | what the delegate's answer becomes, and what becomes of a reservation it made |
| PriorityMeaning.EntersExactly | internal/app/server/priority_admission.go:130-144 | a request is turned away closed, turned away full, or appended with its stamp and tier |
| PriorityMeaning.RepliesAreTrue | internal/app/server/priority_admission.go:109-347 | in every interleaving cancelled and closed are only said when they are so, and a result out of the queue never says it was full |
| PriorityMeaning.RequestsAreCalls | internal/app/server/priority_admission.go:124-144 | in every interleaving each request queued or in the worker's hands carries the tier and the clock its caller came with |
| PriorityMeaning.CancellationsStay | internal/app/server/priority_admission.go:117-122 | in every interleaving exactly the contexts cancelled so far count as cancelled |
| PriorityMeaning.WakesArePaid | internal/app/server/priority_admission.go:212-250 | in every interleaving the worker is woken at most once per signal |
| PriorityMeaning.DrainsExactly | internal/app/server/priority_admission.go:219-250 | a parked worker that sees the close drains, taking the whole queue and answering in its order |
| JsonSound.ValueSound | internal/domain/request/tps_shape.go:392-560 | whatever the value scan consumes is the text of a grammatical value nested no deeper than allowed |
| JsonComplete.ValueComplete | internal/domain/request/tps_shape.go:392-560 | every grammatical value before a boundary is consumed whole with its own tree, or reported as too deep |
| JsonComplete.StringComplete | internal/domain/request/tps_shape.go:476-520 | every grammatical string is scanned to its own closing quote |
| JsonComplete.NumberComplete | internal/domain/request/tps_shape.go:522-560 | every grammatical number before a boundary is scanned to its end |
| JsonComplete.DocumentScanned | internal/domain/request/tps_shape.go:45-57 | a well-formed object with space around it is scanned back to its own tree, or reported as nested too deep |
| JsonComplete.AcceptsExactly | internal/domain/request/tps_shape.go:45-57 | a body is accepted if and only if it is a grammatical object nested at most 128 deep, and its tree is unique |
| JsonShapeParserObject.JsonShapeParser.ParseValue | internal/domain/request/tps_shape.go:392-414 | advances, fails or trips the depth limit exactly as the value scan, with the depth restored |
| JsonShapeParserObject.JsonShapeParser.ParseObject | internal/domain/request/tps_shape.go:416-446 | the same for objects |
| JsonShapeParserObject.JsonShapeParser.ParseArray | internal/domain/request/tps_shape.go:448-474 | the same for arrays |
| JsonShapeParserObject.JsonShapeParser.ParseString | internal/domain/request/tps_shape.go:476-520 | stops after the closing quote of a grammatical string, returning its characters and whether any is escaped |
| JsonShapeParserObject.JsonShapeParser.ParseNumber | internal/domain/request/tps_shape.go:522-560 | advances exactly as the number scan |
| JsonShapeParserObject.JsonShapeParser.ConsumeLiteral | internal/domain/request/tps_shape.go:594-605 | advances past a literal exactly when it stands there |
| JsonShapeParserObject.JsonShapeParser.Enter | internal/domain/request/tps_shape.go:562-572 | refuses at the depth limit and remembers it, refuses without the opening byte, otherwise steps inside |
| JsonShapeParserObject.JsonShapeParser.ParseTokenArray | internal/domain/request/tps_shape.go:253-284 | consumes exactly what the generic array scan does, and says whether all items are tokens |
| JsonShapeParserObject.JsonShapeParser.ParsePromptElement | internal/domain/request/tps_shape.go:226-251 | consumes exactly what the generic value scan does, and says of which kind the element is |
| JsonShapeParserObject.JsonShapeParser.ParseCompletionPrompt | internal/domain/request/tps_shape.go:163-224 | consumes exactly what the generic value scan does, and counts the prompts of an understood prompt value |
| JsonShapeParserObject.JsonShapeParser.ParseRootObject | internal/domain/request/tps_shape.go:59-134 | consumes exactly what the generic object scan does, and returns the shape its members add up to |
| JsonShapeParserObject.JsonShapeParser.UpdatePositiveFanout | internal/domain/request/tps_shape.go:286-302 | notes a fan-out value: refused unless positive and the same as before |
| JsonShapeParserObject.JsonShapeParser.UpdateOptionalPositiveFanout | internal/domain/request/tps_shape.go:304-324 | the same with null allowed, but not mixed with numbers |
| JsonShapeParserObject.ParseTPSRequestShape | internal/domain/request/tps_shape.go:45-57 | recognises exactly the grammatical objects nested at most 128 deep, with the shape their members ask for; deeper grammatical ones give the scan limit |
| TpsShape.ParseNonnegativeInt64 | internal/domain/request/tps_shape.go:364-380 | the value of a nonempty run of digits that fits an int64, and nothing else |
| TpsShape.ParsePositive | internal/domain/request/tps_shape.go:326-362 | a positive int64, bare or as spaced digits in a string, escapes decoded |
| TpsShape.SpanEquals | internal/domain/request/tps_shape.go:607-620 | a key equals a name exactly when its decoded characters spell it |
| TpsShape.EscapedEquals | internal/domain/request/tps_shape.go:622-633 | the escaped comparison decides whether the decoded characters spell the name |
| TpsFanout.FoldNMeaning | internal/domain/request/tps_shape.go:286-302 | n is understood if and only if all its values are the same positive integer |
| TpsFanout.FoldBestOfMeaning | internal/domain/request/tps_shape.go:304-324 | best_of is understood if and only if all its values are null or all the same positive integer |
| TpsFanout.FoldStreamMeaning | internal/domain/request/tps_shape.go:106-117 | stream is known if and only if it is present and all its values are the same boolean |
| TpsFanout.ShapeMeaning | internal/domain/request/tps_shape.go:136-157 | a request is supported if and only if its fields are understood and prompts times the larger of n and best_of fits int64; it then asks for that product |
| FanoutMeaning.PromptsExactly | internal/domain/request/tps_shape.go:163-251 | how many prompts a value holds: a string, a token list, or a list of strings or token lists |
| FanoutMeaning.ShapeExactly | internal/domain/request/tps_shape.go:59-161 | supported if and only if n (chat completions and completions), best_of and prompt (completions) each say one number and the product fits int64; stream likewise |
| FanoutMeaning.Alphabet | internal/domain/request/tps_shape.go:45-134 | every byte, literal and member name the parser looks for, as characters |
| FanoutMeaning.ByteClasses | internal/domain/request/tps_shape.go:695-733 | space, digit, hex and escape bytes, as characters |
| FanoutMeaning.HexExactly | internal/domain/request/tps_shape.go:711-722 | a hex digit is worth its place among the sixteen |
| FanoutMeaning.ShortEscapesExactly | internal/domain/request/tps_shape.go:635-660 | what the eight two-character escapes stand for |
| FanoutMeaning.LongEscapeExactly | internal/domain/request/tps_shape.go:662-678 | an escape by number is its character if that is ASCII |
| FanoutMeaning.PlainExactly | internal/domain/request/tps_shape.go:635-644 | any other ASCII character stands for itself |
| SchedulingPriority.DeletionRestores | internal/app/request/scheduling_priority.go:115-156 | for any bytes at most one run is inserted, so deleting it restores the input |
| SchedulingPriority.StreamedDocument | internal/app/request/scheduling_priority.go:115-156 | on a well-formed object the streaming rewriter inserts the member right before the root's closing brace |
| SchedulingPriority.BufferedDocument | internal/app/request/scheduling_priority.go:34-52 | on a well-formed object the buffered rewriter inserts it there too |
| SchedulingPriority.RewritersAgree | internal/app/request/scheduling_priority.go:34-156 | on every well-formed object both write the same bytes: the same object with priority as its last member |
| RewriteMeaning.MemberExactly | internal/app/request/scheduling_priority.go:43 | the member is "priority": and the number in decimal |
| RewriteMeaning.SpaceExactly | internal/app/request/scheduling_priority.go:35-44 | white space is what UTF-8 encodes one of the Unicode white space characters |
| RewriteMeaning.BufferedExactly | internal/app/request/scheduling_priority.go:34-51 | on any bytes, whether the buffered rewriter writes, where, and whether after a comma |
| SchedulingPriorityBodyObject.SchedulingPriorityBody.Transform | internal/app/request/scheduling_priority.go:115-156 | one byte moves the rewriter's fields and may append the member to the pending bytes |
| SchedulingPriorityBodyObject.SchedulingPriorityBody.Read | internal/app/request/scheduling_priority.go:90-113 | for every split of the source and every read size, what is delivered is a prefix of the rewritten input, all of it when the error is returned |
| PromptRecency.FingerprintPrompt | internal/app/request/prompt_fingerprint.go:38-58 | block k hashes the context and the body through the end of block k, the last block ending with the body |
| PromptRecency.FingerprintsExactly | internal/app/request/prompt_fingerprint.go:41-57 | a block ends every 1024 bytes and at the end, and hashes what precedes its end |
| PromptRecency.KnownHashes | internal/app/request/prompt_fingerprint.go:42-50 | the hash is 64-bit FNV-1a, by its published values |
| PromptRecency.MatchedExactly | internal/app/server/prompt_cost.go:124-130 | matched blocks are the longest leading run that is held |
| PromptMirrorObject.CapacityExactly | internal/app/server/prompt_cost.go:109-115 | the capacity is the blocks of 1024 bytes its tokens stand for, rounded down |
| PromptRecency.SharedPrefix | internal/app/request/prompt_fingerprint.go:11-17 | bodies of one context that agree on n full blocks have the same first n hashes |
| PromptRecency.TouchedStep | internal/app/server/prompt_cost.go:158-165 | a list that starts the recency order of all touches still does after another touch |
| PromptRecency.WarmAfterRecording | internal/app/server/prompt_cost.go:118-172 | right after recording a prompt within capacity, a body sharing its first n full blocks is charged at most its bytes past them |
| PromptRecency.KeptFromTheEnd | internal/app/server/prompt_cost.go:148-172 | of a prompt with distinct blocks exactly the last `capacity` stay, so one that does not fit is charged in full again |
| PromptMirrorObject.PromptMirror.Admitted | internal/app/server/prompt_cost.go:148-172 | touches every block in turn, then evicts down to capacity; index and list keep the same distinct blocks, inserted minus evicted |
| PromptMirrorObject.PromptMirror.Touch | internal/app/server/prompt_cost.go:158-165 | a known block moves to the front, a new one is pushed there; the list stays the front of the recency order of all touches |
| PromptMirrorObject.PromptMirror.Evict | internal/app/server/prompt_cost.go:166-171 | drops the oldest block from list and index |
| PromptMirrorObject.PromptMirror.Estimate | internal/app/server/prompt_cost.go:118-144 | charges the bytes past the longest leading run of held blocks, scaled by the two ratios, without changing the mirror |

## Left out

- Float rounding, NaN and infinity: float64 values are exact reals, so the finiteness guards of `internal/admission/tps_window.go` are not modelled.
- Learned ratios of the prompt mirror: `bytesPerToken` and `correction` are arbitrary values within their clamps; `Learn` and its counters are not modelled.
- Wrap-around of the statistics counters (matched, considered, inserted and evicted blocks; queue counters): they are natural numbers or absent.
- AdmissionControllerObject.AdmissionController.Admit: the controller's fields are one record value updated field by field, and the ledger and the ring embedded in it are values there; both are also given as objects of their own.
- `encoding/json`: the context bytes of a fingerprint are an input; decoding of usage, server info and policy requests is not modelled.
- TpsWindow.RollingWindow.ObserveSample: the denominator evidence of `internal/admission/tps_window.go:54-145` it also records is not modelled; it is a statistic that feeds no decision.
- TpsWindow.RollingWindow.Read: the denominator evidence in the snapshot is not modelled either.
- AdmissionControllerObject.AdmissionController.PublishObservation: the window-concurrency histogram it also updates is not modelled; it is a statistic that feeds no decision.
- AdmissionControllerObject.AdmissionController.PublishSample: the conversion of exposure to seconds is an exact real and cannot fail as the float conversion could.
- PublicationEffects.PublishEffect: leaves the new TPS window and the reason open and names the source's own branches; `ControllerWindow.SampleEntersWindow`, `PublicationMeaning.AnswerExactly`, `PublicationMeaning.ObservedExactly` and `PublicationMeaning.PublicationLogs` state them in plain terms.
- PromptMirrorObject.PromptMirror.Estimate: rounding to whole tokens and the per-tier counters are not modelled.
- Evidence records, metrics writers and reporter throttling.
- HTTP: request paths, content types, headers, `ContentLength`, partially consumed bodies, the buffer pool of the classifier and its byte budget.
- Prometheus parsing, backend adapters, polling, readiness and startup probing.
- Attestation, NVML, signing and TLS.
- Fairness of the scheduler: progress of the priority queue is counted in steps of its parts; nothing is said about how soon a step is taken.
- PriorityQueue.Queue.Next: the timer's duration is part of the result; that it elapses is a step of the protocol, not a measured time.
- Nil receivers and nil arguments, which the source answers with constants.
- Python tools and the simulation suite.
