# Interactive node controller: a verified model

The controller keeps latency-sensitive work off Kubernetes nodes that are also somebody's desktop. A
reporter on the host samples whether the machine is used for a game, interactively, or not at all,
and writes what it sees to a NodeActivity object. The controller turns that report, an availability
hold and scheduled windows into a taint and a label on the Node, and may evict Pods that agreed to
be moved, within strict budgets. This project models that logic and proves what operators rely on:

- **Budgets** (`TokenBuckets`, `BucketLaws`, `EvictionBudgets`, `BudgetRuns`, `BudgetTheorems`,
  `BudgetClasses`, `RefillComposition`, `RateExactness`): continuously refilled buckets per node and per process. Rate
  bounds hold in every window of every run, refusal waits are exact, node grants add up to global ones.
- **Windows and decisions** (`Windows`, `WindowLaws`, `WindowSuccess`, `WindowSpacing`,
  `WindowEvaluation`, `PolicyDecisions`, `DecisionLaws`, `DecisionMeanings`, `RequeueTiming`, `Surprises`, `TransitionGaps`):
  the window scan against its meaning over unbounded occurrences, when it answers at all, and one
  enrollment's taint, which holds until the requeue it asks for.
- **Aggregation** (`Protection`, `ProtectionLaws`, `RequeueLaws`, `NodeChanges`): the strongest live
  enrollment wins in any list order; exactly when a node's taint and admission change before the
  requeue, or before the transition that status reports; and how long the fields just written stay right.
- **Ownership** (`NodeOwnership`, `OwnershipLaws`, `DriftHealing`, `NodeWrites`, `OwnershipRuns`): two taint keys and one
  label, nothing else, over whole runs, healed after drift, and exactly when they are gone in the end.
- **Eviction** (`EvictionMatrix`, `PodGate`, `EvictionRetries`, `EvictionPasses`, `PassLaws`,
  `PassRuns`, `PassWaits`, `PassFates`, `Reconciles`): the eviction matrix, the Pod gates, the pass with its books, retries and
  request rate over runs of passes on any nodes, and the end-to-end conditions of a request.
- **Reporter and metrics** (`Signals`, `Debounce`, `DebounceLaws`, `ReportLaws`, `Metrics`): the
  debouncer as a function of its whole history, report generations, and metric series against records.

Objects that the program updates in place are classes whose methods are proved against a function on
values; the laws are proved about those functions. Time is an integer number of nanoseconds and zero
is the unset time. Every call under a mutex is one step. What the program reads from outside, such as
lists, clock readings, API answers, the cron schedule and the hash behind the retry jitter, is a
parameter and arbitrary, except that a schedule's next occurrence is the least one after an instant.

Where the code and its documentation differ, the model follows the code:

- `docs/controller.md:165` and the stale row of its eviction matrix say that a reported `state=stale`
  still evicts under a heartbeat that is too far ahead. In `internal/controller/eviction.go:289-294` a
  future heartbeat never evicts.
- The documented rate of count evictions per interval is exceeded where count does not divide interval
  and the burst is more than one (`RateExactness`). The bound that always holds prices a token at
  interval/count rounded down.
- `nextTransition` is documented (`docs/controller.md:120`) as the next clock boundary that can change the
  policy of the node. It is the transition of the winning enrollment only, so another live enrollment
  can change the policy before it (`NodeChanges.OlderHeartbeatOvertakes`). The winner's own transition is
  missed in two cases: an active report with an unsupported activity has none, although a window can
  replace its taint (`TransitionGaps`), and windows that had no answer can have one later.
- A schedule whose windows overlap more than 4096 times has no answer at some instants and one at others.
  What it does in between is not foreseen by the requeue (`Surprises`).
- The finalizer is to clean a node up. An enrollment that is deleted before its first reconcile has none
  yet, one whose finalizer is patched away has none left, and one whose spec.nodeName is edited leaves
  without it. Each can leave a fenced node behind that no enrollment names (`OwnershipRuns`).
- The matrix row of a scheduled game window gives lossy eviction only under a burst fence. For an
  active report that is not a game, and for an idle state with interactive activity, the code allows
  it without one.

## Model

| member | source | states |
|---|---|---|
| `Int64Words.MulDivFloorIsExact` | internal/controller/eviction_budget.go:243-256 | the high and low words compute min(MaxInt64, floor(a*b/div)), and 0 for a non-positive argument |
| `Int64Words.QuotientFitsOneWord` | internal/controller/eviction_budget.go:247-251 | where the two-word divide is reached its quotient fits one word, so the machine operation never panics |
| `BucketLaws.TokensEarnedIsExact` | internal/controller/eviction_budget.go:218-241 | earned tokens are min(limit, floor(elapsed*count/interval)), although they are computed in two parts |
| `BucketLaws.RefillIsExact` | internal/controller/eviction_budget.go:162-198 | closed form of a refill; no saturation below capacity, the consumed time is never negative or more than elapsed (the guard for that is dead), no nanosecond is lost |
| `BucketLaws.PriceWithinElapsed` | internal/controller/eviction_budget.go:190-196 | paying for the tokens earned never takes more time than elapsed |
| `BucketLaws.WholeIntervalsFitInt64` | internal/controller/eviction_budget.go:222-229 | the whole-interval product stays inside int64 for every usable allowance |
| `BucketLaws.WaitFitsInt64` | internal/controller/eviction_budget.go:200-214 | the products in the wait stay inside int64 in every reachable state |
| `BucketLaws.RefillKeepsSteady` | internal/controller/eviction_budget.go:162-198 | every reachable bucket holds 0 <= tokens <= capacity and residue*count <= interval+count-2, and a full one has no residue |
| `BucketLaws.ConfigureInstallsAllowance` | internal/controller/eviction_budget.go:136-160 | configuring clamps tokens to a lower capacity, starts a new bucket full, and keeps residue and clock |
| `BucketLaws.EmptyRefillKeepsProgress` | internal/controller/eviction_budget.go:176-186 | a refill that earns nothing into an empty bucket keeps all the elapsed time |
| `BucketLaws.EarlierRefillKeepsWait` | internal/controller/eviction_budget.go:162-216 | an extra refill in between neither brings the next token forward nor delays it |
| `BucketLaws.WaitIsExact` | internal/controller/eviction_budget.go:200-214 | a bucket has a token at t exactly if t is at least its last refill plus the wait |
| `BucketLaws.WaitIsEnoughIffClockCaughtUp` | internal/controller/eviction_budget.go:200-214 | the wait is enough from now exactly if now is not before the last refill |
| `BucketLaws.BackwardClockGainsNothing` | internal/controller/eviction_budget.go:162-172 | a clock that runs back earns nothing, neither then nor when it has caught up |
| `BucketLaws.NothingConfiguredIsOneAMinute` | internal/controller/eviction_budget.go:136-145 | a count, burst or interval that is not positive works exactly as one, one and a minute |
| `RefillComposition.RefillsAtAnyInstantsCompose` | internal/controller/eviction_budget.go:162-198 | where rounding fits, refilling at any sequence of instants gives the bucket of one refill at the last, capacity hits included |
| `RefillComposition.RefillsComposeIffRoundingFits` | internal/controller/eviction_budget.go:162-198 | refills compose for every bucket exactly if (interval mod count)*capacity <= count; with more than a token per nanosecond, exactly if interval divides count or two nanoseconds fill the bucket |
| `RefillComposition.ExtraRefillsCostNothing` | internal/controller/eviction_budget.go:162-198 | whatever the allowance, refilling at any instants in between never leaves fewer tokens than one refill at the last |
| `TokenBuckets.TokenBucket.Configure` | internal/controller/eviction_budget.go:136-160 | the in-place update has the effect of the function Configured |
| `TokenBuckets.TokenBucket.Refill` | internal/controller/eviction_budget.go:162-198 | the in-place update has the effect of the function Refilled |
| `EvictionPolicies.NormalizedIsUsable` | internal/controller/eviction.go:112-137 | normalizing makes every budget positive, keeps explicit fields, inherits the rest, caps jitter at the backoff, and is idempotent |
| `EvictionPolicies.SettingsAreInherited` | internal/controller/eviction.go:112-137 | each setting of each class is the explicit one, or else inherits: perNode from maxPerReconcile or 1, global from perNode, bursts from their counts, the interval from budgetInterval or a minute; the backoff defaults to 30 seconds and caps the jitter; everything else is kept |
| `EvictionBudgets.ClassBuckets.NodeBucket` | internal/controller/eviction_budget.go:95-109 | the first use of a node makes a new bucket for it, and nothing else changes |
| `EvictionBudgets.ClassBuckets.TryTake` | internal/controller/eviction_budget.go:65-93 | two refills and both spends or neither, on separate objects, are the function TakeFrom |
| `EvictionBudgets.EvictionBudgets.TryTake` | internal/controller/eviction_budget.go:65-93 | the shared object of both classes changes as the function Take says; a standard call takes from the standard buckets by standardBudget and leaves the lossy ones alone, and the other way round |
| `BudgetClasses.CallUsesItsClass` | internal/controller/eviction_budget.go:65-109 | a call puts its node's and its global bucket under the counts, bursts and interval of its own class, and changes no other bucket of either class |
| `BudgetClasses.BurstIsExact` | internal/controller/eviction_budget.go:65-93 | from process start, k calls of a class for one node at one instant are granted exactly up to the smaller of its two bursts |
| `BudgetRuns.StepSpendsBothScopes` | internal/controller/eviction_budget.go:65-93 | a call spends one token in each of its two scopes or in none, only where both have one, and nothing elsewhere |
| `BudgetRuns.GrantsArePaid` | internal/controller/eviction_budget.go:65-93 | over any run, grants are paid for by the credit at its start and the time it lasts |
| `BudgetRuns.RateSinceCreation` | internal/controller/eviction_budget.go:65-93 | from the first use of a bucket, grants*q <= burst*q + elapsed with q = interval/count rounded down |
| `BudgetTheorems.RateInEveryWindow` | internal/controller/eviction_budget.go:65-93 | the same bound in every window of every run, for every node bucket and both global ones, although a window can open on a bucket that stores a token time and more |
| `BudgetTheorems.DocumentedRateInEveryWindow` | internal/controller/eviction_budget.go:65-93 | where count divides interval, grants*interval <= burst*interval + elapsed*count in every window |
| `BudgetClasses.ClassRateInEveryWindow` | internal/controller/eviction_budget.go:65-93 | the bounds per class, in the fields of its own budget: of each node by perNode and burstPerNode, of all of them by global and burstGlobal |
| `BudgetClasses.DefaultRequestRate` | internal/controller/eviction.go:112-137 | with nothing configured, a class sends one eviction request at once and then one a minute, over all nodes, in every window of passes |
| `RateExactness.ExactPricesKeepRate` | internal/controller/eviction_budget.go:186-196 | where rounding is free for an allowance, no run exceeds the documented count per interval |
| `RateExactness.GlobalRateIsKeptIffPricesAreExact` | internal/controller/eviction_budget.go:186-196 | over all nodes the documented rate holds for all runs exactly if rounding is free for the global allowance, whatever a node is allowed; otherwise a run is constructed that exceeds it |
| `RateExactness.NodeRateIsKeptIffPricesAreExact` | internal/controller/eviction_budget.go:186-196 | the same for one node, under a global count and burst at least as large |
| `RateExactness.TightGlobalKeepsNodeRate` | internal/controller/eviction_budget.go:65-93 | under a global count and burst no larger than its own, a node keeps the documented rate wherever rounding is free for the global allowance |
| `BudgetTheorems.NodeGrantsAddUpToGlobal` | internal/controller/eviction_budget.go:65-93 | grants of a class over all its nodes add up to the grants of its global bucket |
| `BudgetTheorems.RefusalWaitIsExact` | internal/controller/eviction_budget.go:78-89 | after a refusal with wait w, whatever refused calls come in between from any node, a repeat is granted at t exactly if t >= now + w |
| `Windows.ScanWindow` | internal/controller/windows.go:129-174 | the scan loop computes the function ScanOf, errors included |
| `Windows.EvaluateWindows` | internal/controller/windows.go:98-127 | the loop over windows computes the function Evaluate, errors included |
| `Windows.NextActivation` | internal/controller/windows.go:176-185 | an activation that is returned lies after the instant asked for |
| `WindowSuccess.ScanSucceedsIff` | internal/controller/windows.go:129-174 | a scan answers exactly if Next finds something at every cursor, at most 4096 starts lie in the duration up to now, and Next finds something after the lead; each error says which part is missing |
| `WindowSuccess.ScanIsExact` | internal/controller/windows.go:129-174 | and then it returns its earliest-ending open occurrence if any, the next start, and the least boundary after now, over unbounded occurrences |
| `WindowSpacing.SpacedWindowAnswers` | internal/controller/windows.go:141-153 | a window whose starts lie at least a 4096th of its duration apart answers at every instant |
| `WindowSpacing.PeriodicScheduleAnswersIff` | internal/controller/windows.go:141-153 | a periodic window answers always exactly if it lasts at most 4096 periods, and never exactly if it lasts 4097 or more; in between it stops and starts again |
| `WindowLaws.ScanIsStable` | internal/controller/windows.go:129-174 | the scan is the same at every instant before its boundary |
| `WindowEvaluation.EvaluationIsMeant` | internal/controller/windows.go:98-127 | the evaluation answers exactly if every window does, and then returns the strongest open window (game over interactive over idle-allowed, then the earliest end), the next start, and a positive wait to the least lead, start or end; the two "did not advance" errors cannot occur |
| `WindowEvaluation.EvaluationIsStable` | internal/controller/windows.go:98-127 | before now + wait the evaluation gives the same answer and waits for the same instant |
| `Heartbeats.FreshnessTimeline` | internal/controller/heartbeat.go:43-62 | a timestamp is future, then fresh from the skew before it, then expired from staleAfter after it, with ages rounded down |
| `DecisionLaws.DecisionFollowsReason` | internal/controller/nodeactivity_controller.go:524-680 | every decision is a reason fixed by freshness, report, hold and windows, and the taint of that reason |
| `DecisionMeanings.HeartbeatIsTrustedIff` | internal/controller/heartbeat.go:32-62 | a heartbeat is fresh exactly from heartbeatSkew, or fifteen seconds if that is unset, before it until staleAfter after it |
| `DecisionMeanings.HoldDecidesIff` | internal/controller/nodeactivity_controller.go:568-577 | a hold decides exactly a fresh idle report, or an active one that is not a game, until its duration after its start; then the taint is the interactive one and the requeue the end of the hold or the heartbeat deadline; an absent, malformed or non-positive hold never does |
| `DecisionMeanings.OpeningIsStrongest` | internal/controller/windows.go:197-216 | what is open is game if any game window is open or in its lead time, else interactive, else idle-allowed |
| `DecisionMeanings.WindowsDecide` | internal/controller/nodeactivity_controller.go:578-596 | which scheduled reason a fresh report without a hold gets from the open windows, and the active NoSchedule taint whenever a game window is open |
| `DecisionMeanings.NextWindowIsNextStart` | internal/controller/nodeactivity_controller.go:524-537 | every decision names the next start of any window, or none if there are no windows or they have no answer |
| `DecisionLaws.RequeueIsPositive` | internal/controller/nodeactivity_controller.go:524-680 | every decision asks to be looked at again |
| `DecisionLaws.TaintHoldsUntilRequeue` | internal/controller/nodeactivity_controller.go:524-680 | before the requeue the desired taint changes exactly in a surprise: windows that could not be evaluated at now can be at t, and call for another taint |
| `DecisionLaws.RequeueIsLeastBoundary` | internal/controller/nodeactivity_controller.go:524-690 | the requeue is the least of the instants that the branch of the decision names |
| `RequeueTiming.RequeueIsDueOrEarly` | internal/controller/nodeactivity_controller.go:524-690 | at the requeue the freshness changes, the hold that is in force ends, or a window that the reason heeds starts its lead, starts or ends; otherwise the look is early: the poll of a closed node, or a window that the reason does not heed |
| `RequeueTiming.EarlyLookChangesNothing` | internal/controller/nodeactivity_controller.go:524-690 | a look at which nothing is due finds the taint as it was, unless windows that had no answer surprise it |
| `RequeueTiming.StaleNeverChanges` | internal/controller/nodeactivity_controller.go:543-560 | a missing or expired heartbeat, although polled every staleAfter, keeps reason and taint for ever |
| `RequeueTiming.GameHoldsToDeadline` | internal/controller/nodeactivity_controller.go:616-624 | a live game, although looked at whenever a window turns, keeps its reason until the heartbeat deadline and is stale from then on |
| `DecisionLaws.TransitionIsRequeue` | internal/controller/nodeactivity_controller.go:509-522 | for a fresh decision that does not fail closed the reported transition is the instant of the requeue; for an active game, the heartbeat deadline |
| `DecisionLaws.TransitionIsNotMissed` | internal/controller/nodeactivity_controller.go:509-522 | for one enrollment: before the transition of its decision, or for ever if it has none, the taint it desires changes exactly where the decision misses it: windows without an answer, or an unsupported activity, and a window that calls for another taint |
| `DecisionMeanings.ClosedTransitionIsMeant` | internal/controller/nodeactivity_controller.go:536-608 | a decision that fails closed reports a transition in two cases: when an implausible heartbeat becomes plausible, and, not failing closed, when an invalid schedule stops being admitted |
| `TransitionGaps.UnsupportedReportsMissExactlyWindows` | internal/controller/nodeactivity_controller.go:656-661 | for an unsupported activity no transition is reported, and the taint differs at t exactly if the report is fresh then and a game or idle-allowed window is open |
| `TransitionGaps.UnsupportedReportMissesAWindow` | internal/controller/nodeactivity_controller.go:656-661 | a concrete policy and enrollment where that happens |
| `Surprises.WellSpacedNeverSurprises` | internal/controller/windows.go:98-127 | schedules whose starts never run dry and are spaced against their durations never surprise a decision |
| `Surprises.OverlongScheduleSurprises` | internal/controller/windows.go:141-153 | a periodic schedule between 4096 and 4097 periods long surprises a fresh idle host within every period |
| `Surprises.MinutelyScheduleOversleeps` | internal/controller/windows.go:141-153 | concretely, half a minute after a decision that is to hold for five minutes the taint is another one |
| `Protection.ProtectionForNode` | internal/controller/enrollment.go:33-86 | the sort and the fold compute the function Protect |
| `ProtectionLaws.ProtectionIgnoresListOrder` | internal/controller/enrollment.go:38-44 | every permutation of the listed enrollments gives the same protection |
| `ProtectionLaws.BeforeIsEarlier` | internal/controller/enrollment.go:38-44 | the order is that of the dictionary, by namespace and then by name |
| `NodeChanges.TieGoesToFirstName` | internal/controller/enrollment.go:38-44 | among enrollments that ask for the same taint the first by namespace and name is the source |
| `NodeChanges.NameDecidesAdmission` | internal/controller/enrollment.go:38-44 | not failing closed, of a fresh idle host and an expired one the node is admitted exactly if the fresh one has the earlier name |
| `RequeueLaws.ProtectionIsMeant` | internal/controller/enrollment.go:47-86 | the source is the strongest live enrollment, first in order among equals; the requeue is the least any live one asks for |
| `RequeueLaws.StrongestTaintWins` | internal/controller/enrollment.go:59-84 | a fresh active game gets its taint whatever else is enrolled; any desired NoSchedule gives NoSchedule; any desired taint gives one |
| `RequeueLaws.CountIsLive` | internal/controller/enrollment.go:47-56 | the count is the number of live enrollments |
| `RequeueLaws.AddingNeverWeakens` | internal/controller/enrollment.go:57-84 | one more live enrollment never lowers the protection rank |
| `RequeueLaws.AdmittedMeansAllStandDown` | internal/controller/nodeactivity_controller.go:257-263 | failing closed, an admitted node has only live enrollments that are fresh and desire no taint |
| `RequeueLaws.ProtectionHoldsUntilRequeue` | internal/controller/enrollment.go:33-86 | no overslept change: unless a live enrollment is surprised, taint, winner and count are the same at every instant before the requeue |
| `RequeueLaws.SettledNeverSurprise` | internal/controller/windows.go:98-127 | enrollments whose windows can be evaluated at now, or never could because a field is invalid, are not surprised |
| `RequeueLaws.LiveEnrollmentRequeues` | internal/controller/enrollment.go:57-70 | with a live enrollment the requeue is positive and no later than that enrollment asks for |
| `RequeueLaws.AdmissionHoldsIffNothingExpiresUnseen` | internal/controller/nodeactivity_controller.go:597-608 | without a surprise admission is unchanged until the requeue exactly unless an admitted winner whose schedule has no answer expires first; failing closed rules that out |
| `RequeueLaws.InvalidScheduleExpiresUnseen` | internal/controller/nodeactivity_controller.go:597-608 | a sole admitted host with an invalid schedule, not failing closed, expires unseen exactly if its heartbeat lies before now |
| `RequeueLaws.AdmissionCanExpireUnseen` | internal/controller/nodeactivity_controller.go:597-608 | a concrete one |
| `NodeChanges.NodeTaintChangesIff` | internal/controller/enrollment.go:33-86 | for any number of enrollments, the taint of the node changes before the requeue exactly where its source still wins and is surprised, or where another live enrollment that asks for another taint has overtaken it |
| `NodeChanges.ChangeIsASurprise` | internal/controller/enrollment.go:33-86 | and a change of taint or of winner before the requeue is always a surprise of the winner then or of the winner now |
| `NodeChanges.NodeAdmissionChangesIff` | internal/controller/nodeactivity_controller.go:257-263 | admission changes before the requeue exactly where the source still wins and lapses, or another one overtakes it that does not stand down alike |
| `NodeChanges.StandDownChangesIff` | internal/controller/nodeactivity_controller.go:257-263 | before its own requeue an enrollment begins or ceases to stand down exactly by a surprise, or by expiring while a closed schedule is polled |
| `NodeChanges.NodeTransitionMissesIff` | internal/controller/enrollment.go:59-84 | status reports the transition of the winner: before it the taint of the node changes exactly where the winner still wins and misses the change, or another live enrollment has overtaken it |
| `NodeChanges.SoleTransitionMissesIff` | internal/controller/enrollment.go:47-86 | with one live enrollment, exactly where its decision misses the change |
| `NodeChanges.MissNeedsAnotherTransition` | internal/controller/enrollment.go:59-84 | so a change before the reported transition is missed by one of the two winners, or is a transition of another enrollment that status does not report |
| `NodeChanges.OlderHeartbeatOvertakes` | internal/controller/enrollment.go:71-84 | failing input: of a host in interactive use and an idle one with an older heartbeat, failing closed, the node closes when the older heartbeat expires, before the reported transition |
| `NodeWrites.ReconciledStaysRightIff` | internal/controller/nodeactivity_controller.go:196-217 | the fields a reconcile wrote are what a later instant calls for exactly if taint and admission are unchanged |
| `NodeWrites.ReconciledStaysRight` | internal/controller/nodeactivity_controller.go:196-255 | so they are right at every instant before the requeue, without a surprise and without a winner that expires unseen |
| `NodeChanges.SoleTaintChangesIffSurprised` | internal/controller/enrollment.go:33-86 | with one live enrollment the taint of the node changes before the requeue exactly in a surprise |
| `NodeOwnership.ReconcileOwnedTaint` | internal/controller/nodeactivity_controller.go:750-774 | the in-place rewrite keeps the other keys in order, puts the desired taint last, and reports a change exactly if the list changed |
| `NodeOwnership.ReconcileSchedulableLabel` | internal/controller/nodeactivity_controller.go:776-794 | only the schedulable label is set or removed, and a change is reported exactly if the map changed |
| `NodeOwnership.ReconcileNode` | internal/controller/nodeactivity_controller.go:196-217 | the three writes of a reconcile have the effect of the function Reconciled |
| `NodeOwnership.FinalizeNode` | internal/controller/nodeactivity_controller.go:369-386 | the three writes of a finalizer have the effect of the function Finalized |
| `NodeWrites.ReconciledNodeIsMeant` | internal/controller/nodeactivity_controller.go:172-217 | onto any node a reconcile leaves its winner's taint alone under the policy's key, the fail-closed NoSchedule fence under the burst key exactly unless the winner is fresh, idle and wants no taint, and the label exactly if it is |
| `NodeWrites.FinalizedNodeIsMeant` | internal/controller/nodeactivity_controller.go:365-386 | a finalizer leaves the same of those still live, with the heartbeat judged again at the write, no fence if none is live, and never the label |
| `NodeOwnership.ManagedTaintProjection` | internal/controller/node_watch.go:68-84 | the loop computes key, value and effect of the owned taints in order |
| `OwnershipLaws.WriteOwnsOnlyItsKeys` | internal/controller/nodeactivity_controller.go:196-217 | unowned taints keep value and order, and each owned key carries exactly its desired taint or none |
| `OwnershipLaws.WriteLabelsAdmission` | internal/controller/nodeactivity_controller.go:776-794 | the label says "true" exactly if admitted, and no other label changes |
| `OwnershipLaws.WriteIsIdempotent` | internal/controller/nodeactivity_controller.go:196-217 | writing both keys twice is writing them once |
| `OwnershipLaws.RepeatReportsChangeIffBothDesired` | internal/controller/nodeactivity_controller.go:196-217 | a repeated write still reports a change exactly if both taints are desired, because each call moves its own key to the end |
| `OwnershipRuns.SiblingsWriteTheSame` | internal/controller/nodeactivity_controller.go:183-217 | a second reconcile at the same instant from another enrollment, listing in any order, writes nothing new |
| `DriftHealing.DriftIsSeenExactly` | internal/controller/node_watch.go:40-84 | from a right node the watch accepts an update exactly if it leaves the node wrong |
| `DriftHealing.WatchComparesOwnedFields` | internal/controller/node_watch.go:40-84 | the watch accepts an update exactly if the label, or the keys, values, effects or order of the owned taints differ; the times they were added do not count |
| `DriftHealing.DriftIsHealed` | internal/controller/node_watch.go:40-57 | whatever others write, the node is right again after at most the reconcile the watch asks for |
| `OwnershipRuns.FinalizeKeepsOthers` | internal/controller/nodeactivity_controller.go:350-398 | a finalizer keeps what is not owned, removes the label, and cleans the node if nothing live is left |
| `DriftHealing.FinalizedIsRightIff` | internal/controller/nodeactivity_controller.go:365-386 | where others are still enrolled, a finalizer leaves the node as they need it exactly if they are not admitted, because it never sets the label |
| `DriftHealing.FinalizerIsSeenIff` | internal/controller/node_watch.go:40-84 | from a right node, the watch sees the write of a finalizer exactly if the node was labelled, another taint is desired, or the fence falls; a label that survivors now miss goes unseen only without a burst key |
| `OwnershipRuns.RunKeepsOthers` | internal/controller/nodeactivity_controller.go:112-217 | over any run of enrolling, editing, moving, patching finalizers, deleting, reconciling and finalizing, unowned taints and other labels keep their values and order |
| `OwnershipRuns.DepartureCleansIff` | internal/controller/nodeactivity_controller.go:119-135 | the event that takes the last enrollment off a node leaves it clean exactly if it is a finalizer, or the node was clean before |
| `OwnershipRuns.EmptiedNodeIsCleanIff` | internal/controller/nodeactivity_controller.go:119-171 | a run that ends without enrollments of a node leaves it clean exactly if the last one left through its finalizer, or it was clean before that, or a later finalizer swept it; without vanishing and moving it always is |
| `OwnershipRuns.VanishingLeaks` | internal/controller/nodeactivity_controller.go:165-171 | an enrollment that is deleted before its first reconcile set the finalizer can leave its taint on the node, written by the finalizer of another |
| `OwnershipRuns.MovingLeaks` | internal/controller/nodeactivity_controller.go:350-358 | editing spec.nodeName leaves the taint on the old node |
| `EvictionMatrix.ReconciledClassIsMatrix` | internal/controller/eviction.go:287-348 | from any node, after the write the eviction class is the matrix entry of the decision reason, activity, FailClosed and burst key, and of what the heartbeat is when the class is read, at any later instant; no taint list occurs in it |
| `EvictionMatrix.MatrixNeedsNoVerdict` | internal/controller/eviction.go:287-348 | where the heartbeat is of the kind it was when decided, the entry is the documented one, by reason alone |
| `EvictionMatrix.EvictionIsFenced` | internal/controller/eviction.go:287-348 | whatever the clock does in between: a future heartbeat evicts nothing, the standard class means a sole fresh active game, and any class means the desired taint is on the node and it is not admitted |
| `EvictionMatrix.ClassNeedsDesiredTaint` | internal/controller/eviction.go:321-331 | a missing or expired heartbeat or a stale report evicts, lossy Pods only, exactly if a NoSchedule taint is desired |
| `EvictionMatrix.ClassOnAnyTaints` | internal/controller/eviction.go:287-331 | on a node with any taints the standard class means exactly a fresh active game whose NoSchedule taint is both desired and on the node; a stale heartbeat or state needs its desired NoSchedule taint there too |
| `EvictionMatrix.SoleEnrollmentDecides` | internal/controller/nodeactivity_controller.go:241-246 | with a count of one, the enrollment being reconciled is the source of the protection |
| `PodGate.EvictionDecision` | internal/controller/eviction.go:473-550 | the gates with their loops over owners, volumes and access modes compute the function Gate |
| `PodGate.GatePassesIff` | internal/controller/eviction.go:473-550 | a Pod passes exactly if it is movable and every one of its volumes is portable |
| `PodGate.LossyIsMarked` | internal/controller/eviction.go:53-61 | a Pod is judged as lossy exactly if the annotation or the label of that key is present and spells "true" in some mix of cases |
| `PodGate.DecisionIsMeant` | internal/controller/eviction.go:473-550 | the decision on a Pod by its own mark: without one, none with an emptyDir, a node selector or a required affinity passes; with one, none with a claim does |
| `PodGate.ReasonIsFirstRefusal` | internal/controller/eviction.go:473-550 | the reported reason is of a gate that refuses, and every gate before it passes; among the volumes it is the first one that is not portable |
| `PodGate.VolumeReasonIsFirst` | internal/controller/eviction.go:510-546 | and that volume is refused by the first of its own gates that holds it, each stated on the claim and its volume |
| `PodGate.LossyAgainstStandard` | internal/controller/eviction.go:497-544 | without a claim lossy is never harder; lossy-eligible Pods have no claim, and judged as standard fail only by selector, required affinity or emptyDir |
| `EvictionRetries.EvictionRetries.Prune` | internal/controller/eviction_retry.go:29-43 | the loop removes exactly the expired deadlines and those of unlisted Pods of its own node |
| `EvictionRetries.PrunedIsExact` | internal/controller/eviction_retry.go:29-43 | what survives pruning: unexpired deadlines of other nodes, and of the own node those of listed Pods with the same namespace, name and UID |
| `EvictionRetries.DelayIsBounded` | internal/controller/eviction_retry.go:75-110 | the delay lies between max(backoff, hint) and that plus the jitter, which is capped at the backoff |
| `EvictionRetries.DelayIsFloorAndOffset` | internal/controller/eviction_retry.go:75-110 | the delay is that floor, a hint counted in seconds, and the hash of the key modulo the jitter and one |
| `EvictionPasses.ConsiderPod` | internal/controller/eviction.go:373-457 | one round of the loop changes deadlines, budgets and summary as the fate of its Pod says |
| `EvictionPasses.ReconcileEvictions` | internal/controller/eviction.go:350-471 | the pass changes the shared deadlines and budgets as the function Pass says, for arbitrary Pods and answers |
| `PassLaws.PassIsBalanced` | internal/controller/eviction.go:373-457 | every considered Pod lands in one of skipped, audited, evicted, blocked; attempted = evicted + refused by the API; deferred <= skipped |
| `PassLaws.PassRequeuesForEveryWait` | internal/controller/eviction_retry.go:112-116 | the requeue is positive exactly if something is blocked or deferred, is one of their waits, and is no later than any |
| `PassLaws.PassOutcomeIsMeant` | internal/controller/eviction.go:220-251 | each outcome holds exactly of its situation, audit-only and no-eligible included; completed means evicted = attempted with nothing deferred; the blocker is the strongest met |
| `PassLaws.IdlePassIsMeant` | internal/controller/eviction.go:350-372 | disabled exactly if neither enabled nor auditing, else inactive exactly if the class evicts nothing; both spend nothing and keep only unexpired deadlines of other nodes; a failed list changes nothing |
| `PassFates.FateInPassIsMeant` | internal/controller/eviction.go:373-457 | what becomes of each Pod, one situation each: reached by the class, passed by the gates, audited, backing off while the deadline of this very UID lies ahead, without identity, or asked for if the budgets of its class grant it |
| `PassFates.DeadlineAfterPassIsMeant` | internal/controller/eviction.go:373-457 | after a pass a considered Pod has a deadline exactly if it backs off or was refused, the old one or the instant of the pass and the delay; one of the node that is not considered keeps what lies ahead |
| `PassFates.OtherDeadlinesAfterPass` | internal/controller/eviction_retry.go:29-43 | of the deadlines without a listed Pod, exactly the unexpired ones of other nodes are left |
| `PassFates.BlockerIsGravest` | internal/controller/eviction.go:194-218 | the blocker named is pdb-blocked if any answer was TooManyRequests, else api-error, else a conflict, else a Pod that is gone, else a pending retry |
| `PassLaws.PassSpendsPerRequest` | internal/controller/eviction.go:417-434 | the budgets see exactly the calls of the pass, tokens granted are requests attempted, and an audit spends none |
| `PassRuns.RequestRateInEveryWindow` | internal/controller/eviction.go:417-434 | in every window of every run of passes over any nodes, API requests of a scope stay within its burst and rate |
| `PassWaits.RateLimitLiftsExactly` | internal/controller/eviction.go:417-426 | over runs of passes, if no Pod of its class is asked for in between, the next Pod of the class to call the budgets on the node is rate-limited exactly if it comes before the wait is over |
| `PassRuns.PassKeepsDeadline` | internal/controller/eviction_retry.go:29-67 | no pass, on any node, removes or asks past an unexpired deadline it does not release |
| `PassRuns.BacksOffIffDeadlineAhead` | internal/controller/eviction_retry.go:45-52 | a Pod that may be asked about backs off exactly until its deadline |
| `PassRuns.NoEarlyRetry` | internal/controller/eviction.go:402-450 | a refusal and the next request for the same Pod are at least max(backoff, API hint) apart over any run, unless a pass of its node released it in between |
| `Reconciles.Reconcile` | internal/controller/nodeactivity_controller.go:172-255 | protect, write, evict if there is one live enrollment, and sleep until the sooner of both |
| `Reconciles.DuplicatesSuppressEvictions` | internal/controller/nodeactivity_controller.go:240-246 | unless exactly one enrollment is live, a reconcile asks for nothing and touches no deadline and no budget |
| `Reconciles.RequestsAreAuthorized` | internal/controller/eviction.go:350-471 | end to end, an eviction request means enabled, an identified Pod of the node, gated, fenced, not admitted; and for a Pod that is not marked lossy no emptyDir, selector or required affinity, and a sole fresh active game |
| `Reconciles.ReconcileComesBackInTime` | internal/controller/nodeactivity_controller.go:250-254 | a reconcile comes back, no later than the protection asks for and no later than any blocked or deferred Pod |
| `Signals.Aggregate` | internal/signals/signals.go:92-122 | game wins, then interactive; idle only if every provider says idle; otherwise unknown |
| `Signals.AggregateIgnoresOrder` | internal/signals/signals.go:96-98 | the order of providers does not matter |
| `Signals.MoreProvidersNeverHideActivity` | internal/signals/signals.go:92-122 | another provider can raise the signal, but never hide activity or make an uncertain sample idle |
| `Debounce.Evaluator.Next` | internal/engine/engine.go:37-116 | one sample changes the evaluator and yields a report as the functions Advanced and Reported say |
| `DebounceLaws.DebouncerIsItsHistory` | internal/engine/engine.go:63-93 | current is the signal of the latest position that ends game, interactive or idle samples in a row, as many as the setting of that name; pending is the exact trailing run, below its threshold |
| `DebounceLaws.SwitchesOnceLongEnough` | internal/engine/engine.go:63-93 | where something else was current, a signal becomes current exactly once its trailing run is long enough |
| `ReportLaws.ReportIsMeant` | internal/engine/engine.go:37-116 | state and activity agree; stale exactly if the sample is unknown and nothing was known for staleAfter; an active or idle report is observed now |
| `ReportLaws.SignalIsReportedOnceItLasts` | internal/engine/engine.go:63-93 | so a run of game samples is reported as an active game exactly once it is samples.Game long, and interactive use and idleness by their own counts |
| `ReportLaws.ObservationIsDated` | internal/engine/engine.go:95-111 | an unknown or stale report carries the time at which its last change was dated: the known sample then, or when something was last known |
| `ReportLaws.IdleTakesUnanimity` | internal/engine/engine.go:63-93 | idle is reported only after enough samples in a row in which every provider was idle |
| `ReportLaws.GenerationIsSharedIffUnchanged` | internal/engine/engine.go:95-105 | generations never decrease, and two reports share one exactly if state and activity did not change anywhere between them |
| `ReportLaws.ReportsAreSupported` | internal/engine/engine.go:131-140 | what this reporter writes is never an unsupported state or activity at the controller |
| `ReportLaws.ReportedTransitionsAreNotMissed` | internal/controller/nodeactivity_controller.go:509-522 | so the decision on an enrollment whose status this reporter wrote misses a change before its own transition only where its windows had no answer |
| `Metrics.Metrics.ObserveActivityAndTaint` | internal/controller/metrics.go:140-184 | series, records and the schedulable gauge change as the function After says |
| `Metrics.Metrics.ObserveEvictionStatus` | internal/controller/metrics.go:222-246 | outcome and blocked series change as the function After says |
| `Metrics.Metrics.ClearNode` | internal/controller/metrics.go:260-296 | every record of the trimmed name and its series are dropped |
| `Metrics.SeriesAgreeWithRecords` | internal/controller/metrics.go:140-296 | after any calls each node has the one series that is recorded, a blocked one exactly while the outcome is blocked, with a bounded reason |
| `Metrics.CallShowsItsLabels` | internal/controller/metrics.go:140-296 | a call replaces the labels of its own node by the ones observed, a blocked outcome by its reason or api-error, any other outcome by none, the schedulable gauge by the stand-down rule, and leaves every other node alone |
| `Metrics.PaddedWindowOutlivesClear` | internal/controller/metrics.go:121-131 | a window observed under a name with spaces around it outlives the clearing of that name |
| `Metrics.ClearRemovesAllIffNamesAreTrimmed` | internal/controller/metrics.go:121-131 | clearing leaves nothing of a node, exactly unless a window was observed under the name with spaces around it |

## Left out

- RateExactness.NodeRateIsKeptIffPricesAreExact: proved for at most one token per nanosecond (perNode <= interval), and for a global count and burst at least the node's; a smaller global allowance limits a node below its own (TightGlobalKeepsNodeRate), and above a token per nanosecond a larger one that rounds less can hold a node back too. The sufficient half, ExactPricesKeepRate, holds for any allowance.
- BudgetTheorems.RateInEveryWindow: assumes allowances whose products count*burst and interval*burst stay inside int64, and a clock that does not run backwards.
- BudgetTheorems.RefusalWaitIsExact: needs a call that is not before the last refill of its buckets; BucketLaws.WaitIsEnoughIffClockCaughtUp says that without this the wait falls short.
- RequeueLaws.ProtectionHoldsUntilRequeue: says nothing of an instant at which a live enrollment is surprised; NodeChanges.NodeTaintChangesIff says exactly what that does to a node.
- RequeueLaws.AdmissionHoldsIffNothingExpiresUnseen: the same; NodeChanges.NodeAdmissionChangesIff says exactly what a surprise does to admission.
- NodeChanges.NodeTransitionMissesIff: leaves out a heartbeat within the skew of the unset time, as DecisionLaws.TransitionIsNotMissed does.
- DecisionLaws.TransitionIsNotMissed: a heartbeat within the skew of the unset time is left out, because there the instant at which it becomes plausible would read as unset.
- PassRuns.NoEarlyRetry: a pass is one step. Two passes of the same node never overlap, because an object is reconciled by one worker at a time and a second enrollment suppresses eviction; passes of other nodes touch no key of the node but expired ones.
- OwnershipRuns.EmptiedNodeIsCleanIff: the Node itself stays; a Node that is deleted and made again starts without owned fields.
- Parsing of cron expressions, durations and time zones, and validateSchedule: foreign libraries; a schedule is its parsed windows, or invalid.
- Go duration saturation and the range of time.Time: times are unbounded integers.
- Status patches, conditions, messages, reason texts in reports, optimistic-lock conflicts, finalizer patches and the missing-Node branch: I/O around the decisions.
- reconcileHold, which stamps the start of a hold: a hold is a duration and a start, either of which may be absent.
- requestsForEnrolledNode, requestsForNode and the field indexes: which objects are queued, not what is decided.
- The FNV hash of the jitter: any hash of the key.
- Lookups of one Pod's claims and volumes see one state of the cluster; a lookup that fails is an absent object.
- The prometheus counters, and the gauges whose only label is the node, apart from the schedulable and window ones.
- The sort of observations by provider and the joined reasons of a sample: only the signal is modelled.
- CRD readiness, configuration, HTTP reporting, the providers themselves, and the recovery report: field checks and text.
