# Durable monitoring core

A Dafny model of the state machines behind a monitoring platform: tables changed only by small
atomic transactions, run by workers that crash, race, replay and arrive late.  Each component has
three layers:

- a value model (`SyncOperations`, `ProblemState`, `Observations`, `HistoryChain`, `Inventory`,
  `AlertEvaluation`, `Notification`, `Outbox`, `Credentials`, `ProblemPaging`): tables as sequences
  and maps, one function per transaction (`None` or an unchanged state is a rollback), `Step` over
  events and `Run` over arbitrary event sequences;
- safety modules (`SyncSafety`, `ProblemLog`, `ObservationSafety`, ...): inductive invariants and
  the theorems over every run, what each transaction writes in the tables' own terms
  (`SyncEffects`, `ProblemContents`, `AlertThresholds`, `ObservationEffects`, ...), exact conditions
  where a property fails (`SyncOutcomes`, `ProblemAborts`, `OutboxDelivery`), and components put
  together (`FencedProblems`, `ProviderReads`, `AlertSafety`);
- a class (`SyncRepository`, `ProblemRepository`, `ObservationRepository`, ...): the same tables as
  fields updated in place by loops, each method proved equal to the transaction it specifies.

Opaque ids and claim tokens are fresh by construction: an id is a row's position in a table whose
rows are never deleted, a token is the position of the claim among all claims ever handed out.
Event sequences are unrestricted, so they contain every interleaving of enqueuers, workers, reapers,
late completions, duplicated callbacks and crashes.

Check with `dafny verify dfyconfig.toml`.

## What the code does that its prose does not say

Each line names the theorem with the exact condition and the concrete run.

- The first history window of a stream loses its checkpoint: checkpoints are updated before missing
  stream rows are inserted (`WindowIsCoveredIffStreamExisted`, `FirstWindowLosesItsCheckpoint`).
- A definition keeps the resource of its item's first appearance when the item moves to another host
  (`DefinitionFollowsHostIffFirstSeen`, `MovedItemKeepsItsOldResource`).
- A problem resolved by omission and later reported recovered at another time makes every completion
  that carries that evidence abort, for ever (`CommitsIff`, `ContradictionIsPermanent`,
  `OmissionThenRecoveryContradicts`).
- A problem whose host left the configured groups is resolved while the provider still reports it
  (`ActiveAtProviderStaysActiveIffInScope`, `LeavingTheGroupsResolves`).
- Evidence that flaps at an unchanged problem revision loses the alert until the revision grows
  (`EvaluationIsExact`, `FlappingRunEndsWithoutAlert`).
- A successful problem poll on a cut-off snapshot leaves its operation in `reconciliation_required`
  (`SucceededIffSnapshotComplete`, `SuccessfulPollAwaitsReconciliation`).
- An inventory or metric-definition operation that completed once can be requeued but never
  completes again (`RefusedIffCompletedBefore`, `RequeuedInventoryIsStuck`).
- One reconciler pass may requeue two operations of a source and kind, although it skips work that
  is live already (`ReconcilerDoublesIff`, `OnePassDoublesWork`).
- Operator requeues are not capped (`ClaimsPerOperationBounded`, `ClaimBoundIsAttained`).
- A record is published twice when a crash falls between publishing and recording
  (`PublishedTwiceIffForgotten`, `CrashPublishesTwice`).
- A call that gives up on conflicts may have written, when a reply was lost in an error whose text
  happens to contain "cas" (`GivingUpChangesNothing`, `GaveUpHavingWrittenTwice`).

## Model

| member | source | states |
|---|---|---|
| SyncSafety.StepInv | shared/monitoring_repo.py:1266-1299 | every transaction of the operation protocol (enqueue from an arbitrarily old read, claim, completion, reap, sweep, requeue, admission, reconfiguration) keeps one inductive invariant: rows carry at most the source's authority and at most the next poll slot, tokens belong to one operation, accepted slots are ordered |
| SyncSafety.SlotsAcceptedOnceInOrder | shared/monitoring_repo.py:1385-1404 | over every interleaving no token and no (source, kind, epoch, generation) slot is accepted twice, and accepted slots of a source and poll kind strictly increase |
| SyncSafety.GenerationCountsAcceptances | shared/monitoring_repo.py:1835-1894 | inside an epoch a metric poll generation rises by exactly the number of accepted completions and by nothing else |
| SyncSafety.StaleTokenIsInert | shared/monitoring_repo.py:1266-1293 | a token whose operation was taken back or completed is refused in every later state and never accepted again |
| SyncSafety.WhatKillsTokens | workers/reconciliation.py:48-85 | completing, reaping, requeueing or re-claiming an operation each leaves its earlier token dead; at most one token of an operation is alive |
| SyncSafety.OnlyNewestProblemClaimCompletes | shared/monitoring_repo.py:3110-3215 | because a problem claim bumps the generation, an older problem claim of a source fails the completion fence in every reachable state |
| SyncSafety.ZombieIffFenced | workers/reconciliation.py:88-126 | the sweep's WHERE clause is the exact negation of the claim fence on pending unclaimed rows |
| SyncSafety.SweptIsNeverClaimable | workers/reconciliation.py:88-133 | a swept operation fails its claim fence in every later state, requeued or not |
| SyncSafety.SweepLeavesExactlyTheClaimable | shared/monitoring_repo.py:1198-1208 | right after a sweep every pending unclaimed operation of the five non-problem kinds is claimable, and no claimable operation was touched |
| SyncSafety.FreshOperationIsClaimable | workers/scheduler.py:119-122 | an operation numbered from the current source row is claimable at once |
| SyncSafety.ClaimsPerOperationBounded | workers/reconciliation.py:43-75 | an operation is handed out at most RECOVERY_MAX + 1 times plus once per operator requeue |
| SyncOutcomes.ClaimBoundIsAttained | sql/monitoring/018_op_recovery.sql:16-50 | for every RECOVERY_MAX and every number m of operator requeues a run claims one operation RECOVERY_MAX + 1 + m times: the bound is exact, and nothing caps the requeues |
| SyncOutcomes.SucceededIffSnapshotComplete | shared/monitoring_repo.py:3321-3344 | a completion that reports success leaves its operation succeeded if and only if it is not a problem poll or its snapshot was complete |
| SyncOutcomes.SuccessfulPollAwaitsReconciliation | shared/monitoring_repo.py:3321-3344 | a concrete run: a successful problem poll whose operation ends in reconciliation_required |
| SyncOutcomes.RequeuedSnapshotNeverCompletes | sql/monitoring/002_host_inventory.sql:59-79 | once a completion of an inventory or metric-definition operation was accepted, no later token of it completes, in any continuation |
| SyncOutcomes.RefusedIffCompletedBefore | sql/monitoring/003_metric_definitions.sql:118-140 | a token whose fence holds is refused exactly when its operation keeps snapshot evidence and completed before |
| SyncOutcomes.RequeuedInventoryIsStuck | shared/monitoring_repo.py:820-847 | a concrete run: a degraded inventory is requeued and claimed, its fence holds, and its completion is refused |
| SyncOutcomes.ReconcilerDoublesIff | workers/reconciliation.py:136-176 | the reconciler skips work that is live before its pass only: a source ends the pass with two live operations of a kind if and only if two of its operations of that kind were picked |
| SyncOutcomes.OnePassDoublesWork | workers/reconciliation.py:143-176 | a concrete run: two failed validations of one source are both requeued by one pass |
| SyncEffects.ClaimedIff | shared/monitoring_repo.py:1198-1250 | exactly when a claim hands an operation out, column by column: waiting, authority unchanged, a metric poll next in its epoch, a problem poll only on current evidence and an admitted epoch |
| SyncEffects.ClaimEffect | shared/monitoring_repo.py:3150-3215 | what a claim writes on the operation, the source and the claim, and that no other row changes |
| SyncEffects.AcceptedIff | shared/monitoring_repo.py:1266-1293 | exactly when a completion is accepted, column by column: token, authority, binding, poll slot, first snapshot evidence |
| SyncEffects.CompletionEffect | shared/monitoring_repo.py:3305-3344 | an accepted completion leaves the outcome's evidence on its source, the consumed slot and the operation's final state, and no other row changed |
| SyncEffects.FollowUpEffect | shared/monitoring_repo.py:3341-3368 | an association failure leaves an inventory operation due, inserted only if none was, and a chained window its next operation; what is inserted can be claimed at once |
| SyncEffects.SupersededNeverCompletes | shared/monitoring_repo.py:1266-1293 | once a source's authority moved on, a token claimed under the earlier one is refused in every continuation |
| SyncEffects.ReapTakesExactlyTheOverdue | workers/reconciliation.py:48-85 | a running operation is taken if and only if it started before the lease, to pending with one more recovery under the cap and to failed_terminal at it |
| SyncEffects.ReapSparesTheLease | workers/reconciliation.py:57-62 | a worker inside its lease has its result accepted after a reap exactly if before it |
| SyncEffects.SweepEndsExactlyTheFenced | workers/reconciliation.py:95-126 | the sweep ends exactly the waiting operations whose authority or poll slot the source has left behind |
| SyncEffects.RequeueEffect | sql/monitoring/018_op_recovery.sql:27-50 | a requeue reopens exactly the operations that ended badly and turns reconciliation_required evidence, and no other, current |
| SyncEffects.RequeuedIsClaimableIff | sql/monitoring/018_op_recovery.sql:38-48 | a requeued operation can be claimed if and only if its source has not moved on and, for a problem poll, the evidence was current or awaited reconciliation |
| SyncEffects.ReconcilerReopensIdleWork | workers/reconciliation.py:143-160 | a pass reopens only operations that ended badly, long enough ago, with recoveries left and nothing live of their kind; what it leaves of those ended no earlier than the 32 it took |
| SyncEffects.CurrentAgainIff | shared/monitoring_repo.py:3305-3320 | the exact steps after which evidence that was not current is |
| SyncEffects.NoProblemClaimWithoutEvidence | shared/monitoring_repo.py:3125-3141 | while none of those steps happens no problem operation of the source is handed out, in any run |
| SyncEffects.DegradedCompletionClosesProblemPolls | shared/monitoring_repo.py:891-905 | so an accepted completion with evidence other than current closes its source's problem polls until one of them |
| SyncEffects.AdmissionOpensTheEpoch | shared/monitoring_repo.py:3151-3163 | admission opens the present poll epoch of its source and changes nothing else |
| SyncRepository.Repository.Claim | shared/monitoring_repo.py:1179-1250 | the claim transaction: its whole new state, exactly when a token is handed out, and that the new token passes the completion fence |
| SyncRepository.Repository.ClaimProblemState | shared/monitoring_repo.py:3110-3215 | the problem claim, which takes its slot at claim time |
| SyncRepository.Repository.Complete | shared/monitoring_repo.py:1259-1421 | the fenced completion: accepted exactly when the fence holds and, for the kinds whose snapshot evidence is unique per operation, none was accepted before; its new state is the one of `SyncEffects.CompletionEffect`, and otherwise nothing changes |
| SyncRepository.Repository.ReapOrphanedRunning | workers/reconciliation.py:48-85 | the bulk reap over all orphaned rows |
| SyncRepository.Repository.SweepZombiePending | workers/reconciliation.py:88-133 | the bulk sweep over all pending rows |
| SyncRepository.Repository.RequeueOperation | sql/monitoring/018_op_recovery.sql:16-50 | terminal back to pending, token cleared, one more recovery |
| SyncRepository.Repository.ReconcileTerminal | workers/reconciliation.py:136-176 | the 32 candidates completed longest ago are chosen before any is requeued; all of them are requeued and counted |
| SyncRepository.Repository.EnqueueDue | workers/scheduler.py:106-131 | after the due query: one operation per row whose lock was obtained, numbered from the row as read; the returned count is that of all rows |
| SyncRepository.DueOpsFollowTheLocks | workers/scheduler.py:112-131 | one operation for each row whose lock was obtained and none for the others, each with the authority and next slot of the row as read |
| ProblemState.CompletionEffect | shared/monitoring_repo.py:3546-3670 | the exact set of active problems after a committed completion: on a complete snapshot the returned events minus the recovered ones, on an incomplete one nothing resolves without recovery evidence, other generations untouched |
| ProblemAborts.CommitsIff | shared/monitoring_repo.py:3374-3599 | a successful result commits if and only if no returned problem is refused (association not current, identity changed, event resolved before) or collides with another, no recovery contradicts a resolved row, and no two recoveries of one active or returned event disagree |
| ProblemAborts.ContradictionIsPermanent | shared/monitoring_repo.py:3591-3599 | once recovery evidence contradicts a resolution it does in every continuation, and every completion of that source and generation that carries it changes nothing |
| ProblemAborts.OmissionThenRecoveryContradicts | shared/monitoring_repo.py:3092-3108 | a concrete run from empty tables: a problem is omitted at 200, reported recovered at 150, and the completion is rolled back |
| ProblemLog.LogRefinesProjection | shared/monitoring_repo.py:3691-3738 | over every run, aborts included: each problem's log is a connected path from nothing through active with strictly increasing revisions, its fold is the row's state and severity, and the outbox holds exactly one event per transition |
| ProblemLog.ResolvedIsAbsorbing | shared/monitoring_repo.py:3437-3543 | identities never change, revisions never fall, and a resolved row is frozen in every continuation |
| ProblemContents.RowShowsTheLastObservation | shared/monitoring_repo.py:3490-3543 | after a commit the row of every returned event with a raw row shows the severity, summary, acknowledgement and metadata of the event's last observation, confirmed by this poll |
| ProblemContents.RevisionCountsTheChanges | shared/monitoring_repo.py:3484-3508 | a revision grows by one for each observation that says something new and one for the resolution; an unreturned problem keeps what it says |
| ProblemContents.SeverityChangesAreExact | shared/monitoring_repo.py:3510-3518 | the log gains a severity change of a problem from one severity to another exactly when one observation changed the one to the other |
| ProblemContents.LogIsTheReading | shared/monitoring_repo.py:3374-3670 | what a completion appends to a problem's log is the opening, its observations' severity changes under their revisions and its resolution, in order, and nothing else |
| ProblemContents.ResolutionsNameTheirEvidence | shared/monitoring_repo.py:3546-3670 | a problem resolves exactly by recovery evidence, at its clock, or by omission from a complete snapshot, at its time, with the reason logged; one left unreturned by an incomplete snapshot loses its current evidence |
| ProblemContents.CompletionReads | shared/monitoring_repo.py:3374-3670 | problem by problem, the loops over the tables equal a reading of the event's own observations and ending |
| ProblemRepository.Repository.PersistProblem | shared/monitoring_repo.py:3437-3543 | one returned problem: bound, revised or confirmed, or an error; the table functions it equals are read event by event in `ProblemContents` |
| ProblemRepository.Repository.PersistProblems | shared/monitoring_repo.py:3374-3543 | the loop over the returned problems: all persisted or an error, and exactly the events that have a raw row are seen |
| ProblemRepository.Repository.PersistRecoveries | shared/monitoring_repo.py:3546-3599 | the loop over the recovery evidence: active problems resolve at the provider's clock, contradictions raise |
| ProblemRepository.Repository.ApplyOmission | shared/monitoring_repo.py:3601-3670 | resolution by omission on complete snapshots, degraded evidence otherwise |
| ProblemRepository.Repository.CompleteProblemState | shared/monitoring_repo.py:3266-3274 | the projection part of the completion, past its fence: problems, recoveries and omission, rolled back when any part raises |
| ProblemRepository.Repository.InsertTransition | shared/monitoring_repo.py:3691-3738 | a transition and its domain event are appended together |
| ProviderReads.OneMoreProvesTruncation | providers/zabbix.py:577-635 | asking for one row more than the bound shows exactly whether the answer was cut |
| ProviderReads.ReadActiveProblems | providers/zabbix.py:577-635 | complete exactly when the provider holds no more trigger problems of the requested groups than the bound, and then the rows are exactly the active ones |
| ProviderReads.CutReadsKeepTheEarliest | providers/zabbix.py:590-604 | what a cut-off read leaves out comes no earlier, by event id, than anything it returns |
| ProviderReads.ReadRecoveryEvents | providers/zabbix.py:637-672 | evidence only for known events the provider itself reports recovered, and for all of them when the known events fit the bound |
| ProviderReads.ReadHosts | providers/zabbix.py:254-298 | complete exactly when nothing was cut off, and then every host of the groups is listed |
| ProviderReads.ReadItems | providers/zabbix.py:415-447 | the same contract for items |
| ProviderReads.ActiveAtProviderIsNotOmitted | scripts/fake_zabbix.py:193-214 | whatever the bound of the read, a problem of the requested groups still active at the provider is never resolved by omission |
| ProviderReads.ActiveAtProviderStaysActiveIffInScope | shared/monitoring_repo.py:3601-3670 | with recovery evidence from the same provider state, a problem active at the provider stays active if and only if it is in the requested groups or the read was cut off |
| ProviderReads.LeavingTheGroupsResolves | providers/zabbix.py:590-604 | a concrete problem, active at the provider outside the requested groups, that is resolved by omission |
| FencedProblems.NewerPollsWin | shared/monitoring_repo.py:3233-3264 | the fence and the projection together: over every run a problem row's poll slot never moves back, so a late worker never overwrites a newer poll |
| FencedProblems.ClaimIsNewer | shared/monitoring_repo.py:3233-3264 | the slot of an acceptable problem claim is strictly later than the slot of any row of its source |
| AlertSafety.EvaluationIsExact | shared/alerting_eval.py:99-319 | exactly which (policy, subject) pairs have an active alert after an evaluation, in terms of matching and of the decisions already recorded at that revision |
| AlertSafety.UndecidedSubjectsFollowThePolicy | shared/alerting_eval.py:120-145 | with no earlier decision at the revision: active if and only if current and matching |
| AlertThresholds.UndecidedAlertsFollowTheSeverity | shared/alerting_eval.py:99-125 | by name: with no earlier decision an alert is active if and only if the problem is active and current in its generation, its severity is in the list of its policy's minimum, and the policy names no resource or its own; other sources' policies and stale sources change nothing |
| AlertThresholds.AlertsAreStamped | shared/alerting_eval.py:153-227 | after any run an evaluation opens alerts for such problems only, stamped with version, resource, generation and revision, and closes only alerts whose problem is no longer one, at its present revision |
| AlertSafety.FlappingEvidenceLosesTheAlert | shared/alerting_eval.py:131-145 | a subject that stops being current and returns at an unchanged revision ends matching and current without an alert, for any three Monitoring states with equal revisions |
| AlertFlapping.FlappingRunEndsWithoutAlert | shared/alerting_eval.py:131-145 | a concrete run from empty tables that ends so: opened, missing from an incomplete snapshot, confirmed unchanged |
| AlertSafety.EvaluationIsIdempotent | shared/alerting_eval.py:46-319 | a second evaluation on unchanged Monitoring state changes nothing |
| AlertSafety.LedgerOverRuns | shared/alerting_eval.py:107-318 | over runs interleaved with completions: at most one active alert per pair, creates and resolves alternate, at most one decision per (policy, subject, revision, effect), the resolving revision is at least the creating one |
| AlertSafety.AlertsKeepTheirPin | shared/alerting_eval.py:196-255 | resolved is terminal and the pinned policy version never changes in any continuation |
| AlertEvaluator.Evaluator.EvaluateProblemPolicies | shared/alerting_eval.py:46-319 | the nested loops equal the specification; created, resolved and skipped are the exact counts of creates, resolves and skipped current problems |
| AlertEvaluator.Evaluator.EvaluateCurrent | shared/alerting_eval.py:120-255 | the loop over the current problems of one policy |
| AlertEvaluator.Evaluator.ResolveDisappeared | shared/alerting_eval.py:257-318 | the loop over the open alerts whose problem is not current any more |
| AlertEvaluator.Evaluator.OpenAlerts | shared/alerting_eval.py:109-118 | the open alerts of a policy by subject |
| AlertEvaluator.SkippedIff | shared/alerting_eval.py:131-206 | a subject counts as skipped exactly when what the policy asks for is not so and was decided at this revision |
| ObservationSafety.CellIsTheLatestPolledSample | shared/monitoring_repo.py:1911-2086 | over every run a current-state cell exists once a poll inserted a sample for it and shows the lexicographically greatest (clock, ns) of them |
| ObservationSafety.RevisionCountsTransitions | shared/monitoring_repo.py:2008-2067 | a cell's revision equals the number of its transitions |
| ObservationSafety.TransitionsAreChained | shared/monitoring_repo.py:2046-2067 | each transition starts where the previous one of its cell ended, one revision later, at a strictly later provider time |
| ObservationSafety.ArrivalOrderDoesNotMatter | shared/monitoring_repo.py:1926-1977 | two deliveries of the same samples, in any order and with any repetition, leave every cell showing the same sample |
| ObservationSafety.ObservationsAreConserved | shared/monitoring_repo.py:2512-2685 | one acceptance per (item, clock, ns); an observation row exactly for the projected acceptances, with the same data |
| ObservationSafety.NothingAcceptedIsLost | shared/monitoring_repo.py:2606-2627 | no accepted sample is altered, no projection is undone and no stream checkpoint moves back in any run |
| ObservationSafety.SafeNeverPassesProvisional | shared/monitoring_repo.py:2597-2627 | the provisional checkpoint never falls behind the safe one |
| ObservationSafety.WindowIsCoveredIffStreamExisted | shared/monitoring_repo.py:2512-2627 | a completion leaves a checkpoint covering every row it accepted for a claimed stream if and only if the stream row existed before or no raw row of the item parses and is new |
| ObservationSafety.FirstWindowLosesItsCheckpoint | shared/monitoring_repo.py:2597-2627 | a concrete first window whose rows are accepted while the new stream row has no checkpoint |
| ObservationEffects.BatchIsProjected | shared/monitoring_repo.py:2659-2682 | after a projection pass every envelope of the batch is projected and has a row carrying its sample; the flags and rows outside the batch are unchanged |
| ObservationEffects.PendingDropsByTheCount | shared/monitoring_repo.py:2629-2685 | a pass takes away exactly as many pending samples as it counts, and a batch covering them leaves none |
| ObservationEffects.PendingWasPolled | shared/monitoring_repo.py:2588-2595 | over every run only polled samples wait for a pass |
| ObservationEffects.PollAddsOnly | shared/monitoring_repo.py:1926-1977 | what a poll adds was returned by it and waits for projection |
| ObservationEffects.HistoryAccepts | shared/monitoring_repo.py:2512-2595 | a window accepts what its rows say for its targets, under their definitions, and nothing else, and leaves the cells alone |
| ObservationEffects.StaleIffNotReturned | shared/monitoring_repo.py:2071-2086 | after a poll a cell is stale exactly if it was asked for and not returned, or was stale and no newer sample moved it |
| ObservationEffects.CheckpointsFollowTheWindow | shared/monitoring_repo.py:2597-2627 | for every stream, what a window does to its provisional and safe checkpoints and its revision |
| ObservationRepository.Repository.Observe | shared/monitoring_repo.py:1919-2067 | one sample: deduplicated, then the cell moves only forward |
| ObservationRepository.Repository.PersistObservations | shared/monitoring_repo.py:1911-2086 | the loop over the samples and the stale marking of unreturned targets |
| ObservationRepository.Repository.PersistHistoryRows | shared/monitoring_repo.py:2512-2627 | the loop over the raw rows and the checkpoint updates |
| ObservationRepository.Repository.CompleteHistory | shared/monitoring_repo.py:2368-2407 | rows first, then insert-or-touch of every target's stream row |
| ObservationRepository.Repository.ProjectPending | shared/monitoring_repo.py:2629-2685 | the projection pass over the locked envelopes and its count, with the effect of `ObservationEffects.BatchIsProjected` |
| HistoryChain.PagesAreALeadingPart | shared/monitoring_repo.py:2261-2314 | over claims, failures, crashes and retries the successful pages are a leading part of the eligible items in order, one operation is open, and no more pages succeed than needed |
| HistoryChain.FinishedChainVisitsEverything | shared/monitoring_repo.py:2462-2507 | once no operation is left every eligible item was visited exactly once in ascending order, by exactly n / size pages rounded up |
| HistoryChain.PagesNeededRoundsUp | shared/monitoring_repo.py:2462-2465 | the page count is the rounded-up quotient |
| HistoryChain.ProgressIsPossible | shared/monitoring_repo.py:2205-2330 | an unfinished chain can always move by one undisturbed attempt |
| HistoryChain.OperationsAreBounded | shared/monitoring_repo.py:2462-2507 | however often operations fail and are retried, a window never has more operations than it needs pages |
| HistoryChain.FailureKeepsTheCursor | shared/monitoring_repo.py:2448-2464 | a failed attempt and its retry read from the same cursor and change nothing else |
| HistoryChain.Chain.ClaimOp | shared/monitoring_repo.py:2249-2314 | the page a claim reads, or the empty page that succeeds the operation |
| HistoryChain.Chain.CompleteOp | shared/monitoring_repo.py:2332-2510 | the outcome and the next link |
| InventorySafety.PresentIsLastGoodSnapshot | shared/monitoring_repo.py:911-1047 | over every run the present resources are exactly the hosts of the last successful snapshot of their generation |
| InventorySafety.ActiveIsLastGoodPoll | shared/monitoring_repo.py:1423-1597 | over every run the active definitions are exactly the items of the last successful poll whose hosts were all present |
| InventorySafety.IdentitiesAreStable | shared/monitoring_repo.py:924-975 | an external reference keeps one canonical id through removal, return, retirement and reactivation |
| InventorySafety.IdsAreDistinct | sql/monitoring/002_host_inventory.sql:27-52 | no two references share an id; definitions and bindings are one to one |
| InventorySafety.FencedLookupIsTotal | shared/monitoring_repo.py:1301-1331 | past the host association fence the host_map lookup never fails; persisting raises exactly when a reference repeats |
| InventorySafety.DegradedTouchesEvidenceOnly | shared/monitoring_repo.py:855-872 | degraded results and snapshots naming an absent host change evidence states alone |
| InventorySafety.DefinitionFollowsHostIffFirstSeen | shared/monitoring_repo.py:1449-1532 | after a successful poll a definition belongs to its item's host if and only if the item was new or already belonged there |
| InventorySafety.MovedItemKeepsItsOldResource | shared/monitoring_repo.py:1514-1546 | a concrete run from empty tables: the item moved and is active, its definition does not belong to its new host |
| InventoryEffects.SnapshotWritesItsHosts | shared/monitoring_repo.py:911-1047 | a good snapshot writes each host's name on its one row, present and current; a row of the generation it does not list is removed, and no other row changes |
| InventoryEffects.PollWritesItsItems | shared/monitoring_repo.py:1449-1568 | a good poll writes each item's name, host and native type on its definition and binding, with current evidence unless the native type changed |
| InventoryEffects.PollRetiresTheRest | shared/monitoring_repo.py:1570-1597 | a definition it does not list retires with nothing else changed; other generations are untouched |
| InventoryEffects.DegradedMarksWhatIsThere | shared/monitoring_repo.py:855-872 | a degraded result lowers the evidence of exactly what its generation holds present or active, to the evidence it reports |
| InventoryRepository.Repository.PersistSnapshot | shared/monitoring_repo.py:911-1047 | the loop over the hosts and the removal of the unseen |
| InventoryRepository.Repository.PersistItemSnapshot | shared/monitoring_repo.py:1423-1597 | the loop over the items and the retirement of the unseen |
| InventoryRepository.Repository.CompleteHostInventory | shared/monitoring_repo.py:849-872 | past its fence: the snapshot, or the degraded evidence, rolled back when a reference repeats |
| InventoryRepository.Repository.CompleteMetricDefinitions | shared/monitoring_repo.py:1301-1383 | past its fence on the operation: the host association fence, then the snapshot or the degraded evidence, rolled back when it raises |
| ProblemPaging.PagesAreTheWholeList | shared/monitoring_repo.py:3779-3853 | for any page size the pages concatenate to the wanted problems, each once: critical ones first and so on down to unknown severity, newest first within a severity, then by id |
| ProblemPaging.PageFromPosition | shared/monitoring_repo.py:3831-3844 | a page is the next 1 to 500 problems of the list and its cursor is null exactly at the end |
| ProblemPaging.WhereThenOrder | shared/monitoring_repo.py:3810-3824 | filtering and sorting commute, so a keyset page sees a suffix of the full list |
| NotificationSafety.RetriesAreBounded | shared/notification.py:166-222 | attempts are numbered exactly 1..n with n at most 3; a required retry means exactly one pending entry numbered n + 1, a fallback means none, never both |
| NotificationSafety.FlagsAreExact | shared/notification.py:104-107 | exactly when a retry or a fallback is asked for, in terms of the attempts and the evidence |
| NotificationSafety.EntryPendingIffOpen | shared/notification.py:209-222 | a pending entry exists exactly while another attempt is due |
| NotificationSafety.ProjectionIsStrongestFact | shared/notification.py:74-89 | the shown rank is the maximum over all attempts and all evidence, although computed from the last attempt |
| NotificationSafety.ShownRankNeverDecreases | shared/notification.py:18-22 | the shown rank never decreases in any continuation |
| NotificationSafety.CallbackOrderDoesNotMatter | shared/notification.py:225-253 | two deliveries of the same callbacks, in any order and with any repetition, show the same state and flags |
| NotificationEffects.WhatFollowsAnAttempt | shared/notification.py:166-222 | after any run: an attempt below the third that failed or is unknown leaves exactly the next entry and asks for a retry unless someone saw the notification, the third leaves none and asks for the fallback on the same proviso, any other outcome leaves and asks for nothing |
| NotificationEffects.WhatACallbackAdds | shared/notification.py:225-253 | a callback adds one piece of evidence, or nothing if its id was seen or only a dispatch can report its state; attempts and entries are never touched |
| NotificationEffects.ShownStateByName | shared/notification.py:18-22 | the shown state by name: read elsewhere, else delivered, else accepted, else sent, if any fact says so; otherwise the last attempt's outcome |
| NotificationStore.Store.RecomputeProjection | shared/notification.py:44-140 | the upserted projection row |
| NotificationStore.Store.RecordEvidenceRow | shared/notification.py:225-253 | evidence deduplicated by callback id |
| NotificationStore.Store.CompleteEntry | shared/notification.py:166-222 | attempt, entry, projection and the bounded retry |
| NotificationStore.Store.ProcessPending | workers/notification_dispatch.py:34-135 | one worker transaction: claim, completion and acceptance evidence, or nothing |
| NotificationStore.Store.CreateIntent | api/routers/notifications.py:107-113 | an intent starts with one pending entry for attempt 1 |
| OutboxSafety.StatesAreEarned | workers/outbox_dispatcher.py:186-231 | under any crashes: published implies a successful publish, quarantined implies at least five claims since the last redrive, pending fewer than five |
| OutboxSafety.RecordsSurvive | workers/outbox_dispatcher.py:102-231 | no record is lost or rewritten and published is final, with one dispatcher |
| OutboxSafety.ClaimTakesTheOldestDue | workers/outbox_dispatcher.py:124-152 | an unexpired lease is never re-claimed; of the free records the ten with the smallest ids are, for sixty seconds and with one more attempt |
| OutboxSafety.AbandonedClaimsComeBack | workers/outbox_dispatcher.py:140-158 | a record some crash left claimed is due again after at most a lease |
| OutboxEffects.WhatIsRecorded | workers/outbox_dispatcher.py:186-225 | each record of a batch ends published with a receipt, quarantined without one at the fifth claim since its redrive and pending before it; a failed row stays claimed and the others are as they were |
| OutboxEffects.WhatIsRedriven | sql/monitoring/021_outbox_redrive.sql:20-48 | a redrive gives a quarantined record under the cap a fresh budget and counts it, and leaves everything else alone |
| OutboxDelivery.PublicationsAreCounted | workers/outbox_dispatcher.py:162-231 | over every run a record was published once for each publication that was forgotten (a crash or a failed row update while it was just sent) and once more if the last one is still known |
| OutboxDelivery.PublishedTwiceIffForgotten | workers/outbox_dispatcher.py:162-231 | a record is published twice if and only if a publication of it was forgotten and it was published again; a published row was published once if and only if none was forgotten |
| OutboxDelivery.CrashFreeRunsAreExact | workers/outbox_dispatcher.py:199-225 | without crashes a quarantine comes after exactly five claims and every publication is known |
| OutboxDelivery.CrashPublishesTwice | workers/outbox_dispatcher.py:162-184 | a concrete run: a crash between publishing and recording publishes the record again |
| OutboxDispatcher.Worker.ClaimBatch | workers/outbox_dispatcher.py:122-160 | phase 1: the ten oldest due rows are leased with one more attempt, and remembered with the attempt count read before the claim |
| OutboxDispatcher.Worker.PublishNext | workers/outbox_dispatcher.py:162-180 | phase 2: one publication and its outcome, outside any transaction |
| OutboxDispatcher.Worker.RecordOutcomes | workers/outbox_dispatcher.py:182-231 | phase 3: each row ends published, quarantined or pending by its outcome and remembered attempts, a row whose update failed stays claimed, and the result counts the recorded publications |
| OutboxDispatcher.PublishedByCounts | workers/outbox_dispatcher.py:182-231 | the returned count is the number of records of the batch published and recorded |
| OutboxDispatcher.Worker.RedriveMessage | sql/monitoring/021_outbox_redrive.sql:20-48 | the redrive of a quarantined row, capped; scripts/redrive_quarantined.py:47-57 is the uncapped form |
| CredentialSafety.NoLostUpdate | providers/credentials.py:223-305 | for every interleaving the document is the sequential application, in version order, of exactly the accepted writes, and how many writes each call made |
| CredentialSafety.EachReferenceKeepsItsLastWrite | providers/credentials.py:241-245 | each reference shows its last accepted operation, although every write replaces the whole document |
| CredentialSafety.NormalReturnMeansEffect | providers/credentials.py:241-253 | when a call returns normally its effect holds at that moment |
| CredentialSafety.GivingUpChangesNothing | providers/credentials.py:244-252 | a call that gave up on conflicts wrote nothing if and only if no applied write of it lost its reply; with every exchange answered at least three other writes were accepted meanwhile |
| CredentialSafety.StoreWritesAreCounted | providers/credentials.py:241-252 | how often a store wrote, and when more than once |
| CredentialSafety.GaveUpHavingWrittenTwice | providers/credentials.py:248-252 | a concrete run: two applied writes lose their replies in errors that say "cas", then the call gives up |
| CredentialSafety.WritesFollowRealTime | providers/credentials.py:281-294 | writes of a call that ended before another began precede that call's writes |
| CredentialEffects.WhatAReadDoes | providers/credentials.py:241-245 | a failed read ends the call, a delete of an absent reference is done without a write, any other read prepares the document with that one reference changed |
| CredentialEffects.WhatAWriteDoes | providers/credentials.py:241-252 | a write is applied exactly when it arrives at the version read; the call returns exactly when answered so, is repeated after a conflict or a "cas" error before the third attempt, and fails otherwise |
| CredentialResolver.Server.PutDocument | providers/credentials.py:281-305 | a conditional write: applied exactly when the version still stands and the request arrives |
| CredentialResolver.BaoCredentialResolver.Resolve | providers/credentials.py:201-221 | a fresh cache entry, or the stored token; every cached token was once the stored one |
| CredentialResolver.BaoCredentialResolver.RetryStore | providers/credentials.py:241-252 | the store's retry loop: it succeeds exactly when some attempt is undisturbed and every one before it ended in a conflict or a "cas" error, and the writes it leaves in the server's history |
| CredentialResolver.BaoCredentialResolver.RetryDelete | providers/credentials.py:267-279 | the delete's retry loop, done at once when the reference is absent |
| CredentialResolver.BaoCredentialResolver.StoreToken | providers/credentials.py:223-253 | normal return: stored and no longer cached; error: cache untouched, and with every exchange answered three other writers got in and nothing was written |
| CredentialResolver.BaoCredentialResolver.DeleteToken | providers/credentials.py:255-279 | normal return: absent and no longer cached, without any write when it was absent at the first read; error: as for the store |

## Left out

- ObservationRepository.Repository.ProjectPending: does not fix the clock order and the limit of 10000 of its query; it takes any set
  of envelopes, as SKIP LOCKED may leave any.
- ObservationRepository.Repository.CompleteHistory: does not model coverage states and gap evidence of the streams.
- NotificationStore.Store.RecomputeProjection: does not model `delivered_at`, `external_read_observed_at`,
  `last_attempt_id` and `last_evidence_id` of the projection row.
- NotificationStore.Store.ProcessPending: does not fix which due entry is claimed, nor model maintenance windows and snoozes,
  which roll the transaction back.
- SyncRepository.Repository.EnqueueDue: does not model the due query; duplicate poll operations are allowed and shown harmless.
- ProblemRepository.Repository.CompleteProblemState: does not model the claim fence and the operation and source updates; they are
  those of `SyncRepository.Repository.Complete`, and `FencedProblems` composes the two.
- InventoryRepository.Repository.CompleteHostInventory: does not model the claim fence and the operation and source updates.
- InventoryRepository.Repository.CompleteMetricDefinitions: does not model the claim fence and the slot update.
- OutboxSafety.RecordsSurvive: states finality for one dispatcher only: phase 3 is not fenced by owner.
- ProblemPaging.PagesAreTheWholeList: states the result for a table that does not change between pages.
- HistoryChain.FinishedChainVisitsEverything: states the result for a fixed set of eligible items.
- Transport, HTTP, TLS, logging, usage records, evidence rows of snapshots, error class strings and
  most timestamps: a publish, a provider read or a fetch is an arbitrary outcome given as a parameter.
- Vendor code whose body is not in the repository (`collect_problem_state`, `parse_canonical_value`
  and the worker drivers): results are arbitrary inputs; for the omission theorems the collector is
  assumed to pass on exactly the rows read and the completeness flag (`PassesThrough`).
- Interleavings inside one transaction: every method is atomic, as the row locks of the code intend.
- Changes no code here performs (a new source generation, larger revisions, a new poll epoch) are
  allowed as `Reconfigure`, to larger values only; inside an epoch nothing but a completion or a
  problem claim moves a poll generation.
- Mutual exclusion between two schedulers: the due query runs before the lock.
- The database's collation: history item references and problem ids are numbers in the order of the
  database; Python's `max` over references is taken to agree with it.
- Native value types without a history type: the schema admits none, so no target is dropped from a
  history page.
- The value kind of a definition.
- Validation of credential references, blank-stripping of tokens and the availability check, which
  raise before any request.
- Termination of the notification worker loop.
- `list_metric_history`, whose cursor passes through a float, and the inbox consumer of domain events.
- `shared/alerting_repo.py`, UI, reports, billing, permissions and sessions.
