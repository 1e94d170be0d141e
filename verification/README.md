# Verified model of the Zoolanding integrations service

This project models the concurrent stores of the service as state machines and proves what they keep over every run.

- **Bulk subscription migrations** (`MigrationRecords` to `MigrationStore`, `MigrationWorker`, `WorkIndex`). Jobs, items, account slots and
  subscription claims live in one table. Preview workers, execution workers, a webhook reconciler, a canceller and
  operator commands change them at the same time. An operation carries the copies of rows its worker read, and a copy may
  be any version a row ever had; it commits if the worker's own tests pass on the copies and the write conditions hold of
  the current rows, and otherwise changes nothing (`MigrationProtocol`). A row is validated whenever it is loaded, so a worker
  computes from no row that its validator refuses. `MigrationInvariant` and `MigrationSteps` prove one
  invariant for all runs; `MigrationCounters`, `MigrationLeases`, `MigrationCanary`, `MigrationApproval`,
  `MigrationCancellation` and `MigrationEvents` draw the results from it. `MigrationOrders` says what a job carries and
  when it moves on, `MigrationOutcomes` when a write of an item computed from the current rows commits and what it leaves.
  `MigrationLoads` says which rows can be loaded and which steps leave rows that cannot, `MigrationStuck` which items can
  never end, and `MigrationDeadEnds` and `MigrationScenarios` give the runs in which a promise fails, all starting as in
  `MigrationScenes`. `MigrationStore` is the store as a class: its methods read, compute and write step by step with other
  workers in between, and each is proved to be a run of the protocol, made of its own steps and of steps the others
  offered, with an exact outcome when nobody else runs.
  `MigrationWorker` does the same for the two messages of the worker. `MigrationReplies` says when each call is done with
  nobody else running, and `MigrationBatches` what whole batches and pages leave.
- **Stripe webhooks** (`WebhookIngress`, `WebhookStore`, `Projection`). Two rows per event under one revision, the
  subscription projection, and the order in which events may arrive.
- **Stripe commands** (`Commands`, `ResourceMappings`, `CommandStore`). Receipts per idempotency key, operation claims per
  resource dimension, and mapping rows with three independently versioned groups of fields.
- **Schedule plans** (`SchedulePlan`, `ScheduleRollback`). The next-renewal plan, the rollback guard and the release.
- **Registry** (`RegistryCodec`, `Routing`, `ConnectionRegistry`). The attribute codec and the account routing claims.

Modelling choices that hold throughout:

- SHA-256 and canonical JSON are injective, so a hash is represented by what it hashes; the two 80-bit halves of a preview
  commitment are carried as data in the range 0 to 2^80 - 1.
- A conditional transaction either holds all its conditions and writes all its rows or changes nothing. Other callers are
  lists of operations given to each method, so the results hold for every interleaving.
- One clock that never goes back; a worker's time is at most the table's time.
- Statuses, times and limits are those of the source: 5 attempts, 5 slots, 100,000 items, 25 claims, leases of 30 to 900
  seconds, epochs up to 9,999,999,999, 3 mapping attempts, 10 phases.
- "Past its preview" means that the job has a dry run: a job canceled while previewing keeps zero counts.

What the code does that its own documentation or validators do not say. Each is a lemma below, with the exact condition:

- A next-renewal plan for a subscription without a schedule, or with only its current phase left, can never get a rollback
  guard, because its last phase has no end and no provider schedule has such a phase; such items end in review. With two
  remaining phases a guard is possible.
- When any counter of the job changes between the worker's read and its commit, the success of an item is refused and the
  worker records the item as needing review, although the provider has applied the change. With no change it is recorded,
  unless the item was claimed while it waited for a retry or the canary count of the job is broken; then neither the success
  nor the review is ever recorded.
- A canary that is retried before approval uses up a second canary slot, and the job can then never be approved: a job
  pauses for approval exactly when all canary slots went to first attempts that have ended.
- A claim of an item that waits for a retry keeps the reason of the retry, which the item validator refuses on an applying
  item. Every later load of it raises: the item never changes again, its job never completes and is never canceled, and its
  subscription is never claimed again under that account. This happens to every retry that is claimed, and to no other item.
- A job row can be written that its own validator refuses, and then it can never be loaded or changed again. This happens
  exactly when a cancel ends a job that is previewing with a discovery cursor or awaits approval with pending items, and
  when a finish opens an ended item of a canceling job, completes a canary once too often, or contradicts the state of an
  ended job.
- An applying item gives back its two lease rows when it ends. Once its lease ran out and another item took over its slot,
  it can end only after it is claimed again; a job that is being canceled claims nothing, so its cancellation never ends.
- A cancellation retry is refused for every applying, retryable or update-applied item. A pending-update webhook and every
  review of an answer are refused while a cancellation retry of their item is due, because the state they store may not
  carry that time.
- A worker's answer that commits after the webhook of its item opens the ended item again, so a job can pause for its
  approval with an open canary. A cancellation retry that commits after an expiry webhook opens the item again too; the
  remaining counter of the canceling job is wrong from then on, and the job row is refused at every load. Cancellers that
  count from an old read can commit any number of retries.
- The lateness of a webhook is tested on another read than its commit is conditioned on, so an older webhook can replace a
  newer one; it cannot when the last webhook tested is still the current one.
- A webhook redelivered while its event waits for a retry, or moves on between the two reads, is refused as a conflict.
- A second idempotency key that joins a running command stays open for ever once another key has decided it, and only then.
  A rejected or reviewed command blocks its resource dimension for ever; an accepted one lets higher revisions follow.
- After an account is disabled, its connection can never be bound again, because a bind deletes a placeholder claim that
  no longer exists; until then it can.
- If a subscription returns to an earlier state, the final projection depends on the delivery order.

## Model

| member | source | states |
|---|---|---|
| `MigrationSteps.RunKeepsInv` | src/migration_store.py:3199-3406 | the protocol invariant (row histories, counters as sums over items, lease backing) holds in every state of every run, whatever stale copies the operations were computed from |
| `MigrationInvariant.CommittedCopyIsCurrent` | src/migration_store.py:3199-3235 | a job copy that passes one of the three whole-row write conditions equals the current row, so a field the condition does not compare cannot have changed |
| `MigrationCounters.JobWritesAreAtomic` | src/migration_store.py:2020-2070 | every whole-row job write that commits in a run was computed from the row it replaces, a row that can be loaded: no update of a job row is lost |
| `MigrationCounters.JobChangesAreAtomic` | src/migration_store.py:3199-3307 | in every run a job row changes only by an operation that writes it and was computed from that very row; all other operations leave it alone |
| `MigrationCounters.CountsAreTheHistogram` | src/migration_store.py:3264-3307 | past its preview a job's counts are the exact histogram of its items, and the awaiting and applied counters are exact |
| `MigrationCounters.CompletionReflectsItems` | src/migration_store.py:1523-1565 | execution pauses exactly when items are pending, completes with errors exactly when none is and some needs review or failed, and completes exactly when neither |
| `MigrationCounters.PreviewDependsOnItemsOnly` | src/migration_store.py:3005-3029 | two previews that stored the same items have the same aggregate and so the same dry-run hash, whatever order, paging, replays and rejections led there |
| `MigrationCounters.PreviewBoundsNeverBite` | src/migration_store.py:2964-3002 | an add from the current job row is refused exactly at the item cap and a rejection never: the digest-sum and sign checks never refuse |
| `MigrationOrders.JobsCarryTheirOrder` | src/migration_store.py:312-350 | in every run a job keeps canary size, concurrency, policy and creation time of its creation, its revision counts its committed moves, its cursor is the last one stored until the preview completes, its one dry run is of the aggregate it keeps, and its tax authorization is that of its scheduling; no other operation touches any of it |
| `MigrationOrders.MovesCommitExactly` | src/migration_store.py:1144-1243 | in every run a move computed from the current row commits exactly in its state and at the revision asked for; a preview completes only with the aggregate of its items, and a job is scheduled only from the one dry run it has, before that expires |
| `MigrationOrders.MovesLeadExactly` | src/migration_store.py:2020-2070 | which move leads from which state to which, and that no claim, finish, preview write or clock tick changes the state of a job |
| `MigrationOutcomes.CurrentPutsCommitExactly` | src/migration_store.py:966-1069 | in every run a preview put computed from the current job row commits exactly while the job is previewed, has fewer than 100000 items and not this one, and the item is as a preview makes it; it leaves the item, a new aggregate and everything else as it was |
| `MigrationOutcomes.CurrentRejectionsCommitExactly` | src/migration_store.py:1071-1136 | in every run a preview rejection computed from the current rows commits exactly while the job is previewed and the item pending, and leaves the item in review for the reason given |
| `MigrationLoads.JobStaysValidExactly` | src/migration_store.py:2411-2457 | a committed operation leaves a job row that its validator accepts exactly when it is none of the spoiling ones: a cancel that ends a job with a discovery cursor or with pending items, or a finish that reopens an ended item of a canceling job, completes a canary once too often or contradicts an ended job |
| `MigrationLoads.JobsLoadExactlyUntilSpoiled` | src/migration_store.py:2411-2457 | in every run a job row can be loaded exactly when no committed operation has spoiled it |
| `MigrationLoads.RefusedJobsNeverChange` | src/migration_store.py:2339-2457 | a job row its validator refuses stays exactly as it is in every continuation of every run |
| `MigrationLoads.LiveJobsLoadExactly` | src/migration_store.py:2427-2457 | in every run a job that has neither ended nor begun to cancel can be loaded exactly when its canaries have completed no more often than they were claimed |
| `MigrationLoads.ItemStaysValidExactly` | src/migration_store.py:2719-2728 | an operation leaves an item row that its validator accepts exactly when it is not a committed claim of an item that waits for a retry |
| `MigrationLoads.ItemsLoadExactlyUntilRetryIsClaimed` | src/migration_store.py:1302-1309 | in every run an item row can be loaded exactly when it was never claimed while it waited for a retry, which is exactly when it is not an applying item with a reason |
| `MigrationLeases.OneMutationPerSubscription` | src/migration_store.py:1366-1400 | no two items of one subscription are applying at once under one account key, in any jobs, not even after a lease ran out |
| `MigrationLeases.LeasesAreBounded` | src/migration_store.py:3409-3452 | under one account key at most five items, and at most accountConcurrency items of one job, hold unexpired leases, across expiries, take-overs and stale finishes |
| `MigrationLeases.JobLeasesAreBounded` | src/migration_store.py:3409-3452 | a job whose committed claims are all made under one account holds at most accountConcurrency unexpired leases altogether |
| `MigrationLeases.OneMutationAcrossAccounts` | src/migration_store.py:1366-1400 | a subscription whose committed claims are all made under one account is applied by at most one item at a time, in whatever jobs |
| `MigrationOutcomes.CurrentClaimsCommitExactly` | src/migration_store.py:1284-1400 | in every run a claim computed from the current rows commits exactly when the job runs at the worker's revision, slot and subscription are free, and a new attempt is due with a canary slot left or the approval given, or an exhausted attempt whose lease ran out is taken over in an approved job |
| `MigrationOutcomes.CurrentClaimsLeave` | src/migration_store.py:1302-1400 | a committed claim leaves the item applying under a lease of the worker's length with one attempt more, or as counted when taken over, both lease rows for that attempt, one canary slot less for a new canary attempt, the last of which starts the mutation, and everything else as it was |
| `MigrationBatches.ClaimedRowsAre` | src/migration_store.py:1302-1323 | every row a batch that meets nobody else answers is the page's row made applying for the batch's account until its lease ends, one attempt further and a canary exactly if the mutation has not started, or as counted when taken over |
| `MigrationBatches.BatchesAreMaximal` | src/migration_store.py:1245-1427 | a batch that meets nobody else and does not raise is full, or leaves no item of its page that the worker could still claim in any slot |
| `MigrationCanary.CanaryLimitsUnapprovedClaims` | src/migration_store.py:1324-1353 | in every run at most canarySize claims of a job commit before it is approved |
| `MigrationCanary.ApprovalPath` | src/migration_store.py:408-412 | approval is given only by resuming a paused job that waits for it, and a job comes to wait only when execution pauses it with all canary slots used and ended |
| `MigrationApproval.ApprovalWaitsForFirstAttempts` | src/migration_store.py:1523-1533 | in a run that takes no ended item of the job back, the job pauses for approval only when exactly canarySize items were attempted and each ended on its first attempt |
| `MigrationApproval.PausesExactlyAfterFirstAttempts` | src/migration_store.py:1523-1533 | in such a run, a running unapproved job with pending items can take the execution step exactly when canarySize items were attempted and each ended on its first attempt |
| `MigrationApproval.RetriedJobsAreNeverApproved` | src/migration_store.py:1345-1353 | once an item of an unapproved job is attempted twice the job is never approved: the retry spends a canary slot that can no longer be completed |
| `MigrationScenarios.RetriedCanaryIsReachable` | src/migration_store.py:1324-1353 | a run in which a canary whose lease runs out is claimed twice before the approval, so its job is never approved |
| `MigrationScenarios.ApprovalNeedNotWaitAfterTakeBack` | src/migration_store.py:1743-1849 | a run in which the webhook that ends a canary commits before the answer of its worker, which opens it again, and the job then pauses for approval with its only canary open: the condition on take-backs cannot be dropped |
| `MigrationCancellation.RemainingBreaksExactlyOnReopen` | src/migration_store.py:1743-1849 | in a run that reopens no item of a job, one more committed operation keeps the remaining counter of the canceling job exact if and only if it does not reopen an ended item of it |
| `MigrationScenarios.ReopeningIsReachable` | src/migration_store.py:1743-1849 | a run ending in such a step: a cancellation retry that read its item before an expiry webhook commits after it and opens the item again; the job row is refused at every load from then on and never changes |
| `MigrationCancellation.RemainingCountsUnfinishedItems` | src/migration_store.py:1567-1593 | while a job cancels, pending plus applied is the number of its items that have not ended, and the remaining counter equals it whenever the row can be loaded or no item was reopened |
| `MigrationCancellation.CanceledMeansEveryItemEnded` | src/migration_store.py:1708-1741 | the step to canceled commits only when every item of the job is reverted, skipped, expired, in review or failed |
| `MigrationCancellation.AttemptsAreClaims` | src/migration_store.py:1284-1309 | in every run an item's attempts are exactly the claims that started an attempt on it, at most five |
| `MigrationCancellation.CancellationStepsInRuns` | src/migration_store.py:1653-1706 | a committed cancellation step lowers 6 minus the item's cancellation attempts exactly when the row it is conditioned on is open and either the step ends it or its attempts are no newer than those the step counted from |
| `MigrationCancellation.SixCancellationStepsPerItem` | src/migration_store.py:1616-1706 | at most six cancellation steps of an item commit in a run in which each of them lowers the work on it and no other finish of it opens it again |
| `MigrationScenarios.LateRetriesAreUnbounded` | src/migration_store.py:1676-1706 | without that condition there is no bound: for every n a run in which at least n cancellation steps of one item commit, all counted from the first read |
| `MigrationCancellation.RunKeepsDueTimes` | src/migration_store.py:1672-1705 | only items of canceling or canceled jobs ever carry a cancellation due time |
| `MigrationCancellation.CurrentRetryCommitsExactly` | src/migration_store.py:1653-1706 | a retry the canceller computes from the current rows, both of which it could load, commits exactly for pending, awaiting and applied items, and never for applying, retryable or update-applied ones |
| `MigrationOutcomes.FinishesCountExactly` | src/migration_store.py:1791-1849 | in every run a committed finish, from however old copies, moves every counter of its job by exactly what the current rows of the item before and after it say, a canary completing when it leaves the open states, and touches no other job |
| `MigrationOutcomes.CurrentAnswersCommitExactly` | src/migration_store.py:1429-1449 | in every run an answer stored from the current rows commits exactly when it is for the item's attempt, the item has not settled and is still held, and reason, schedule and guard fit the state |
| `MigrationOutcomes.CurrentRetriesCommitExactly` | src/migration_store.py:1451-1480 | in every run a request for another attempt commits exactly when it is for the item's attempt, gives a reason, names a time below five attempts and none at five, and the item has not settled and is still held |
| `MigrationOutcomes.CurrentEndsCommitExactly` | src/migration_store.py:1616-1651 | in every run the end of a cancellation, computed from the current rows, commits exactly when the job is being canceled, the item has not ended and is still held, and the end is a revert, a skip or a review with its reason |
| `MigrationOutcomes.CurrentWebhooksCommitExactly` | src/migration_store.py:662-774 | in every run a webhook weighed against the current rows is stored exactly when it is not late, asks for a change of an attempted, unsettled item that is still held, and no cancellation retry of the item is due |
| `MigrationDeadEnds.CanceledJobIsUnreadable` | src/migration_store.py:377-378 | a run in which a cancel of a job that awaits approval with an open item commits and leaves a row that can never be loaded again nor changed |
| `MigrationStuck.StuckItemsNeverChange` | src/migration_store.py:1302-1309 | an item that cannot be loaded, such as a claimed retry, stays exactly as it is in every continuation of every run |
| `MigrationStuck.StuckJobsNeverEnd` | src/migration_store.py:1523-1565 | the job of such an item counts a pending item for ever: it never completes and is never canceled |
| `MigrationStuck.StuckSubscriptionsAreNeverClaimed` | src/migration_store.py:1366-1400 | no claim under the account of such an item ever commits again for its subscription, in whatever job |
| `MigrationStuck.ApplyingItemsMoveExactly` | src/migration_store.py:1743-1933 | in every run, an applying item that holds its unexpired lease in a running job that can be loaded changes in some continuation exactly when it has no reason |
| `MigrationStuck.CancelingItemsMoveExactly` | src/migration_store.py:1850-1879 | in every run, an applying item of a job that is being canceled and can be loaded changes in some continuation exactly when it has no reason and some copy that is still accepted names lease rows of its attempt |
| `MigrationStuck.LostItemsNeverChange` | src/migration_store.py:1850-1879 | an applying item of a job that is being canceled, without such a copy, stays as it is for ever, and the job is never canceled |
| `MigrationDeadEnds.StuckRetryIsReachable` | src/migration_store.py:1302-1309 | a run in which a canary asks for a retry and is claimed again: its row never changes again, its job never ends, and its subscription is never claimed again under its account |
| `MigrationDeadEnds.BlockedCancellationIsReachable` | src/migration_store.py:3409-3452 | a run in which the lease of an applied item runs out, another item takes over its slot and the job is canceled: both rows can be loaded, but the item never ends and the job is never canceled |
| `MigrationEvents.ItemWritesAreAtomicExactly` | src/migration_store.py:1743-1790 | a committed claim or finish writes what it would have computed from the current item row exactly when its copy agrees on the fields it carries over without comparing them: the last webhook unless it brings one, and for a claim also reason and schedule |
| `MigrationEvents.EventsAdvanceExactly` | src/migration_store.py:1743-1790 | over any run the last webhook of an item never goes back exactly when no committed write brings an older webhook or was conditioned on a copy with an older one |
| `MigrationScenarios.OlderWebhookReplacesNewer` | src/migration_store.py:665-676 | a run in which two webhooks of an item commit in the wrong order: the older one, tested on an earlier read, replaces the newer one |
| `MigrationEvents.TestedWebhooksAdvance` | src/migration_store.py:665-676 | a committed webhook whose lateness was tested against the current last webhook never replaces it by an older one |
| `MigrationStore.Store.PutPreview` | src/migration_store.py:966-1069 | storing a preview item is a run with at most one put of this item; success means exactly this item is stored, also on redelivery; with nobody else running, it succeeds exactly when the put commits or the item is already stored |
| `MigrationStore.Store.QueryClaimable` | src/migration_store.py:1945-1967 | the claimable rows of the three answers, each item once, up to the limit, or a failure exactly when an answer holds a row that cannot be loaded; fresh rows come back in order, and no claimable item is dropped while all rows fit |
| `MigrationStore.Store.TransactClaim` | src/migration_store.py:1360-1420 | the claim transaction commits exactly when the four conditions hold and then writes all four rows, otherwise nothing |
| `MigrationStore.Store.ClaimOne` | src/migration_store.py:1311-1424 | trying the slots of one item, with the job loaded again before each try, commits exactly the returned claim among steps the others offered; with nobody else running, it raises exactly when the job cannot be loaded, and else claims under the first slot whose claim commits, or under none |
| `MigrationStore.Store.ClaimItems` | src/migration_store.py:1245-1427 | the claim loop commits exactly the returned items, each once, at most the batch limit; with nobody else running, table, answer and failure are those of the specified page, which raises at the first item for which the job cannot be loaded |
| `MigrationStore.Store.MetricsRow` | src/migration_store.py:1791-1849 | the job row of a finish: written exactly when a derived counter changes, with all five counters moved |
| `MigrationStore.Store.Finish` | src/migration_store.py:1743-1933 | the finishing step is a run with at most one committed finish of this item by this caller among steps the others offered; with nobody else running, it succeeds exactly when both rows can be loaded and the finish commits from them or the item already has the wanted state |
| `MigrationStore.Store.CompleteCancellationItem` | src/migration_store.py:1616-1651 | ending an item of a canceling job commits at most one cancellation step; with nobody else running, a call that is done leaves an item that had not ended in the wanted state for the wanted reason, without lease, retry time or cancellation time, and everything else of its row as it was; one that is not done leaves the table as it was |
| `MigrationStore.Store.RetryCancellationItem` | src/migration_store.py:1653-1706 | counting a failed cancellation commits at most once; with nobody else running, a call that is done leaves the item waiting with the new count and time, or at the fifth failure in review as exhausted; one that is not done leaves the table as it was |
| `MigrationStore.Store.ReconcileWebhook` | src/migration_store.py:626-799 | a pending-update webhook commits at most one finish; with nobody else running, a call that is done leaves a row told by job state, item state, event kind and the two price counts: untouched if late, settled or pending; under a canceling job reverted exactly with the source price alone, else a drift review; otherwise applied with the target price alone, expired with the source price alone only while it waits for the provider, a drift review for any other mix; one that is not done leaves the table as it was |
| `MigrationStore.Store.Control` | src/migration_store.py:352-429 | a control command succeeds exactly when one control step commits; with nobody else running, exactly when the job can be loaded, stands at the expected revision and accepts the action in its state, an ended job only a cancel under next renewal with a stored applied item; then a pause leaves it paused, a resume running, a cancel canceled before approval and cancel-requested after it, one revision on |
| `MigrationStore.Store.ComputeDelay` | src/migration_store.py:1497-1549 | the delay computed from the five index answers |
| `MigrationStore.Store.ContinueExecution` | src/migration_store.py:1482-1565 | the execution step is a run with at most one committed transition of this job; otherwise it tells a delay of 0 to 900 seconds; with nobody else running, reply and table are the specified ones, a failure exactly when the job or an index answer cannot be loaded |
| `MigrationStore.Store.FinalizeCancellation` | src/migration_store.py:1708-1741 | true exactly when the step to canceled committed; with nobody else running, exactly when a canceling job that can be loaded has no open and no applied item left to count and no work was found; it raises exactly when the job or the row found cannot be loaded |
| `MigrationReplies.WebhookIsDoneExactly` | src/migration_store.py:626-799 | with nobody else running, a webhook is done exactly when both rows can be loaded and it needs no change, or the item is still held and no cancellation retry of it is due |
| `MigrationReplies.EndIsDoneExactly` | src/migration_store.py:1616-1651 | with nobody else running, the end of an item is done exactly when the item can be loaded and has ended, or its canceling job can be loaded too and the item is still held |
| `MigrationReplies.RetryIsDoneExactly` | src/migration_store.py:1653-1706 | with nobody else running, a counted cancellation failure is done exactly when the item has ended or already waits as asked, or it is the next failure of a pending, applied or awaiting item, or the fifth of one that is still held |
| `MigrationReplies.LookIsAnsweredExactly` | src/migration_store.py:1482-1565 | in every state the invariant allows and with nobody else running, a look at a job raises exactly when the job, or while it runs an index answer, cannot be loaded; otherwise it leaves the state its counters ask for and is repeated only while the job goes on running |
| `MigrationWorker.ApplyItem` | src/handlers/subscription_migration_worker.py:340-503 | recording a provider answer commits at most one finish of the claimed item, with the attempt number of its claim; with nobody else running, a call that is done leaves the row the answer asks for: its own state, schedule and guard after a recorded success; review for its reason; a retry after two to the attempts plus jitter seconds, at most 900, below five attempts and an exhausted review at five; review as provider-unknown for a permanent error or an unrecordable success; one that is not done leaves the table as it was |
| `MigrationWorker.SuccessIsRecordedExactly` | src/handlers/subscription_migration_worker.py:451-503 | a success the provider applied is recorded exactly when the job row the worker read is still the current one, the item was not claimed while it waited for a retry, and the job's canaries completed no more often than they were claimed; the review asked for next commits exactly under the last two conditions |
| `MigrationReplies.AnswerIsDoneExactly` | src/handlers/subscription_migration_worker.py:340-526 | with nobody else running, an answer is recorded exactly when both rows can be loaded, the item is at that attempt, has not settled and is still held, a guard comes only with a schedule, and a review meets no due cancellation retry |
| `MigrationWorker.Execute` | src/handlers/subscription_migration_worker.py:299-338 | an execution message commits only claims of its batch, as many as the canary size before the mutation has started and the account concurrency after it, at most one finish per claimed item, and one job transition; its delay is 0 to 900 seconds; with nobody else running, table and reply are those of a batch, its answers and one look |
| `MigrationBatches.ExecutionRecordsEveryClaim` | src/handlers/subscription_migration_worker.py:299-338 | an execution message that claims its batch and has its answers recorded leaves every claimed item with its own answer, recorded on the row the claim stored, and every other item as it was, and then looks at the job and replies as that look says |
| `MigrationWorker.CancelOne` | src/handlers/subscription_migration_worker.py:545-615 | one item of a cancellation: at most one committed cancellation step; with nobody else running, an item that is not due or still leased is left alone until then, a pending one is skipped, an open provider update is looked at again after a minute, a provider end is stored or else put into review, and an error that may be repeated is counted with its backoff |
| `MigrationWorker.Cancel` | src/handlers/subscription_migration_worker.py:528-631 | a cancellation message commits only cancellation steps of its items and the final step; it looks again within a minute and never after a deferred item is due, and ends only with the job canceled and no item deferred; with nobody else running, table and reply are those of its page and the final step |
| `MigrationBatches.PagesAreCanceled` | src/handlers/subscription_migration_worker.py:528-631 | a cancellation page of which nothing is refused takes every item through its own cancellation, is looked at again exactly when some item waits, at the soonest of their times, and leaves all other items |
| `MigrationReplies.CancellationEndsExactly` | src/handlers/subscription_migration_worker.py:617-631 | when nothing of the page waits, the message raises exactly when the job or the open row the index shows cannot be loaded, is the last one exactly when the canceling job has nothing left and the index shows nothing, and else looks again in two seconds |
| `WorkIndex.OpenItemsAreIndexed` | src/migration_store.py:3467-3493 | an item is in the work index exactly while it is in one of six open states, under a due time of at most ten digits: its next cancellation attempt if it has one, else zero, or the time from which on it can be claimed while it waits for a retry or is leased |
| `WorkIndex.KeyOrderIsDueOrder` | src/migration_store.py:3491-3492 | the text order of the zero-padded keys is the order by due time, then item id |
| `WorkIndex.DueTestIsExact` | src/migration_store.py:2000-2003 | the key test against the padded time and a tilde selects exactly the items due by then |
| `WorkIndex.QueryReturnsFirstDue` | src/migration_store.py:1969-2018 | a bounded query returns the first rows of the partition in due order, only due ones, and as many as it may or all that are due |
| `WorkIndex.ExecutionWakesOnTime` | src/migration_store.py:1499-1549 | for every running job of every run, with exact index answers, the answers can be loaded exactly unless the applying item whose lease ends first is a claimed retry; the delay is zero exactly when some item is claimable, else the clamped time to the first due item, else none; the two-second fallback is never taken |
| `WebhookIngress.RowsStayPaired` | src/stripe_store.py:91-218 | outbox and receipt exist together with equal revisions and paired statuses in every run |
| `WebhookIngress.ProcessedIsAbsorbing` | src/stripe_store.py:871-934 | the rows of a processed event never change again, in any run |
| `WebhookIngress.RevisionCountsCommits` | src/stripe_store.py:220-318 | the processing revision counts the committed operations on the event |
| `WebhookIngress.OnlyTheLastClaimFinishes` | src/stripe_store.py:320-435 | a completion or retry commits only if the last committed operation on the event is the claim that gave it its revision and sequence |
| `WebhookIngress.AtMostOneCompletion` | src/stripe_store.py:692-934 | at most one completion of an event commits in any run |
| `WebhookIngress.OutgoingPutsNeverConflict` | src/stripe_store.py:898-909 | the conditions on outgoing event puts never refuse a completion that holds its claim |
| `WebhookIngress.AtMostTwoRetries` | src/handlers/stripe_event_worker.py:123-144 | an event returns to pending for a missing mapping at most twice in any run, from however old an image |
| `WebhookIngress.RedeliveryIsRefusedOnlyDuringRetry` | src/stripe_store.py:168-216 | a redelivered webhook is refused exactly while its event waits for a retry; a reactivation asked from current rows always commits |
| `WebhookIngress.UpdatesAreSequential` | src/stripe_store.py:750-832 | the committed updates of a subscription have revisions 1, 2, 3, ... and strictly increasing event time and id, and the stored projection is the last |
| `WebhookIngress.PlansAreCurrent` | src/stripe_store.py:587-690 | a projection put that commits was planned from the row it replaces |
| `WebhookStore.Store.AcceptSupported` | src/stripe_store.py:91-218 | a new event gets its two rows; a redelivery is answered from the receipt and the outbox row, read one after the other with others in between, and reactivates by one conditional transaction |
| `WebhookStore.RedeliveryIsRefusedExactly` | src/stripe_store.py:168-216 | with others between its two reads, a redelivery is refused exactly when the event waits for a retry or, if it has moved on meanwhile, unless it is back to being queued |
| `WebhookStore.RedeliveryIsAnsweredExactly` | src/stripe_store.py:91-218 | for any others between its reads and before its reactivation, a redelivery is told that the event is dealt with exactly when two reads of one state say so, and refused exactly when the event waits for a retry, was sent to wait before the reactivation, or moved on between the reads without being queued again |
| `WebhookStore.Store.ClaimIngress` | src/stripe_store.py:320-435 | the reply grants the claim exactly when the rows are now held under this revision and sequence, also on redelivery |
| `WebhookStore.Store.RetryIngress` | src/stripe_store.py:473-585 | true exactly when the rows now wait for a retry under the next revision |
| `WebhookStore.Store.CompleteIngress` | src/stripe_store.py:692-934 | a completion is refused when its receipt is no longer processing at the claimed revision; else one transaction writes rows, projection and outgoing events together or nothing, and it is done exactly when the event is then completed under the next revision |
| `WebhookStore.Store.Process` | src/handlers/stripe_event_worker.py:44-220 | all that runs in one pass and its outcome, for any others in between; after a pass that nobody disturbs, by what the worker found out: a newer subscription state with another hash, or the first one, is the stored projection, logged and sent, any other state leaves the projection and is ignored; a missing mapping waits for a retry exactly while attempts are left; every other finding ends in its own receipt status |
| `WebhookStore.UndisturbedPassFinishes` | src/handlers/stripe_event_worker.py:44-220 | a pass over the current image of a pending event always finishes it when nobody disturbs, and leaves receipt, projection, update log and outgoing events as the worker's finding asks |
| `Projection.EveryOrderEndsInGreatestEvent` | src/stripe_store.py:659-690 | with pairwise different state hashes every delivery order, with any redeliveries, ends in the greatest event's row |
| `Projection.OrderMattersExactlyWhenMasked` | src/stripe_store.py:659-675 | all orders of delivering each event once end in the newest state if and only if no older event had that state with a different one after it |
| `Commands.AcceptedRevisionsIncrease` | src/stripe_store.py:1126-1291 | the accepted revisions of a resource dimension strictly increase, and each belongs to one request |
| `Commands.OneMutationPerSubscriptionRevision` | src/stripe_store.py:2004-2011 | a subscription revision admits at most one accepted mutation |
| `Commands.DecidedReceiptsStay` | src/stripe_store.py:1701-1788 | accepted, rejected and needs-review receipts never change |
| `Commands.OneStartPerRevision` | src/stripe_store.py:1162-1278 | at most one claim starts the work for a revision of a dimension; every other joins or is refused |
| `Commands.FirstClaimsCommitExactly` | src/stripe_store.py:1126-1188 | in every run a command that found no operation row is claimed under a fresh key exactly when no command of its dimension, for subscription mutations of its subscription and revision, has ever been claimed |
| `Commands.FailedOperationsBlock` | src/stripe_store.py:1229-1274 | a rejected or needs-review operation blocks its dimension for ever: its row and its accepted revisions never change again |
| `Commands.DimensionsGoOnExactlyUnlessFailed` | src/stripe_store.py:1162-1278 | in every run a dimension that has carried a command can still reach a higher revision in some continuation exactly unless its last command was rejected or needs review |
| `Commands.HigherRevisionsFollowAcceptance` | src/stripe_store.py:1162-1278 | a claim of a higher revision under a fresh key, whatever it has read, can commit exactly while the dimension is free or its last command was accepted, and then commits from the current row |
| `Commands.StuckExactlyWhenDecidedElsewhere` | src/stripe_store.py:1604-1650 | in every run an open receipt is stuck exactly when its command has been decided under some other idempotency key; until then it can be accepted at once |
| `Commands.StuckReceiptsStay` | src/stripe_store.py:1604-1650 | a stuck receipt stays open for ever |
| `Commands.SharedCommandStrandsTheSecondKey` | src/stripe_store.py:1189-1228 | two idempotency keys that join one command strand the second one when the first is accepted |
| `Commands.MappingRevisionsNeverFall` | src/stripe_store.py:1790-1852 | over any run of commands a mapping stays and none of its revisions falls |
| `ResourceMappings.DifferentGroupsCommute` | src/stripe_store.py:2169-2193 | writes of different dimensions commute and do not affect each other's conditions, even when computed from stale reads |
| `ResourceMappings.GroupsAreIndependent` | src/stripe_store.py:1790-1852 | after any run of writes the fields of a dimension are what its own writes alone leave: none is lost |
| `ResourceMappings.InterleavingsAgree` | src/stripe_store.py:1790-1852 | runs of writes that agree on the order within each dimension end in the same row, however the dimensions interleave |
| `ResourceMappings.RunsOnlyGrow` | src/stripe_store.py:2169-2193 | in a run of computed writes no revision of a mapping falls |
| `ResourceMappings.SameGroupIsExclusive` | src/stripe_store.py:1830-1852 | of two writers that read the same version of a dimension only one commits |
| `ResourceMappings.CommittedWriteStores` | src/stripe_store.py:1815-1852 | a committed write computed from a read stores the proposed row if there was none, and else the proposed version and fields of its group, an immutable advance only its revision, and leaves the other groups |
| `ResourceMappings.ComputedExactly` | src/stripe_store.py:2169-2193 | a write is computed exactly when there is no row yet or the proposal is ahead in one dimension and has the fields that dimension stores |
| `CommandStore.Store.Claim` | src/stripe_store.py:1126-1291 | the trace and the reply of a claim for any others in between: the caller may perform the command exactly when this very call started it, else it is told its own stored receipt or refused |
| `CommandStore.Store.MoveTo` | src/stripe_store.py:1701-1788 | a status change moves receipt and operation together; true exactly when both rows of the command show the target status |
| `CommandStore.Store.PlanWrites` | src/stripe_store.py:1790-1813 | the mapping writes of a completion, one per resource, refused exactly when some resource does not advance one dimension |
| `CommandStore.Store.Finish` | src/stripe_store.py:1520-1670 | a completion is mapping writes and both status changes together, none without a receipt or a plannable write; done exactly when the receipt is accepted afterwards; one that commits stores, for every resource, the proposed row if there was none, and else the proposed version and fields of the group in which it was ahead |
| `CommandStore.Store.Execute` | src/stripe_commands.py:81-214 | the answer of a command and all that ran for any others in between, and every answer is backed by its receipt; with nobody else running, answer, receipt and operation row are told by the standing of the command and the answer of the provider: accepted with its proposals stored, reviewed, rejected, or open |
| `CommandStore.FinalAnswersRepeat` | src/stripe_commands.py:81-214 | once a call is answered accepted or reviewed, every later call under its key is told the same, calls no provider and writes nothing |
| `SchedulePlan.BuildNextRenewalPlan` | src/subscription_migrations.py:402-464 | the builder succeeds exactly on plannable subscriptions, with the specified plan, and its refusals name their cause |
| `SchedulePlan.PlannableExactly` | src/subscription_migrations.py:402-464 | which subscriptions can be planned, line by line: different prices, no pending update, one source line and no target line, and a released schedule of at most ten remaining phases with one source line each and no target line after the current one |
| `SchedulePlan.PlanWithoutScheduleSplitsAtPeriodEnd` | src/subscription_migrations.py:417-432 | the plan of a subscription without a schedule is its current period with all its lines and settings, and an open phase from the period's end with the source line moved |
| `SchedulePlan.ReplacePhasePrice` | src/subscription_migrations.py:729-740 | the in-place replacement of the one source line, refused when there is none or more than one |
| `SchedulePlan.PlanMovesOneLinePerLaterPhase` | src/subscription_migrations.py:445-450 | the current phase is untouched; every later phase has one line moved from source to target price and nothing else changed but the proration behaviour |
| `SchedulePlan.BaseKeepsTheSchedule` | src/subscription_migrations.py:425-444 | the plan is for the subscription's own schedule and settings; the phases to come are the schedule's own; an appended phase starts where the last one ends and has no end |
| `SchedulePlan.SwappingBackRecoversLines` | src/subscription_migrations.py:729-736 | moving the target price back to the source price recovers the original lines of every phase |
| `ScheduleRollback.GuardAllows` | src/handlers/subscription_migration_worker.py:865-914 | the rollback test as computed is the test as specified |
| `ScheduleRollback.ReleasePhases` | src/providers/stripe_adapter.py:1543-1567 | the suffix of the original phases the release sends, or a review |
| `ScheduleRollback.AllowedRollbackSeesThePlan` | src/handlers/subscription_migration_worker.py:830-914 | if the test accepts with a guard made for the same item, the schedule's phases from the current one on are a suffix of that item's plan |
| `ScheduleRollback.AllowedExactly` | src/handlers/subscription_migration_worker.py:865-914 | the rollback is allowed exactly for the item's own schedule, not gone back before the guarded phase, that is as the guard saw it or goes on along the plan from the only planned phase that starts with its current one |
| `ScheduleRollback.GuardIsMadeExactly` | src/handlers/subscription_migration_worker.py:830-863 | a guard is made exactly when the provider shows the item's own subscription and schedule, released, with the planned phases from the current one on and the planned settings; it holds what the provider shows |
| `ScheduleRollback.RestoredExactly` | src/providers/stripe_adapter.py:1543-1567 | a phase is where the release starts exactly when it alone starts at the date and is not before the current one, and what is released is the suffix from it |
| `ScheduleRollback.RollbackRestoresOriginalSuffix` | src/providers/stripe_adapter.py:1543-1583 | the release restores exactly the original suffix from the same phase, each phase the original of the migrated one in its place, if no other original phase starts at the anchor; otherwise it asks for a review |
| `ScheduleRollback.GuardsExistExactlyForTwoRemainingPhases` | src/handlers/subscription_migration_worker.py:841-856 | a plannable item gets a guard from some state of its subscription exactly when its schedule is known and its plan was made of at least two remaining phases of one |
| `RegistryCodec.RoundTrip` | src/registry.py:1199-1237 | decoding an encoded value returns it, at any depth |
| `RegistryCodec.IntRoundTrip` | src/registry.py:1204-1228 | reading a printed integer returns it, whatever its size and sign |
| `RegistryCodec.EncodingsAreDistinct` | src/registry.py:1199-1212 | different values have different encodings |
| `RegistryCodec.OnlyEncodingsDecode` | src/registry.py:1215-1237 | whatever decodes is the encoding of its value up to the spelling of integers |
| `RegistryCodec.WireFormat` | src/registry.py:1199-1212 | each kind of value is one field under its own tag, with entries and elements in order and integers as text that reads back |
| `RegistryCodec.PrintedDigitsAreDecimal` | src/registry.py:1204-1205 | a number is printed as its decimal digits without a leading zero |
| `Routing.BoundConnectionsOwnTheirRoute` | src/registry.py:976-991 | a Stripe connection with an account owns that account's claim under its registration hash, and a claimed account belongs to such a connection |
| `Routing.OneConnectionPerAccount` | src/registry.py:775-839 | no two connections of one environment and mode have the same account |
| `Routing.RoutingFindsTheBoundConnection` | src/registry.py:430-519 | routing returns a connection exactly when it is a Stripe connection of the environment and its mode that has the account and is active and ready, or, for a deauthorized account, pending or active |
| `Routing.DisabledConnectionsAreNeverBoundAgain` | src/registry.py:923-973 | after an account is disabled its connection never gets an account again |
| `Routing.BindsExactlyUntilDisabled` | src/registry.py:299-385 | in every run a Stripe connection without account holds its placeholder exactly when no disable of it committed, so a bind of its current pending row to a free account commits exactly then |
| `Routing.LiveExactlyAfterActivation` | src/registry.py:162-209 | in every run a connection is active and ready exactly when the last committed operation on it was its activation, or its registration as such; its readiness is what the last operation that sets it says, a confirmed account and a disable taking it back |
| `ConnectionRegistry.Registry.BindStripeAccount` | src/registry.py:299-385 | a bind succeeds exactly when the transaction planned from its read commits after whatever others did and the connection can then be read again; the commit leaves the connection as it was but with this account and ownership, one revision on, owning the account's claim, and not ready if it had the account before |
| `ConnectionRegistry.BindSucceedsExactly` | src/registry.py:299-385 | with nobody in between, a bind succeeds exactly for a pending Stripe connection at the expected revision that has no account, holds its placeholder and wants a free account, or already has this account under this ownership |
| `ConnectionRegistry.DisableSucceedsExactly` | src/registry.py:387-428 | with nobody in between, a disable succeeds exactly for the Stripe connection that has the account, at the expected revision and in whatever status |
| `ConnectionRegistry.Registry.DisableStripeAccount` | src/registry.py:387-428 | a disable succeeds exactly when the transaction planned from its read commits and the connection can then be read again; the commit leaves the connection as it was but disabled, without account and not ready, one revision on, and the account unclaimed |
| `ConnectionRegistry.Registry.StripeWebhookConnection` | src/registry.py:430-519 | the two-read lookup returns what its two reads determine, only a connection bound and fit at the second read, and without others in between exactly the routed one |

## Left out

- MigrationLeases.OneMutationPerSubscription: is stated per account key; `OneMutationAcrossAccounts` covers all accounts for a subscription that is claimed under one, which is the provider's rule and not part of this model.
- MigrationLeases.LeasesAreBounded: both bounds are per account key; `JobLeasesAreBounded` covers all accounts for a job that is claimed under one.
- MigrationCancellation.RemainingCountsUnfinishedItems: for the remaining counter assumes a row that can be loaded, or that no committed finish reopened an ended item of the canceling job; `RemainingBreaksExactlyOnReopen` shows that this condition is exact for every step and `ReopeningIsReachable` that it can fail.
- MigrationStuck.StuckSubscriptionsAreNeverClaimed: is about the account the item was claimed under; claim rows are per account key.
- MigrationStuck.ApplyingItemsMoveExactly: assumes an unexpired lease in a running job; after the lease ran out an item also moves by being claimed again, which depends on the slots and on the approval of the job. `CancelingItemsMoveExactly` covers jobs that are being canceled, with or without a lease.
- MigrationCancellation.SixCancellationStepsPerItem: assumes the exact condition of `CancellationStepsInRuns` for each committed step of the item; `LateRetriesAreUnbounded` shows that there is no bound without it.
- MigrationApproval.ApprovalWaitsForFirstAttempts: assumes that no ended item of the job is taken back by a late answer; `ApprovalNeedNotWaitAfterTakeBack` shows that it can happen.
- MigrationApproval.PausesExactlyAfterFirstAttempts: assumes the same.
- MigrationApproval.RetriedJobsAreNeverApproved: assumes the same.
- MigrationEvents.ItemWritesAreAtomicExactly: is about the read a write is conditioned on; the state a cancellation or webhook finish asks for comes from an earlier read, whose effect `CancellationStepsInRuns` and `EventsAdvanceExactly` state.
- WorkIndex.ExecutionWakesOnTime: assumes that the index answers list exactly the current items; the index may lag, and then the store's results still hold because index answers are only copies there.
- MigrationStore.Store.ReconcileWebhook: starts from the item the active-migration lookup names; that lookup and its own checks, the pending-update flag and the follow-up of the reply are not modelled.
- MigrationStore.Store.ClaimItems: an index page may hold any versions of items; how the provider then answers for a claimed item is not modelled.
- WebhookStore.Store.AcceptSupported: the global replay sentinel and the comparison of immutable fields are not modelled; the two reads after a refused reactivation are one moment, as are the fallback reads of the other webhook calls.
- RegistryCodec.IntRoundTrip: leaves out the interpreter's limit on the length of decimal text and digits outside ASCII.
- SchedulePlan.BuildNextRenewalPlan: takes snapshots that satisfy the snapshot's own shape rules; the fields no rule of the plan looks at are carried as one text.
- The validators' rules on fields the model does not have (offers, prices, candidate scope, row keys, key sets) are taken to hold of every stored row.
- The provider calls themselves, the immediate-proration plan and the partial-schedule retry test of the migration worker: what a call answers is an input of `MigrationWorker`.
- MigrationWorker.Cancel: starts with the job already canceling; the step before it is the protocol's BeginCancel operation.
- The other store commands of a migration job (schedule, start, advance, complete preview, reject preview item, begin cancel) are operations of the protocol but have no method of their own in the store class.
- Outgoing event payloads, command-receipt replay of migration commands, client request tokens, time-to-live, status paging, tax approval records.
- Discount code claims, provider object indexes and checkout links beside the mapping rows.
- SMTP activation and its isolation claims, bindings, onboarding, authorization, signature verification.
- Field-by-field input checks: inputs are well formed.
