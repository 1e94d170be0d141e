/**
 What the writes of item rows come to: when a claim, a preview put or a rejection computed from the
 current rows commits, and everything it leaves behind, told without the functions that compute it.
 */
module MigrationOutcomes {
  import opened Types
  import opened MigrationRecords
  import opened MigrationProtocol
  import opened MigrationTotals
  import opened MigrationInvariant
  import opened MigrationSteps
  import opened MigrationCounters

  /** The current rows of an item and its job in a run. */
  lemma CurrentRows(ops: seq<Op>, k: ItemKey)
    requires k in Run(EMPTY, ops).items
    ensures var s := Run(EMPTY, ops);
            && k.job in s.jobs && (k, s.items[k]) in s.itemCopies && (k.job, s.jobs[k.job]) in s.jobCopies
            && JobOk(s.jobs[k.job]) && ItemOk(s.items[k])
  {
    hide Run;
    var s := Run(EMPTY, ops);
    EmptyInv();
    RunKeepsInv(EMPTY, ops);
    assert (k, s.items[k]) in s.itemCopies;
    ItemCopyFacts(s, k, s.items[k]);
    JobCopyFacts(s, k.job, s.jobs[k.job]);
    hide Inv;
  }

  // ---------------------------------------------------------------- claims

  /** The worker's own clock, lease length and slot are in their ranges, and the two lease rows it wants
      are free: the slot's lease has run out, and the subscription's too and is this item's own. */
  predicate MayLease(s: System, k: ItemKey, c: Job, r: ClaimRequest) {
    && 1 <= r.now <= s.now && 30 <= r.leaseSeconds <= 900 && r.now + r.leaseSeconds <= 9_999_999_999
    && 0 <= r.slot < c.accountConcurrency
    && (SlotKey(r.account, r.slot) in s.slots ==> s.slots[SlotKey(r.account, r.slot)].expiresAt <= r.now)
    && (ClaimKey(r.account, k.subscription) in s.claims ==>
          && s.claims[ClaimKey(r.account, k.subscription)].expiresAt <= r.now
          && s.claims[ClaimKey(r.account, k.subscription)].owner == k)
  }

  /** A new attempt: the item is pending, its retry is due, or its lease ran out before its last attempt. */
  predicate MayAttempt(i: Item, at: int) {
    || i.state == Pending
    || (i.state == RetryableFailure && i.nextAttemptAt.Some? && i.nextAttemptAt.value <= at)
    || (i.state == Applying && i.attempts < 5 && i.holder.Some? && i.holder.value.expiresAt <= at)
  }

  /** The lease of the last attempt ran out: the item is taken over, and nothing is attempted. */
  predicate MayTakeOver(i: Item, at: int) {
    i.state == Applying && i.attempts == 5 && i.holder.Some? && i.holder.value.expiresAt <= at
  }

  /** In every run a claim computed from the current rows, which can be loaded, commits exactly when the job runs
      at the revision the worker was started for, the lease rows are to be had, and either a new attempt is due
      and the job has a canary slot left for a canary batch, or is approved for another; or the item only has to
      be taken over, and the job is approved. */
  lemma CurrentClaimsCommitExactly(ops: seq<Op>, k: ItemKey, r: ClaimRequest)
    requires var s := Run(EMPTY, ops); k in s.items && k.job in s.jobs && ValidJob(s.jobs[k.job]) && ValidItem(s.items[k])
    ensures var s := Run(EMPTY, ops); var c, i := s.jobs[k.job], s.items[k];
            Commits(s, ClaimItem(k, c, i, r)) <==>
              && c.state == Running && c.revision == r.expectedRevision && MayLease(s, k, c, r)
              && (|| (MayAttempt(i, r.now) && if r.canaryBatch then c.canaryClaims < c.canarySize else c.canaryApproved)
                  || (MayTakeOver(i, r.now) && c.canaryApproved))
  {
    hide Run;
    hide Commits;
    hide JobOk;
    hide ItemOk;
    hide ValidJob;
    hide ValidItem;
    CurrentRows(ops, k);
    var s := Run(EMPTY, ops);
    var c, i := s.jobs[k.job], s.items[k];
    CanaryBudget(c);
    AttemptsOfStates(i);
    CurrentClaimCommits(s, k, r);
  }

  lemma CanaryBudget(c: Job)
    requires JobOk(c)
    ensures (c.mutationStarted <==> c.canaryClaims == c.canarySize) && c.canaryClaims <= c.canarySize
    ensures c.canaryApproved ==> c.mutationStarted
  {
  }

  lemma AttemptsOfStates(i: Item)
    requires ValidItem(i)
    ensures (i.state == Pending ==> i.attempts == 0) && (i.state == RetryableFailure ==> i.attempts < 5) && i.attempts <= 5
  {
  }

  lemma CurrentClaimCommits(s: System, k: ItemKey, r: ClaimRequest)
    requires k in s.items && k.job in s.jobs && (k, s.items[k]) in s.itemCopies && (k.job, s.jobs[k.job]) in s.jobCopies
    requires ValidJob(s.jobs[k.job]) && ValidItem(s.items[k])
    ensures var c, i := s.jobs[k.job], s.items[k];
            Commits(s, ClaimItem(k, c, i, r)) <==>
              && c.state == Running && c.revision == r.expectedRevision && MayLease(s, k, c, r) && MayClaim(i, r.now)
              && (if ClaimsCanary(i, r) then !c.mutationStarted && c.canaryClaims < c.canarySize
                  else c.mutationStarted && c.canaryApproved)
  {
    hide ValidJob;
    hide ValidItem;
    hide MayClaim;
  }

  /** What a claim leaves: the item is applying under a lease of the worker's length, with one attempt more and
      marked as a canary if the batch is one, or as it was counted when it is taken over; a new canary attempt
      takes a canary slot, and the last one starts the mutation. The two lease rows are this attempt's. Nothing
      else of the rows changes, and no other row. */
  predicate ClaimLeaves(was: System, s: System, k: ItemKey, r: ClaimRequest)
    requires k in was.items && k.job in was.jobs
  {
    var i, c := was.items[k], was.jobs[k.job];
    var again := i.state == Applying && i.attempts == 5;
    var attempts, until := if again then 5 else i.attempts + 1, r.now + r.leaseSeconds;
    var item := Item(Applying, i.reason, attempts, i.scheduleId, i.rollbackGuard, Some(Holder(r.account, r.slot, until)), None,
                     i.cancellationAttempts, i.cancellationNextAttemptAt, if again then i.canary else r.canaryBatch,
                     i.lastEvent, i.digest);
    && s.items == was.items[k := item]
    && s.jobs == (if again || !r.canaryBatch then was.jobs
                  else was.jobs[k.job := c.(canaryClaims := c.canaryClaims + 1,
                                            mutationStarted := c.canaryClaims + 1 == c.canarySize)])
    && s.slots == was.slots[SlotKey(r.account, r.slot) := Lease(k, attempts, until)]
    && s.claims == was.claims[ClaimKey(r.account, k.subscription) := Lease(k, attempts, until)]
    && s.now == was.now
  }

  lemma CurrentClaimsLeave(ops: seq<Op>, k: ItemKey, r: ClaimRequest)
    requires var s := Run(EMPTY, ops); k in s.items && k.job in s.jobs && Commits(s, ClaimItem(k, s.jobs[k.job], s.items[k], r))
    ensures var s := Run(EMPTY, ops); ClaimLeaves(s, Effect(s, ClaimItem(k, s.jobs[k.job], s.items[k], r)), k, r)
  {
    hide Run;
    hide JobOk;
    hide ItemOk;
    hide ClaimLeaves;
    CurrentRows(ops, k);
    CanaryBudget(Run(EMPTY, ops).jobs[k.job]);
    CurrentClaimLeaves(Run(EMPTY, ops), k, r);
  }

  lemma CurrentClaimLeaves(s: System, k: ItemKey, r: ClaimRequest)
    requires k in s.items && k.job in s.jobs && Commits(s, ClaimItem(k, s.jobs[k.job], s.items[k], r))
    requires s.jobs[k.job].canaryClaims <= s.jobs[k.job].canarySize
    ensures ClaimLeaves(s, Effect(s, ClaimItem(k, s.jobs[k.job], s.items[k], r)), k, r)
  {
    hide ReadsAreValid;
    hide CanaryUnchanged;
    hide StillRunning;
    hide ItemUnchanged;
    hide SlotFree;
    hide ClaimFree;
  }

  // ---------------------------------------------------------------- finishes

  /** Its worker still holds the item: the lease has not run out, or nobody has taken over its slot since. */
  predicate IsStillHeld(s: System, k: ItemKey, i: Item) {
    i.holder.Some? ==>
      || s.now < i.holder.value.expiresAt
      || (var slot := SlotKey(i.holder.value.account, i.holder.value.slot);
          slot in s.slots && s.slots[slot].owner == k && s.slots[slot].attempt == i.attempts)
  }

  predicate HasSettled(state: ItemState) { state == Reverted || state == Skipped || state == NeedsReview || state == PermanentFailure }

  /** A finish computed from the current rows commits exactly when the item has not settled, is still held, and
      what is asked of it is for its attempt and can be stored. */
  lemma CurrentFinishCommits(ops: seq<Op>, k: ItemKey, c: Caller)
    requires var s := Run(EMPTY, ops); k in s.items && k.job in s.jobs && ValidJob(s.jobs[k.job]) && ValidItem(s.items[k])
    requires CallerReadsAreValid(c) && CallerCopies(Run(EMPTY, ops), k, c)
    ensures var s := Run(EMPTY, ops); var i := s.items[k];
            Commits(s, FinishItem(k, s.jobs[k.job], i, c)) <==>
              && FinishValueOf(c).Some? && FinishValueOf(c).value.attempts == i.attempts
              && !HasSettled(i.state) && IsStillHeld(s, k, i) && ValidItem(FinishedItem(i, FinishValueOf(c).value))
  {
    hide Run;
    hide Inv;
    hide ValidJob;
    hide ValidItem;
    hide JobOk;
    hide ItemOk;
    hide FinishValueOf;
    hide FinishedItem;
    hide ChangesMetrics;
    hide CallerReadsAreValid;
    hide CallerCopies;
    var s := Run(EMPTY, ops);
    CurrentRows(ops, k);
    EmptyInv();
    RunKeepsInv(EMPTY, ops);
    LeaseFacts(s, k);
  }

  /** In every run an answer to an attempt, stored from the current rows, commits exactly when it is for the item's
      attempt, the item has not settled and is still held, and its reason and its rollback guard fit its state. */
  lemma CurrentAnswersCommitExactly(ops: seq<Op>, k: ItemKey, attempts: int, state: ItemState, reason: Option<Reason>,
                                    scheduleId: Option<string>, rollbackGuard: Option<string>)
    requires var s := Run(EMPTY, ops); k in s.items && k.job in s.jobs && ValidJob(s.jobs[k.job]) && ValidItem(s.items[k])
    ensures var s := Run(EMPTY, ops); var i := s.items[k];
            Commits(s, FinishItem(k, s.jobs[k.job], i, CompleteItem(attempts, state, reason, scheduleId, rollbackGuard))) <==>
              && i.attempts == attempts && 1 <= attempts && !HasSettled(i.state) && IsStillHeld(s, k, i)
              && (state == Applied || state == PendingPayment || state == PendingCustomerAction || state == NeedsReview)
              && (reason.Some? <==> state == NeedsReview)
              && (rollbackGuard.Some? ==> scheduleId.Some?) && (state == Applied && scheduleId.Some? ==> rollbackGuard.Some?)
              && (state == NeedsReview ==> i.cancellationNextAttemptAt.None?)
  {
    hide Run;
    hide Commits;
    hide ValidJob;
    CurrentFinishCommits(ops, k, CompleteItem(attempts, state, reason, scheduleId, rollbackGuard));
  }

  /** So does a request for another attempt, which names its time, or for a review after the last one, which does not. */
  lemma CurrentRetriesCommitExactly(ops: seq<Op>, k: ItemKey, attempts: int, reason: Option<Reason>, at: Option<int>,
                                    scheduleId: Option<string>)
    requires var s := Run(EMPTY, ops); k in s.items && k.job in s.jobs && ValidJob(s.jobs[k.job]) && ValidItem(s.items[k])
    ensures var s := Run(EMPTY, ops); var i := s.items[k];
            Commits(s, FinishItem(k, s.jobs[k.job], i, RetryItem(attempts, reason, at, scheduleId))) <==>
              && i.attempts == attempts && 1 <= attempts && !HasSettled(i.state) && IsStillHeld(s, k, i) && reason.Some?
              && (i.rollbackGuard.Some? ==> scheduleId.Some?)
              && (if attempts < 5 then at.Some? && 1 <= at.value <= 9_999_999_999 else at.None? && i.cancellationNextAttemptAt.None?)
  {
    hide Run;
    hide Commits;
    hide ValidJob;
    CurrentFinishCommits(ops, k, RetryItem(attempts, reason, at, scheduleId));
  }

  /** In every run the end of a cancellation, computed from the current rows, commits exactly when the job is being
      canceled, the item has not ended, it is still held, and the end is a revert, a skip or, with its reason, a review. */
  lemma CurrentEndsCommitExactly(ops: seq<Op>, k: ItemKey, state: ItemState, reason: Option<Reason>)
    requires var s := Run(EMPTY, ops); k in s.items && k.job in s.jobs && ValidJob(s.jobs[k.job]) && ValidItem(s.items[k])
    ensures var s := Run(EMPTY, ops); var c, i := s.jobs[k.job], s.items[k];
            Commits(s, FinishItem(k, c, i, CompleteCancellation(c, i, state, reason))) <==>
              && c.state == Canceling && !HasSettled(i.state) && i.state != PendingUpdateExpired && IsStillHeld(s, k, i)
              && (state == Reverted || state == Skipped || state == NeedsReview) && (reason.Some? <==> state == NeedsReview)
  {
    hide Run;
    hide Commits;
    hide ValidJob;
    CurrentRows(ops, k);
    var s := Run(EMPTY, ops);
    CurrentFinishCommits(ops, k, CompleteCancellation(s.jobs[k.job], s.items[k], state, reason));
  }

  /** In every run a webhook, weighed against the current rows, is stored exactly when it is not late, the item has
      been attempted, has not settled and is still held, the webhook asks for what is not so yet (a revert or a
      drift review while the job is being canceled, otherwise an applied update, an expired one of an item that
      waits for the provider, or a drift review), and no retry of the item's cancellation is due. */
  lemma CurrentWebhooksCommitExactly(ops: seq<Op>, k: ItemKey, updateApplied: bool, sourceCount: nat, targetCount: nat, event: Event)
    requires var s := Run(EMPTY, ops); k in s.items && k.job in s.jobs && ValidJob(s.jobs[k.job]) && ValidItem(s.items[k])
    ensures var s := Run(EMPTY, ops); var c, i := s.jobs[k.job], s.items[k];
            Commits(s, FinishItem(k, c, i, WebhookUpdate(c, i, updateApplied, sourceCount, targetCount, event))) <==>
              && c.createdAt <= event.createdAt && (i.lastEvent.Some? ==> i.lastEvent.value.createdAt <= event.createdAt)
              && i.state != Pending && !HasSettled(i.state) && IsStillHeld(s, k, i)
              && i.cancellationNextAttemptAt.None?
              && (if c.state == Canceling then true
                  else if updateApplied && sourceCount == 0 && targetCount == 1 then i.state != PendingUpdateApplied
                  else if !updateApplied && sourceCount == 1 && targetCount == 0 then
                    i.state == PendingPayment || i.state == PendingCustomerAction
                  else true)
  {
    hide Run;
    hide Commits;
    hide ValidJob;
    CurrentRows(ops, k);
    var s := Run(EMPTY, ops);
    CurrentFinishCommits(ops, k, WebhookUpdate(s.jobs[k.job], s.items[k], updateApplied, sourceCount, targetCount, event));
  }

  // ---------------------------------------------------------------- what a finish counts

  /** The states of an item as the counters of its job see them. */
  const OPEN_STATES: set<ItemState> := {Pending, Applying, RetryableFailure, PendingPayment, PendingCustomerAction}
  const WAITING_STATES: set<ItemState> := {PendingPayment, PendingCustomerAction}
  const APPLIED_STATES: set<ItemState> := {Applied, PendingUpdateApplied}
  const ENDED_STATES: set<ItemState> := {Reverted, Skipped, PendingUpdateExpired, NeedsReview, PermanentFailure}

  /** How the membership in a set of states changes between two rows. */
  function Shift(states: set<ItemState>, was: ItemState, now: ItemState): int {
    (if now in states then 1 else 0) - (if was in states then 1 else 0)
  }

  /** The job row after a finish: its counts follow the item from bucket to bucket, a canary completes when it leaves
      the open states, and a canceling job has one item less to do when the item ends. */
  predicate CountsFinish(c: Job, n: Job, was: Item, now: Item) {
    n == c.(counts := Counts(c.counts.total,
                             c.counts.pending + Shift(OPEN_STATES, was.state, now.state),
                             c.counts.applied + Shift(APPLIED_STATES + {Reverted, Skipped}, was.state, now.state),
                             c.counts.needsReview + Shift({PendingUpdateExpired, NeedsReview}, was.state, now.state),
                             c.counts.failed + Shift({PermanentFailure}, was.state, now.state)),
            awaitingProvider := c.awaitingProvider + Shift(WAITING_STATES, was.state, now.state),
            appliedItems := c.appliedItems + Shift(APPLIED_STATES, was.state, now.state),
            canaryCompleted := c.canaryCompleted
              + (if was.canary && was.state in OPEN_STATES && now.state !in OPEN_STATES then 1 else 0),
            cancellationRemaining := c.cancellationRemaining
              - (if c.state == Canceling && was.state !in ENDED_STATES && now.state in ENDED_STATES then 1 else 0))
  }

  /** In every run a committed finish, from however old copies, moves the counters of its job by exactly what the
      current rows of the item before and after it say, and leaves every other job as it is. */
  lemma FinishesCountExactly(ops: seq<Op>, op: Op)
    requires op.FinishItem? && Commits(Run(EMPTY, ops), op)
    ensures var s := Run(EMPTY, ops); var n := Effect(s, op);
            && op.k in s.items && op.k in n.items && op.k.job in s.jobs && op.k.job in n.jobs
            && CountsFinish(s.jobs[op.k.job], n.jobs[op.k.job], s.items[op.k], n.items[op.k])
            && n.jobs == s.jobs[op.k.job := n.jobs[op.k.job]]
  {
    hide Run;
    hide Inv;
    hide JobOk;
    hide ItemOk;
    hide CountsFinish;
    hide CountersAgree;
    hide FinishValueOf;
    hide ValidItem;
    hide ValidJob;
    hide FinishedItem;
    hide MetricsJob;
    hide ChangesMetrics;
    hide CallerCopies;
    hide CallerReadsAreValid;
    hide JobFollows;
    hide JobUnchanged;
    var s := Run(EMPTY, ops);
    EmptyInv();
    RunKeepsInv(EMPTY, ops);
    ItemCopyFacts(s, op.k, op.readItem);
    JobCopyFacts(s, op.k.job, op.readJob);
    var now := FinishedItem(op.readItem, FinishValueOf(op.caller).value);
    CommittedCopyIsCurrent(op.readJob, s.jobs[op.k.job]);
    CountedByMetrics(s.jobs[op.k.job], op.readJob, op.readItem, s.items[op.k], now);
  }

  lemma CountedByMetrics(c: Job, read: Job, readItem: Item, was: Item, now: Item)
    requires was.state == readItem.state && was.canary == readItem.canary && (ChangesMetrics(read, readItem, now) ==> read == c)
    ensures CountsFinish(c, if ChangesMetrics(read, readItem, now) then MetricsJob(read, readItem, now) else c, was, now)
  {
  }

  // ---------------------------------------------------------------- the preview

  /** An item as a preview makes it: pending without a reason or in need of review with one, and untouched. */
  predicate IsAsPreviewed(i: Item) {
    && i == Item(if i.reason.Some? then NeedsReview else Pending, i.reason, 0, None, None, None, None, 0, None, false, None, i.digest)
    && 0 <= i.digest.a < 0x1_0000_0000_0000_0000_0000 && 0 <= i.digest.b < 0x1_0000_0000_0000_0000_0000
  }

  lemma FreshItemsAreAsPreviewed(i: Item)
    ensures FreshItem(i) && ValidDigest(i.digest) <==> IsAsPreviewed(i)
    ensures FreshItem(i) ==> i.state == Pending || i.state == NeedsReview
  {
  }

  /** How many items a preview in progress has. */
  lemma PreviewCountsItems(ops: seq<Op>, j: JobId)
    requires var s := Run(EMPTY, ops); j in s.jobs && s.jobs[j].dryRun.None?
    ensures var s := Run(EMPTY, ops); s.jobs[j].preview.itemCount == |ItemsOf(j, s.items)|
  {
    hide Total;
    hide Run;
    var s := Run(EMPTY, ops);
    EmptyInv();
    RunKeepsInv(EMPTY, ops);
    assert CountersAgree(s.jobs[j], j, s.items);
    hide Inv;
    TotalCounts(Items, j, s.items, ItemsOf(j, s.items));
  }

  /** A preview write leaves its item and, in its job, a new aggregate; everything else stays. */
  predicate PreviewLeaves(was: System, s: System, k: ItemKey, item: Item)
    requires k.job in was.jobs
  {
    && s.items == was.items[k := item]
    && k.job in s.jobs && s.jobs == was.jobs[k.job := was.jobs[k.job].(preview := s.jobs[k.job].preview)]
    && s.slots == was.slots && s.claims == was.claims && s.now == was.now
  }

  /** In every run a put computed from the current job row, which can be loaded, commits exactly while the job is
      previewed, has fewer than 100000 items and not this one, and the item is as a preview makes it. */
  lemma CurrentPutsCommitExactly(ops: seq<Op>, k: ItemKey, item: Item)
    requires var s := Run(EMPTY, ops); k.job in s.jobs && ValidJob(s.jobs[k.job])
    ensures var s := Run(EMPTY, ops); var c := s.jobs[k.job];
            Commits(s, PutPreviewItem(k, c, item)) <==>
              c.state == Previewing && k !in s.items && |ItemsOf(k.job, s.items)| < 100_000 && IsAsPreviewed(item)
    ensures var s := Run(EMPTY, ops); var c := s.jobs[k.job];
            Commits(s, PutPreviewItem(k, c, item)) ==> PreviewLeaves(s, Effect(s, PutPreviewItem(k, c, item)), k, item)
  {
    hide Run;
    hide Inv;
    hide AddPreviewItem;
    hide ValidAggregate;
    hide ValidCounters;
    hide ValidCounts;
    hide FreshItem;
    hide ValidDigest;
    hide IsAsPreviewed;
    var s := Run(EMPTY, ops);
    CurrentJobIsCopy(ops, k.job);
    FreshItemsAreAsPreviewed(item);
    if s.jobs[k.job].state == Previewing && IsAsPreviewed(item) {
      PreviewCountsItems(ops, k.job);
      PreviewBoundsNeverBite(ops, k.job, k, item);
    }
  }

  lemma CurrentJobIsCopy(ops: seq<Op>, j: JobId)
    requires j in Run(EMPTY, ops).jobs
    ensures (j, Run(EMPTY, ops).jobs[j]) in Run(EMPTY, ops).jobCopies
  {
    hide Run;
    EmptyInv();
    RunKeepsInv(EMPTY, ops);
  }

  /** In every run a rejection computed from the current rows, which can be loaded, commits exactly while the job
      is previewed and the item is pending; it leaves the item in need of review for the reason given. */
  lemma CurrentRejectionsCommitExactly(ops: seq<Op>, k: ItemKey, reason: Reason, digest: Digest)
    requires ValidDigest(digest)
    requires var s := Run(EMPTY, ops); k in s.items && k.job in s.jobs && ValidJob(s.jobs[k.job]) && ValidItem(s.items[k])
    ensures var s := Run(EMPTY, ops); var c, i := s.jobs[k.job], s.items[k];
            Commits(s, RejectPreviewItem(k, c, i, reason, digest)) <==> c.state == Previewing && i.state == Pending
    ensures var s := Run(EMPTY, ops); var op := RejectPreviewItem(k, s.jobs[k.job], s.items[k], reason, digest);
            Commits(s, op) ==>
              PreviewLeaves(s, Effect(s, op), k,
                            s.items[k].(state := NeedsReview, reason := Some(reason), digest := digest))
  {
    hide Run;
    hide Inv;
    hide JobOk;
    hide ItemOk;
    hide ReplacePreviewItem;
    hide ValidAggregate;
    hide ValidCounters;
    hide ValidCounts;
    hide WellShaped;
    var s := Run(EMPTY, ops);
    CurrentRows(ops, k);
    AttemptsOfStates(s.items[k]);
    if s.jobs[k.job].state == Previewing {
      PreviewBoundsNeverBite(ops, k.job, k, s.items[k].(state := NeedsReview, reason := Some(reason), digest := digest));
    }
  }
}
