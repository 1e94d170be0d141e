/**
 Items that nobody can load again. A claim of an item that waits for a retry keeps the reason of the
 retry, and the validator refuses an applying item with a reason; so the item never changes again,
 its job never ends, and its subscription is never claimed for another job of the account.
 */
module MigrationStuck {
  import opened Types
  import opened MigrationRecords
  import opened MigrationProtocol
  import opened MigrationTotals
  import opened MigrationInvariant
  import opened MigrationSteps
  import opened MigrationRows
  import opened MigrationCounters
  import opened MigrationCanary
  import opened MigrationLoads
  import opened MigrationCancellation

  predicate IsStuck(s: System, k: ItemKey) { k in s.items && !ValidItem(s.items[k]) }

  // ---------------------------------------------------------------- jobs with an applying item

  /** An item is only applied while its job has not ended. */
  predicate AppliesWhileLive(s: System) {
    forall k | k in s.items && s.items[k].state == Applying :: k.job in s.jobs && !HasEnded(s.jobs[k.job].state)
  }

  lemma ApplyingAfter(c: Item, k: ItemKey, op: Op)
    requires ItemOpAgrees(c, k, op) && ItemOk(ItemAfter(c, k, op)) && ItemAfter(c, k, op).state == Applying
    ensures c.state == Applying || (op.ClaimItem? && op.k == k)
  {
    hide FinishValueOf;
  }

  /** How a job ends. */
  lemma EndingStep(c: Job, j: JobId, op: Op)
    requires JobOpAgrees(c, j, op) && !HasEnded(c.state) && HasEnded(JobAfter(c, j, op).state)
    requires ValidJob(c)
    ensures c.state == Previewing || c.state == AwaitingApproval || c.counts.pending == 0
    ensures !op.ClaimItem?
  {
    hide AddPreviewItem;
    hide ReplacePreviewItem;
    hide FinishValueOf;
    hide FinishedItem;
    hide ChangesMetrics;
    hide ValidAggregate;
  }

  /** A job with an applying item is past its preview, has started, and counts a pending item. */
  lemma ApplyingIsPending(s: System, k: ItemKey)
    requires Inv(s) && k in s.items && k.job in s.jobs && s.items[k].state == Applying
    ensures s.jobs[k.job].state != Previewing && s.jobs[k.job].state != AwaitingApproval
    ensures s.jobs[k.job].dryRun.Some? && 1 <= s.jobs[k.job].counts.pending
  {
    hide Total;
    ItemsOfJobs(s, k);
    if s.jobs[k.job].state == AwaitingApproval { UnstartedItems(s, k); }
    assert CountersAgree(s.jobs[k.job], k.job, s.items);
    JobIsOk(s, k.job);
    hide Inv;
    hide ItemOk;
    hide JobOk;
    if s.jobs[k.job].dryRun.Some? { TotalZero(InBucket(InPending), k.job, s.items); }
    assert Weight(InBucket(InPending), s.items[k]) == 1;
  }

  lemma StepAppliesWhileLive(s: System, op: Op)
    requires Inv(s) && AppliesWhileLive(s)
    ensures AppliesWhileLive(Apply(s, op))
  {
    hide Inv;
    hide Commits;
    hide Effect;
    hide ItemAfter;
    hide ItemOpAgrees;
    hide JobAfter;
    hide JobOpAgrees;
    hide ValidJob;
    hide ItemOk;
    var t := Apply(s, op);
    if Commits(s, op) {
      ApplyKeepsInv(s, op);
      forall k | k in t.items && t.items[k].state == Applying ensures k.job in t.jobs && !HasEnded(t.jobs[k.job].state) {
        ItemsOfJobs(t, k);
        if k in s.items { ApplyingStaysLive(s, op, k); } else { NewItemsAreNotApplied(s, op, k); }
      }
    }
  }

  lemma NewItemsAreNotApplied(s: System, op: Op, k: ItemKey)
    requires Inv(s) && Commits(s, op) && k !in s.items && k in Effect(s, op).items
    ensures Effect(s, op).items[k].state != Applying
  {
    hide Inv;
    hide Effect;
    ItemsAfter(s, op);
    hide ReadsAreValid;
    hide FinishValueOf;
  }

  lemma ApplyingStaysLive(s: System, op: Op, k: ItemKey)
    requires Inv(s) && Commits(s, op) && AppliesWhileLive(s) && k in s.items && k in Effect(s, op).items
    requires Effect(s, op).items[k].state == Applying && ItemOk(Effect(s, op).items[k])
    ensures k.job in Effect(s, op).jobs && !HasEnded(Effect(s, op).jobs[k.job].state)
  {
    hide Inv;
    hide Commits;
    hide Effect;
    hide ItemAfter;
    hide ItemOpAgrees;
    hide JobAfter;
    hide JobOpAgrees;
    hide JobWriteOf;
    hide ValidJob;
    hide ItemOk;
    ItemsOfJobs(s, k);
    ItemRowAfter(s, op, k);
    ApplyingAfter(s.items[k], k, op);
    JobRowAfter(s, op, k.job);
    if op.ClaimItem? && op.k == k { ClaimFindsRunning(s.jobs[k.job], k.job, op); }
    var c, n := s.jobs[k.job], Effect(s, op).jobs[k.job];
    if HasEnded(n.state) {
      JobChangeReadsCurrent(s, op, k.job);
      EndingStep(c, k.job, op);
      ApplyingIsPending(s, k);
    }
  }

  lemma ClaimFindsRunning(c: Job, j: JobId, op: Op)
    requires JobOpAgrees(c, j, op) && op.ClaimItem? && op.k.job == j
    ensures c.state == Running
  {
  }

  lemma {:induction false} RunAppliesWhileLive(s: System, ops: seq<Op>)
    requires Inv(s) && AppliesWhileLive(s)
    ensures Inv(Run(s, ops)) && AppliesWhileLive(Run(s, ops))
    decreases |ops|
  {
    hide Inv;
    hide AppliesWhileLive;
    hide Apply;
    if ops == [] {
    } else {
      ApplyKeepsInv(s, ops[0]);
      StepAppliesWhileLive(s, ops[0]);
      RunAppliesWhileLive(Apply(s, ops[0]), ops[1..]);
    }
  }

  // ---------------------------------------------------------------- what a stuck item blocks

  /** A stuck item stays exactly as it is, in every continuation of every run. */
  lemma StuckItemsNeverChange(ops: seq<Op>, later: seq<Op>, k: ItemKey)
    requires IsStuck(Run(EMPTY, ops), k)
    ensures var t := Run(Run(EMPTY, ops), later); IsStuck(t, k) && t.items[k] == Run(EMPTY, ops).items[k]
  {
    hide Run;
    hide ValidItem;
    EmptyInv();
    RunKeepsInv(EMPTY, ops);
    hide Inv;
    InvalidItemsStay(Run(EMPTY, ops), later, k);
  }

  /** The job of a stuck item counts a pending item for ever: it never completes and is never canceled. */
  lemma StuckJobsNeverEnd(ops: seq<Op>, later: seq<Op>, k: ItemKey)
    requires IsStuck(Run(EMPTY, ops), k)
    ensures var t := Run(Run(EMPTY, ops), later);
            k.job in t.jobs && !HasEnded(t.jobs[k.job].state) && 1 <= t.jobs[k.job].counts.pending
  {
    hide Run;
    hide ValidItem;
    hide ItemOk;
    EmptyInv();
    RunAppliesWhileLive(EMPTY, ops);
    RunAppliesWhileLive(Run(EMPTY, ops), later);
    StuckItemsNeverChange(ops, later, k);
    var t := Run(Run(EMPTY, ops), later);
    ItemsOfJobs(t, k);
    hide Inv;
    RefusedItemHasReason(t.items[k]);
    ApplyingIsPending(t, k);
  }

  /** While an item is applied nobody claims its subscription under the same account for another item. */
  lemma ClaimNeedsFreeSubscription(s: System, k: ItemKey, op: Op)
    requires Inv(s) && k in s.items && s.items[k].holder.Some?
    requires op.ClaimItem? && op.k.subscription == k.subscription && op.request.account == s.items[k].holder.value.account
    requires Commits(s, op)
    ensures op.k == k
  {
    hide Inv;
    LeaseFacts(s, k);
    ClaimFindsFree(s, op);
    hide Commits;
  }

  lemma ClaimFindsFree(s: System, op: Op)
    requires op.ClaimItem? && Commits(s, op)
    ensures ClaimFree(s, ClaimKey(op.request.account, op.k.subscription), op.k, op.request.now)
  {
    hide ReadsAreValid;
    hide MayClaim;
    hide JobAllowsClaim;
    hide SlotFree;
    hide ClaimFree;
    hide ItemUnchanged;
    hide CanaryUnchanged;
    hide StillRunning;
  }

  /** In every continuation no item of the stuck item's subscription is claimed under its account again,
      in whatever job. */
  lemma StuckSubscriptionsAreNeverClaimed(ops: seq<Op>, later: seq<Op>, k: ItemKey, op: Op)
    requires IsStuck(Run(EMPTY, ops), k) && Run(EMPTY, ops).items[k].holder.Some?
    requires op.ClaimItem? && op.k.subscription == k.subscription
    requires op.request.account == Run(EMPTY, ops).items[k].holder.value.account
    ensures !Commits(Run(Run(EMPTY, ops), later), op)
  {
    hide Run;
    hide ValidItem;
    hide ItemOk;
    hide Commits;
    hide Effect;
    EmptyInv();
    RunKeepsInv(EMPTY, ops);
    RunKeepsInv(Run(EMPTY, ops), later);
    StuckItemsNeverChange(ops, later, k);
    var t := Run(Run(EMPTY, ops), later);
    if Commits(t, op) {
      ClaimNeedsFreeSubscription(t, k, op);
      ItemsOfJobs(t, k);
      hide Inv;
      ClaimReadsValid(t, op);
    }
  }

  /** A stuck item itself cannot be claimed. */
  lemma ClaimReadsValid(s: System, op: Op)
    requires Inv(s) && op.ClaimItem? && Commits(s, op)
    ensures op.k in s.items && ValidItem(s.items[op.k])
  {
    hide Inv;
    hide Effect;
    hide ValidJob;
    assert op.k in s.items by { hide ReadsAreValid; }
    ItemRowAfter(s, op, op.k);
    ItemsOfJobs(s, op.k);
    hide Commits;
    ClaimedRowIsValid(s.items[op.k], op);
  }

  lemma ClaimedRowIsValid(c: Item, op: Op)
    requires op.ClaimItem? && ItemOpAgrees(c, op.k, op) && ItemOk(c)
    ensures ValidItem(c)
  {
  }

  // ---------------------------------------------------------------- exactly the stuck items do not move

  /** A worker's request for the review of the item it applies. */
  function ReviewOf(i: Item, why: Reason): Caller {
    CompleteItem(i.attempts, NeedsReview, Some(why), i.scheduleId, i.rollbackGuard)
  }

  lemma ReviewValue(i: Item, why: Reason)
    requires ItemOk(i) && i.state == Applying && i.cancellationNextAttemptAt.None?
    ensures var v := FinishValueOf(ReviewOf(i, why));
            && v.Some? && v.value.attempts == i.attempts && ValidItem(FinishedItem(i, v.value))
            && FinishedItem(i, v.value).state == NeedsReview
  {
  }

  /** A finish of a leased item from the current rows commits exactly when both rows can be loaded. */
  lemma CurrentFinishCommitsExactly(s: System, k: ItemKey, caller: Caller)
    requires Inv(s) && k in s.items && s.items[k].state == Applying && s.items[k].holder.Some? && s.now < s.items[k].holder.value.expiresAt
    requires caller.CompleteItem? && FinishValueOf(caller).Some? && FinishValueOf(caller).value.attempts == s.items[k].attempts
    requires ValidItem(FinishedItem(s.items[k], FinishValueOf(caller).value))
    ensures k.job in s.jobs
    ensures Commits(s, FinishItem(k, s.jobs[k.job], s.items[k], caller)) <==> ValidJob(s.jobs[k.job]) && ValidItem(s.items[k])
  {
    hide Inv;
    hide FinishValueOf;
    hide FinishedItem;
    hide ChangesMetrics;
    hide ValidItem;
    hide ValidJob;
    ItemCopyIsCurrent(s, k);
    LeaseFacts(s, k);
  }

  /** The item changes in some continuation. */
  predicate Moves(s: System, later: seq<Op>, k: ItemKey) {
    k in s.items && k in Run(s, later).items && Run(s, later).items[k] != s.items[k]
  }

  lemma ReviewMoves(s: System, k: ItemKey)
    requires Inv(s) && k in s.items && s.items[k].state == Applying && s.items[k].holder.Some? && s.now < s.items[k].holder.value.expiresAt
    requires s.items[k].cancellationNextAttemptAt.None? && k.job in s.jobs && ValidJob(s.jobs[k.job]) && ValidItem(s.items[k])
    ensures exists later :: Moves(s, later, k)
  {
    hide Inv;
    hide ValidJob;
    ItemsOfJobs(s, k);
    var op := FinishItem(k, s.jobs[k.job], s.items[k], ReviewOf(s.items[k], "provider-unknown"));
    ReviewValue(s.items[k], "provider-unknown");
    hide ReviewOf;
    CurrentFinishCommitsExactly(s, k, op.caller);
    hide Commits;
    hide Effect;
    ItemRowAfter(s, op, k);
    assert [op][1..] == [] && Run(s, [op]) == Run(Apply(s, op), []) == Apply(s, op);
    assert Moves(s, [op], k);
  }

  /** In every run, an applying item that still holds its lease in a running job that can be loaded is
      stuck for ever exactly when it has a reason. */
  lemma ApplyingItemsMoveExactly(ops: seq<Op>, k: ItemKey)
    requires var s := Run(EMPTY, ops);
             && k in s.items && s.items[k].state == Applying && s.items[k].holder.Some? && s.now < s.items[k].holder.value.expiresAt
             && k.job in s.jobs && s.jobs[k.job].state == Running && ValidJob(s.jobs[k.job])
    ensures (exists later :: Moves(Run(EMPTY, ops), later, k)) <==> Run(EMPTY, ops).items[k].reason.None?
  {
    hide Run;
    hide ValidJob;
    hide ValidItem;
    hide ItemOk;
    var s := Run(EMPTY, ops);
    EmptyInv();
    RunKeepsInv(EMPTY, ops);
    RunKeepsDueTimes(EMPTY, ops);
    ItemsOfJobs(s, k);
    RefusedItemHasReason(s.items[k]);
    if s.items[k].reason.None? {
      ReviewMoves(s, k);
    } else {
      hide Inv;
      forall later ensures !Moves(s, later, k) { StuckItemsNeverChange(ops, later, k); }
    }
  }

  // ---------------------------------------------------------------- items whose slot was taken over

  /** The two lease rows a copy of an item names still belong to its attempt. */
  predicate HoldsLeases(s: System, k: ItemKey, i: Item) {
    i.holder.Some?
    && var claimKey, slotKey := ClaimKey(i.holder.value.account, k.subscription), SlotKey(i.holder.value.account, i.holder.value.slot);
       && claimKey in s.claims && LeaseHeldBy(s.claims[claimKey], k, i.attempts)
       && slotKey in s.slots && LeaseHeldBy(s.slots[slotKey], k, i.attempts)
  }

  /** A copy that the write conditions still accept names lease rows of its attempt. */
  predicate CanRelease(s: System, k: ItemKey, i: Item) {
    (k, i) in s.itemCopies && k in s.items && ItemUnchanged(i, s.items[k]) && HoldsLeases(s, k, i)
  }

  ghost predicate IsReleasable(s: System, k: ItemKey) { exists i: Item :: CanRelease(s, k, i) }

  predicate IsBeingCanceled(state: JobState) { state == CancelRequested || state == Canceling }

  /** An applying item of a job that is being canceled, without lease rows to give back. */
  ghost predicate HasLostItsLease(s: System, k: ItemKey) {
    && k in s.items && s.items[k].state == Applying && k.job in s.jobs && IsBeingCanceled(s.jobs[k.job].state)
    && !IsReleasable(s, k)
  }

  /** Lease rows of an item come from its claims alone. */
  lemma LeaseRowsAfter(s: System, op: Op, k: ItemKey)
    requires Commits(s, op) && !(op.ClaimItem? && op.k == k)
    ensures forall key | key in Effect(s, op).slots && Effect(s, op).slots[key].owner == k ::
              key in s.slots && s.slots[key] == Effect(s, op).slots[key]
    ensures forall key | key in Effect(s, op).claims && Effect(s, op).claims[key].owner == k ::
              key in s.claims && s.claims[key] == Effect(s, op).claims[key]
  {
    hide Commits;
    hide FinishValueOf;
    hide FinishedItem;
    hide ChangesMetrics;
    hide MetricsJob;
    hide JobUpdate;
    hide AddPreviewItem;
    hide ReplacePreviewItem;
    hide ClaimedItem;
  }

  /** Copies of an item come from its writes alone. */
  lemma ItemCopiesAfter(s: System, op: Op, k: ItemKey, i: Item)
    requires Commits(s, op) && (k, i) in Effect(s, op).itemCopies
    ensures (k, i) in s.itemCopies || (ItemWriteOf(op).Some? && ItemWriteOf(op).value.0 == k)
  {
    hide ReadsAreValid;
    hide FinishValueOf;
    hide FinishedItem;
    hide ChangesMetrics;
    hide MetricsJob;
    hide JobUpdate;
    hide AddPreviewItem;
    hide ReplacePreviewItem;
    hide ClaimedItem;
  }

  lemma FinishGivesBack(s: System, op: Op)
    requires Inv(s) && op.FinishItem? && Commits(s, op) && op.k in s.items && s.items[op.k].state == Applying
    ensures IsReleasable(s, op.k)
  {
    hide Inv;
    hide ReadsAreValid;
    hide FinishValueOf;
    hide FinishedItem;
    hide ChangesMetrics;
    ItemCopyFacts(s, op.k, op.readItem);
    assert CanRelease(s, op.k, op.readItem);
  }

  lemma LostItemIsNotWritten(s: System, op: Op, k: ItemKey)
    requires Inv(s) && Commits(s, op) && HasLostItsLease(s, k)
    ensures !(ItemWriteOf(op).Some? && ItemWriteOf(op).value.0 == k)
  {
    hide Inv;
    hide Commits;
    hide Effect;
    hide ItemAfter;
    hide JobAfter;
    hide JobOpAgrees;
    hide IsReleasable;
    hide ValidItem;
    hide ItemOk;
    ItemsAfter(s, op);
    ItemRowAfter(s, op, k);
    JobRowAfter(s, op, k.job);
    if op.ClaimItem? && op.k == k { ClaimFindsRunning(s.jobs[k.job], k.job, op); }
    if op.FinishItem? && op.k == k { FinishGivesBack(s, op); }
    hide FinishValueOf;
    hide FinishedItem;
  }

  lemma CanceledRowStays(c: Job, j: JobId, op: Op)
    requires JobOpAgrees(c, j, op) && IsBeingCanceled(c.state)
    ensures IsBeingCanceled(JobAfter(c, j, op).state) || HasEnded(JobAfter(c, j, op).state)
  {
    hide AddPreviewItem;
    hide ReplacePreviewItem;
    hide FinishValueOf;
    hide FinishedItem;
    hide ChangesMetrics;
  }

  lemma CouldReleaseBefore(s: System, op: Op, k: ItemKey, i: Item)
    requires Commits(s, op) && k in s.items && !(ItemWriteOf(op).Some? && ItemWriteOf(op).value.0 == k)
    requires k in Effect(s, op).items && Effect(s, op).items[k] == s.items[k] && CanRelease(Effect(s, op), k, i)
    ensures CanRelease(s, k, i)
  {
    hide Commits;
    hide Effect;
    hide ItemUnchanged;
    LeaseRowsAfter(s, op, k);
    ItemCopiesAfter(s, op, k, i);
  }

  lemma StaysUnreleasable(s: System, op: Op, k: ItemKey)
    requires Commits(s, op) && !IsReleasable(s, k) && k in s.items
    requires !(ItemWriteOf(op).Some? && ItemWriteOf(op).value.0 == k)
    requires k in Effect(s, op).items && Effect(s, op).items[k] == s.items[k]
    ensures !IsReleasable(Effect(s, op), k)
  {
    hide Commits;
    hide Effect;
    hide ItemWriteOf;
    hide CanRelease;
    forall i: Item | CanRelease(Effect(s, op), k, i) ensures CanRelease(s, k, i) { CouldReleaseBefore(s, op, k, i); }
  }

  lemma StepKeepsLost(s: System, op: Op, k: ItemKey)
    requires Inv(s) && AppliesWhileLive(s) && HasLostItsLease(s, k)
    ensures HasLostItsLease(Apply(s, op), k) && Apply(s, op).items[k] == s.items[k]
  {
    hide Inv;
    hide Commits;
    hide Effect;
    hide ItemAfter;
    hide JobAfter;
    hide ItemOpAgrees;
    hide JobOpAgrees;
    hide ItemWriteOf;
    hide IsReleasable;
    StepAppliesWhileLive(s, op);
    if Commits(s, op) {
      ItemsAfter(s, op);
      LostItemIsNotWritten(s, op, k);
      JobRowAfter(s, op, k.job);
      CanceledRowStays(s.jobs[k.job], k.job, op);
      StaysUnreleasable(s, op, k);
    }
  }

  lemma {:induction false} RunKeepsLost(s: System, ops: seq<Op>, k: ItemKey)
    requires Inv(s) && AppliesWhileLive(s) && HasLostItsLease(s, k)
    ensures HasLostItsLease(Run(s, ops), k) && Run(s, ops).items[k] == s.items[k]
    decreases |ops|
  {
    hide Inv;
    hide AppliesWhileLive;
    hide Apply;
    hide IsReleasable;
    if ops == [] {
    } else {
      ApplyKeepsInv(s, ops[0]);
      StepAppliesWhileLive(s, ops[0]);
      StepKeepsLost(s, ops[0], k);
      RunKeepsLost(Apply(s, ops[0]), ops[1..], k);
    }
  }

  /** Such an item stays as it is for ever, and its job counts a pending item and is never canceled. */
  lemma LostItemsNeverChange(ops: seq<Op>, later: seq<Op>, k: ItemKey)
    requires HasLostItsLease(Run(EMPTY, ops), k)
    ensures var t := Run(Run(EMPTY, ops), later);
            && HasLostItsLease(t, k) && t.items[k] == Run(EMPTY, ops).items[k] && 1 <= t.jobs[k.job].counts.pending
  {
    hide Run;
    hide Inv;
    hide AppliesWhileLive;
    hide IsReleasable;
    EmptyInv();
    assert AppliesWhileLive(EMPTY) by { NothingApplies(); }
    RunAppliesWhileLive(EMPTY, ops);
    RunAppliesWhileLive(Run(EMPTY, ops), later);
    RunKeepsLost(Run(EMPTY, ops), later, k);
    ApplyingIsPending(Run(Run(EMPTY, ops), later), k);
  }

  lemma NothingApplies()
    ensures AppliesWhileLive(EMPTY)
  {
  }

  /** The review an operator's cancellation asks for, from a copy of the applying item. */
  function CancelReviewOf(job: Job, i: Item): Caller {
    if job.state == Canceling then CompleteCancellation(job, i, NeedsReview, Some("provider-unknown")) else ReviewOf(i, "provider-unknown")
  }

  lemma CancelReviewValue(job: Job, i: Item)
    requires ItemOk(i) && i.state == Applying && (job.state == Canceling || i.cancellationNextAttemptAt.None?)
    ensures var v := FinishValueOf(CancelReviewOf(job, i));
            && v.Some? && v.value.attempts == i.attempts && ValidItem(FinishedItem(i, v.value))
            && FinishedItem(i, v.value).state == NeedsReview
  {
  }

  lemma ReleasableFinishCommits(s: System, k: ItemKey, i: Item)
    requires Inv(s) && k in s.items && s.items[k].state == Applying && k.job in s.jobs && ValidJob(s.jobs[k.job])
    requires CanRelease(s, k, i) && ValidItem(i) && ItemOk(i) && i.state == Applying
    requires s.jobs[k.job].state == Canceling || i.cancellationNextAttemptAt.None?
    ensures Commits(s, FinishItem(k, s.jobs[k.job], i, CancelReviewOf(s.jobs[k.job], i)))
  {
    hide Inv;
    hide ValidJob;
    hide ValidItem;
    hide ItemOk;
    hide FinishValueOf;
    hide FinishedItem;
    hide ChangesMetrics;
    ItemCopyIsCurrent(s, k);
    CancelReviewValue(s.jobs[k.job], i);
  }

  lemma ReleasableMoves(s: System, k: ItemKey)
    requires Inv(s) && k in s.items && s.items[k].state == Applying && s.items[k].reason.None?
    requires k.job in s.jobs && ValidJob(s.jobs[k.job]) && IsReleasable(s, k)
    requires s.jobs[k.job].state == Canceling || s.items[k].cancellationNextAttemptAt.None?
    ensures exists later :: Moves(s, later, k)
  {
    hide Inv;
    hide ValidJob;
    hide ValidItem;
    hide ItemOk;
    hide HoldsLeases;
    hide Commits;
    hide Effect;
    hide FinishValueOf;
    hide FinishedItem;
    hide CancelReviewOf;
    var i: Item :| CanRelease(s, k, i);
    var job := s.jobs[k.job];
    ItemCopyFacts(s, k, i);
    RefusedItemHasReason(i);
    ReleasableFinishCommits(s, k, i);
    CancelReviewValue(job, i);
    var op := FinishItem(k, job, i, CancelReviewOf(job, i));
    ItemRowAfter(s, op, k);
    assert [op][1..] == [] && Run(s, [op]) == Run(Apply(s, op), []) == Apply(s, op);
    assert Moves(s, [op], k);
  }

  /** In every run, an applying item of a job that is being canceled and can be loaded is stuck for ever
      exactly when it has a reason, or when no copy that is still accepted names the lease rows of its
      attempt: another item took its slot over after the lease ran out, and a job that is being canceled
      claims nothing again. */
  lemma CancelingItemsMoveExactly(ops: seq<Op>, k: ItemKey)
    requires var s := Run(EMPTY, ops);
             && k in s.items && s.items[k].state == Applying
             && k.job in s.jobs && IsBeingCanceled(s.jobs[k.job].state) && ValidJob(s.jobs[k.job])
    ensures (exists later :: Moves(Run(EMPTY, ops), later, k))
       <==> Run(EMPTY, ops).items[k].reason.None? && IsReleasable(Run(EMPTY, ops), k)
  {
    hide Run;
    hide ValidJob;
    hide ValidItem;
    hide ItemOk;
    hide IsReleasable;
    var s := Run(EMPTY, ops);
    EmptyInv();
    RunKeepsInv(EMPTY, ops);
    RunKeepsDueTimes(EMPTY, ops);
    ItemsOfJobs(s, k);
    RefusedItemHasReason(s.items[k]);
    hide Inv;
    if s.items[k].reason.None? && IsReleasable(s, k) {
      ReleasableMoves(s, k);
    } else if s.items[k].reason.Some? {
      forall later ensures !Moves(s, later, k) { StuckItemsNeverChange(ops, later, k); }
    } else {
      forall later ensures !Moves(s, later, k) { LostItemsNeverChange(ops, later, k); }
    }
  }
}
