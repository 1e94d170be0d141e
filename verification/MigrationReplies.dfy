/**
 When the calls that finish an item are done, with nobody else running: exactly when what they ask for is
 so already or their step can be stored; told in terms of the stored rows.
 */
module MigrationReplies {
  import opened Types
  import opened MigrationRecords
  import opened MigrationProtocol
  import opened MigrationInvariant
  import opened MigrationSteps
  import opened MigrationOutcomes
  import opened MigrationStore
  import opened MigrationWorker
  import opened WorkIndex

  /** Both rows of an item can be loaded. */
  predicate CanLoad(s: System, k: ItemKey) {
    k in s.items && k.job in s.jobs && ValidItem(s.items[k]) && ValidJob(s.jobs[k.job])
  }

  /** A finish is done exactly when its step commits: a row already in the state asked for has no lease, and its
      step commits, too. */
  lemma FinishIsDoneExactly(ops: seq<Op>, k: ItemKey, c: Caller)
    requires CallerReadsAreValid(c) && CallerCopies(Run(EMPTY, ops), k, c)
    ensures var s := Run(EMPTY, ops);
            FinishSucceeds(s, k, c) <==> CanLoad(s, k) && Commits(s, FinishItem(k, s.jobs[k.job], s.items[k], c))
  {
    EmptyInv();
    hide Run;
    hide Inv;
    hide ValidJob;
    hide ValidItem;
    hide FinishedItem;
    hide FinishValueOf;
    hide Commits;
    hide CallerReadsAreValid;
    hide CallerCopies;
    hide MayFinishFrom;
    RunKeepsInv(EMPTY, ops);
    var s := Run(EMPTY, ops);
    if CanLoad(s, k) { CurrentFinishCommits(ops, k, c); }
    if FinishSucceeds(s, k, c) { DoneFinishCommits(s, k, c); }
    MayFinishUnlessSettled();
  }

  lemma MayFinishUnlessSettled()
    ensures forall state: ItemState :: MayFinishFrom(state) <==> !HasSettled(state)
  {
  }

  /** Whether a webhook has nothing to change: it is late, the item is not attempted yet or has settled, an expiry
      meets an item that does not wait for the provider, or the item is already as the webhook would have it. */
  predicate NeedsNoChange(c: Job, i: Item, updateApplied: bool, sourceCount: nat, targetCount: nat, event: Event) {
    || event.createdAt < c.createdAt || (i.lastEvent.Some? && event.createdAt < i.lastEvent.value.createdAt)
    || i.state == Pending || HasSettled(i.state)
    || (c.state != Canceling && updateApplied && sourceCount == 0 && targetCount == 1 && i.state == PendingUpdateApplied)
    || (c.state != Canceling && !updateApplied && sourceCount == 1 && targetCount == 0
        && i.state != PendingPayment && i.state != PendingCustomerAction)
  }

  /** In every run a webhook that meets nobody else is done exactly when both rows can be loaded and it needs no
      change, or the item is still held and no retry of its cancellation is due. */
  lemma WebhookIsDoneExactly(ops: seq<Op>, k: ItemKey, updateApplied: bool, sourceCount: nat, targetCount: nat, event: Event)
    ensures var s := Run(EMPTY, ops);
            ReconcileSucceeds(s, k, updateApplied, sourceCount, targetCount, event) <==>
              && CanLoad(s, k)
              && (|| NeedsNoChange(s.jobs[k.job], s.items[k], updateApplied, sourceCount, targetCount, event)
                  || (IsStillHeld(s, k, s.items[k]) && s.items[k].cancellationNextAttemptAt.None?))
  {
    hide Run;
    hide ValidJob;
    hide Commits;
    hide FinishSucceeds;
    hide IsStillHeld;
    var s := Run(EMPTY, ops);
    if CanLoad(s, k) {
      CurrentRows(ops, k);
      var c, i := s.jobs[k.job], s.items[k];
      FinishIsDoneExactly(ops, k, WebhookUpdate(c, i, updateApplied, sourceCount, targetCount, event));
      CurrentWebhooksCommitExactly(ops, k, updateApplied, sourceCount, targetCount, event);
    }
  }

  /** In every run the end of a cancellation that meets nobody else is done exactly when the item can be loaded, a
      reason is given for a review only, and the item has ended or its job can be loaded, the canceller knows it to
      be canceling, the item is still held, and the end is a revert, a skip or a review. */
  lemma EndIsDoneExactly(ops: seq<Op>, k: ItemKey, state: ItemState, reason: Option<Reason>)
    requires k in Run(EMPTY, ops).items && k.job in Run(EMPTY, ops).jobs
    ensures var s := Run(EMPTY, ops); var c, i := s.jobs[k.job], s.items[k];
            EndSucceeds(s, k, c, state, reason) <==>
              && ValidItem(i) && (reason.Some? <==> state == NeedsReview)
              && (|| HasSettled(i.state) || i.state == PendingUpdateExpired
                  || (&& ValidJob(c) && c.state == Canceling && IsStillHeld(s, k, i)
                      && (state == Reverted || state == Skipped || state == NeedsReview)))
  {
    hide Run;
    hide ValidJob;
    hide ValidItem;
    hide Commits;
    hide FinishSucceeds;
    hide IsStillHeld;
    var s := Run(EMPTY, ops);
    if ValidItem(s.items[k]) {
      CurrentRows(ops, k);
      var c, i := s.jobs[k.job], s.items[k];
      FinishIsDoneExactly(ops, k, CompleteCancellation(c, i, state, reason));
      if CanLoad(s, k) { CurrentEndsCommitExactly(ops, k, state, reason); }
    }
  }

  /** In every run a counted cancellation failure that meets nobody else is done exactly when both rows can be
      loaded, the job is canceling, a next time comes with every failure but the fifth, and the item has ended or
      already waits as asked, or it is the next failure: before the fifth, of an item that is pending, applied or
      waits for the provider; at the fifth, of any item that is still held. */
  lemma RetryIsDoneExactly(ops: seq<Op>, k: ItemKey, attempts: int, next: Option<int>)
    ensures var s := Run(EMPTY, ops);
            RetrySucceeds(s, k, attempts, next) <==>
              && CanLoad(s, k) && s.jobs[k.job].state == Canceling && 1 <= attempts <= 5 && (attempts < 5 <==> next.Some?)
              && var i := s.items[k];
                 || HasSettled(i.state) || i.state == PendingUpdateExpired
                 || (i.cancellationAttempts == attempts && i.cancellationNextAttemptAt == next)
                 || (i.cancellationAttempts == attempts - 1
                     && (if attempts == 5 then IsStillHeld(s, k, i)
                         else && 1 <= next.value <= 9_999_999_999
                              && (|| i.state == Pending || i.state == Applied
                                  || i.state == PendingPayment || i.state == PendingCustomerAction)))
  {
    hide Run;
    hide ValidJob;
    hide Commits;
    hide FinishSucceeds;
    hide IsStillHeld;
    hide ValidItem;
    hide FinishedItem;
    var s := Run(EMPTY, ops);
    if CanLoad(s, k) && RetryMeets(s, k, attempts, next) && IsNextRetry(s.items[k], attempts) {
      CurrentRows(ops, k);
      var c, i := s.jobs[k.job], s.items[k];
      var caller := RetryCancellation(c, i, attempts, next);
      FinishIsDoneExactly(ops, k, caller);
      CurrentFinishCommits(ops, k, caller);
      RetriedItemIsValid(s, k, c, i, attempts, next);
    }
  }

  lemma RetriedItemIsValid(s: System, k: ItemKey, c: Job, i: Item, attempts: int, next: Option<int>)
    requires ValidItem(i) && c.state == Canceling && !IsCancellationTerminal(i.state) && i.cancellationAttempts == attempts - 1
    requires 1 <= attempts <= 5 && (attempts < 5 <==> next.Some?)
    ensures var v := FinishValueOf(RetryCancellation(c, i, attempts, next));
            && v.Some? && v.value.attempts == i.attempts && !HasSettled(i.state)
            && (ValidItem(FinishedItem(i, v.value)) <==>
                  attempts == 5 || (IsEpoch(next.value) && (i.state == Pending || i.state == Applied || IsAwaitingProvider(i.state))))
    ensures i.state == Pending || i.state == Applied || IsAwaitingProvider(i.state) ==> IsStillHeld(s, k, i)
  {
  }

  /** In every run the answer of an attempt is recorded, with nobody else running, exactly when both rows can be
      loaded, the item is at that attempt, has not settled and is still held, and its schedule and guard can be
      stored: a guard only with a schedule. A success without the guard its schedule needs, and every review, can
      only be stored while no retry of the item's cancellation is due. */
  lemma AnswerIsDoneExactly(ops: seq<Op>, k: ItemKey, attempts: int, a: Applied, at: int)
    requires GoodAnswer(a) && 1 <= attempts <= 5
    ensures var s := Run(EMPTY, ops);
            ApplySucceeds(s, k, attempts, a, at) <==>
              && CanLoad(s, k) && s.items[k].attempts == attempts && !HasSettled(s.items[k].state) && IsStillHeld(s, k, s.items[k])
              && var i := s.items[k];
                 match a
                 case Succeeds(state, schedule, guard) =>
                   && (guard.Some? ==> schedule.Some?)
                   && (state != ItemState.Applied || schedule.None? || guard.Some? || i.cancellationNextAttemptAt.None?)
                 case AsksReview(_, schedule, guard) => (guard.Some? ==> schedule.Some?) && i.cancellationNextAttemptAt.None?
                 case Fails(false, _, schedule, guard) => (guard.Some? ==> schedule.Some?) && i.cancellationNextAttemptAt.None?
                 case Fails(true, jitter, schedule, _) =>
                   && (i.rollbackGuard.Some? ==> schedule.Some?)
                   && (if attempts == 5 then i.cancellationNextAttemptAt.None?
                       else 1 <= at + DelayAfter(attempts, jitter) <= 9_999_999_999)
  {
    hide Run;
    hide ValidJob;
    hide ValidItem;
    hide Commits;
    hide FinishSucceeds;
    hide IsStillHeld;
    hide Backoff;
    hide DelayAfter;
    var s := Run(EMPTY, ops);
    CallersAreReady(k, attempts, a, at);
    FinishIsDoneExactly(ops, k, CallerFor(attempts, a, at));
    FinishIsDoneExactly(ops, k, ReviewFor(attempts, a));
    if CanLoad(s, k) {
      CurrentAnswersCommitExactly(ops, k, attempts, NeedsReview, Some("provider-unknown"), a.scheduleId, a.rollbackGuard);
      match a
      case Succeeds(state, schedule, guard) => CurrentAnswersCommitExactly(ops, k, attempts, state, None, schedule, guard);
      case AsksReview(reason, schedule, guard) =>
        CurrentAnswersCommitExactly(ops, k, attempts, NeedsReview, Some(reason), schedule, guard);
      case Fails(retryable, jitter, schedule, _) =>
        if retryable {
          BackoffIsDelay(attempts, jitter);
          var caller := CallerFor(attempts, a, at);
          CurrentRetriesCommitExactly(ops, k, attempts, caller.reason, caller.nextAttemptAt, schedule);
        }
    }
  }

  // ---------------------------------------------------------------- looks at the job

  /** The state a look leaves a job in: a running job with pending items goes on unless it has to wait for its
      approval, and one without ends, with errors if some item needs review or failed. */
  function StateAfterLook(c: Job): JobState {
    if c.state != Running then c.state
    else if c.counts.pending > 0 then
      if c.mutationStarted && !c.canaryApproved && c.canaryCompleted == c.canaryClaims then Paused else Running
    else if c.counts.needsReview > 0 || c.counts.failed > 0 then CompletedWithErrors
    else Completed
  }

  /** All five index answers can be loaded. */
  predicate AnswersLoad(found: WorkReads) {
    && (found.pending.Some? ==> ValidItem(found.pending.value))
    && (found.dueRetry.Some? ==> ValidItem(found.dueRetry.value)) && (found.nextRetry.Some? ==> ValidItem(found.nextRetry.value))
    && (found.dueLease.Some? ==> ValidItem(found.dueLease.value)) && (found.nextLease.Some? ==> ValidItem(found.nextLease.value))
  }

  /** What a look at a job comes to from a table. */
  predicate IsLookedAt(s: System, t: System, j: JobId, found: WorkReads, r: Continuation)
    requires j in s.jobs
  {
    var c := s.jobs[j];
    && (r.Refused? <==> !ValidJob(c) || (c.state == Running && !AnswersLoad(found)))
    && (r.LookAgain? ==> StateAfterLook(c) == Running && r.job == c)
    && j in t.jobs && t.jobs[j].state == if ValidJob(c) && AnswersLoad(found) then StateAfterLook(c) else c.state
  }

  /** In every state a look at a job, with nobody else running, raises exactly when the job cannot be loaded, or is
      running and an index answer cannot; otherwise it leaves the job in the state its counters ask for, and is
      repeated only if the job goes on running. */
  lemma LookIsAnsweredExactly(s: System, j: JobId, at: int, found: WorkReads)
    requires Inv(s) && j in s.jobs
    ensures IsLookedAt(s, ContinuedBy(s, j, found), j, found, ContinueReply(s, j, at, found))
  {
    hide Inv;
    hide ValidDryRun;
    hide ValidAggregate;
    hide ValidItem;
    hide WorkDelay;
    LoadedJobIsCopy(s, j);
  }

  /** A cancellation message of which nothing is left to look at again: it raises when the job, or the open item the
      index shows, cannot be loaded; it is the last one exactly when the job is being canceled, no item is open or
      applied and the index shows none; otherwise another look comes in two seconds. */
  lemma CancellationEndsExactly(s: System, j: JobId, found: Option<Item>)
    requires j in s.jobs
    ensures var c := s.jobs[j]; var isDone := c.state == Canceling && c.counts.pending + c.appliedItems == 0;
            && (FinalReply(s, j, found) == Raised <==> !ValidJob(c) || (isDone && found.Some? && !ValidItem(found.value)))
            && (FinalReply(s, j, found) == Nothing <==> ValidJob(c) && isDone && found.None?)
            && (FinalReply(s, j, found).Again? ==> FinalReply(s, j, found) == Again(2))
  {
    hide ValidItem;
    if ValidJob(s.jobs[j]) { RemainingIsOpenWork(s.jobs[j]); }
    hide ValidJob;
  }
}
