/**
 What the validators refuse. Every row is validated when it is loaded, but not when it is written, so
 some committed operations leave a row that nobody can load again. Proved here: exactly which
 operations do so, that such a row never changes afterwards, and what that means for the job.
 */
module MigrationLoads {
  import opened Types
  import opened MigrationRecords
  import opened MigrationProtocol
  import opened MigrationTotals
  import opened MigrationInvariant
  import opened MigrationSteps
  import opened MigrationRows
  import opened MigrationCounters
  import opened MigrationCanary

  // ---------------------------------------------------------------- job rows

  predicate IsTroubled(state: ItemState) {
    CountBucket(state) == InNeedsReview || CountBucket(state) == InFailed
  }

  /** A finish that leaves a job row its validator refuses: it completes a canary once too often, opens
      an ended item of a canceling job again, or contradicts the state an ended job stands in. */
  predicate SpoilsByFinish(c: Job, was: Item, becomes: Item) {
    || (CompletesCanary(was, becomes) && c.canaryCompleted == c.canaryClaims)
    || (c.state == Canceling && IsCancellationTerminal(was.state) && !IsCancellationTerminal(becomes.state))
    || (HasEnded(c.state) && CountBucket(was.state) != InPending && CountBucket(becomes.state) == InPending)
    || (c.state == Completed && !IsTroubled(was.state) && IsTroubled(becomes.state))
    || (c.state == CompletedWithErrors && c.counts.needsReview + c.counts.failed == 1
        && IsTroubled(was.state) && !IsTroubled(becomes.state))
    || (c.state == Canceled && !IsAppliedState(was.state) && IsAppliedState(becomes.state))
  }

  /** An operation that leaves a job row its validator refuses: such a finish, or a cancel that ends a
      job with its discovery cursor or with pending items. */
  predicate Spoils(c: Job, j: JobId, op: Op) {
    match op
    case Control(x, _, _, action, _) =>
      && x == j && action == ControlAction.Cancel
      && ((c.state == Previewing && c.cursor.Some?) || (c.state == AwaitingApproval && c.counts.pending != 0))
    case FinishItem(k, readJob, readItem, caller) =>
      && k.job == j && FinishValueOf(caller).Some?
      && SpoilsByFinish(c, readItem, FinishedItem(readItem, FinishValueOf(caller).value))
    case _ => false
  }

  /** The counters that are sums over items are in range. */
  predicate SumsInRange(j: Job) {
    && ValidCounts(j.counts) && 0 <= j.awaitingProvider <= j.counts.pending && 0 <= j.appliedItems <= j.counts.applied
  }

  lemma BucketsAreInRange(j: JobId, items: map<ItemKey, Item>)
    ensures forall b: Bucket :: 0 <= Total(InBucket(b), j, items)
  {
    hide Total;
    forall b: Bucket ensures 0 <= Total(InBucket(b), j, items) { TotalZero(InBucket(b), j, items); }
  }

  lemma SharesAreInRange(j: JobId, items: map<ItemKey, Item>)
    ensures 0 <= Total(Waiting, j, items) <= Total(InBucket(InPending), j, items)
    ensures 0 <= Total(AppliedNow, j, items) <= Total(InBucket(InApplied), j, items)
  {
    hide Total;
    TotalZero(Waiting, j, items);
    TotalZero(AppliedNow, j, items);
    TotalOrder(Waiting, InBucket(InPending), j, items);
    TotalOrder(AppliedNow, InBucket(InApplied), j, items);
  }

  lemma SumsAreInRange(job: Job, j: JobId, items: map<ItemKey, Item>)
    requires CountsAgree(job, j, items)
    ensures SumsInRange(job)
  {
    hide Total;
    BucketsPartition(j, items);
    BucketsAreInRange(j, items);
    SharesAreInRange(j, items);
  }

  // ---------------------------------------------------------------- one step of a job row

  lemma PreviewOpKeepsValid(c: Job, j: JobId, op: Op)
    requires ValidJob(c) && JobOpAgrees(c, j, op) && (op.PutPreviewItem? || op.RejectPreviewItem?)
    ensures ValidJob(JobAfter(c, j, op))
  {
    hide ValidAggregate;
  }

  lemma ClaimKeepsValid(c: Job)
    requires ValidJob(c) && c.state == Running && c.canaryClaims < c.canarySize
    ensures ValidJob(CanaryClaimedJob(c))
  {
    hide ValidAggregate;
  }

  lemma AggregateCounts(g: Aggregate)
    requires ValidAggregate(g)
    ensures ValidCounts(g.counts) && g.counts.applied == 0
  {
  }

  lemma AdvanceKeepsValid(c: Job, cursor: string)
    requires ValidJob(c) && c.state == Previewing && 1 <= |cursor| <= 512
    ensures ValidJob(c.(revision := c.revision + 1, cursor := Some(cursor)))
  {
    hide ValidAggregate;
  }

  lemma NothingCountedYet(c: Job)
    requires JobOk(c) && c.dryRun.None?
    ensures c.counts.total == 0 && c.counts.pending == 0 && c.counts.applied == 0
    ensures c.canaryClaims == 0 && c.canaryCompleted == 0 && c.awaitingProvider == 0 && c.appliedItems == 0
    ensures c.cancellationRemaining == 0
  {
  }

  lemma CompletionKeepsValid(c: Job, expiresAt: int)
    requires ValidJob(c) && JobOk(c) && c.state == Previewing && IsEpoch(expiresAt)
    ensures ValidJob(CompletedPreviewJob(c, expiresAt))
  {
    hide JobOk;
    hide ValidAggregate;
    NothingCountedYet(c);
    AggregateCounts(c.preview);
  }

  lemma ScheduleKeepsValid(c: Job, tax: string)
    requires ValidJob(c) && c.state == AwaitingApproval
    ensures ValidJob(c.(state := Scheduled, revision := c.revision + 1, tax := Some(tax)))
  {
    hide ValidAggregate;
  }

  lemma StartKeepsValid(c: Job)
    requires ValidJob(c) && c.state == Scheduled
    ensures ValidJob(c.(state := Running, revision := c.revision + 1))
  {
    hide ValidAggregate;
  }

  lemma ContinueKeepsValid(c: Job)
    requires ValidJob(c) && c.state == Running && ContinueTarget(c).Some?
    ensures ValidJob(c.(state := ContinueTarget(c).value, revision := c.revision + 1, canaryApprovalRequired := PausesForCanary(c)))
  {
    hide ValidAggregate;
  }

  lemma BeginKeepsValid(c: Job)
    requires ValidJob(c) && c.state == CancelRequested
    ensures ValidJob(c.(state := Canceling, revision := c.revision + 1, cancellationRemaining := c.counts.pending + c.appliedItems))
  {
    hide ValidAggregate;
  }

  /** A canceling job that can be loaded and has nothing remaining has neither pending nor applied items. */
  lemma FinalizeKeepsValid(c: Job)
    requires ValidJob(c) && c.state == Canceling && c.cancellationRemaining == 0
    ensures ValidJob(c.(state := Canceled, revision := c.revision + 1)) && c.counts.pending == 0 && c.appliedItems == 0
  {
    hide ValidAggregate;
  }

  lemma ControlTargets(c: Job, action: ControlAction, appliedFound: bool)
    requires ControlTarget(c, action, appliedFound).Some?
    ensures var target := ControlTarget(c, action, appliedFound).value;
            if c.state == Previewing || c.state == AwaitingApproval then action == ControlAction.Cancel && target == Canceled
            else if target == Running then c.state == Paused && action == Resume
            else (target == Paused || target == CancelRequested) && action != Resume && IsAuthorized(c.state) && c.state != Canceling
  {
  }

  lemma CancelEndsValidExactly(c: Job)
    requires ValidJob(c) && JobOk(c) && (c.state == Previewing || c.state == AwaitingApproval)
    ensures ValidJob(c.(state := Canceled, revision := c.revision + 1)) <==> if c.state == Previewing then c.cursor.None? else c.counts.pending == 0
  {
    hide JobOk;
    hide ValidAggregate;
    if c.state == Previewing { NothingCountedYet(c); } else { AggregateCounts(c.preview); }
  }

  lemma MoveKeepsValid(c: Job, target: JobState)
    requires ValidJob(c) && IsAuthorized(c.state) && c.state != Canceling
    requires target == Paused || target == CancelRequested || target == Running
    ensures ValidJob(c.(state := target, revision := c.revision + 1))
    ensures ValidJob(c.(state := target, revision := c.revision + 1, canaryApproved := true, canaryApprovalRequired := false))
  {
    hide ValidAggregate;
  }

  lemma ControlKeepsValidExactly(c: Job, action: ControlAction, appliedFound: bool)
    requires ValidJob(c) && JobOk(c) && ControlTarget(c, action, appliedFound).Some?
    ensures ValidJob(ControlledJob(c, ControlTarget(c, action, appliedFound).value, action))
       <==> !(action == ControlAction.Cancel
              && ((c.state == Previewing && c.cursor.Some?) || (c.state == AwaitingApproval && c.counts.pending != 0)))
  {
    hide JobOk;
    hide ControlTarget;
    hide ValidJob;
    ControlTargets(c, action, appliedFound);
    if c.state == Previewing || c.state == AwaitingApproval {
      CancelEndsValidExactly(c);
    } else {
      MoveKeepsValid(c, ControlTarget(c, action, appliedFound).value);
    }
  }

  /** The counters of a job after one item changed, told without the items. */
  lemma FinishKeepsValidExactly(c: Job, was: Item, becomes: Item)
    requires ValidJob(c) && SumsInRange(MetricsJob(c, was, becomes))
    requires c.state == AwaitingApproval || c.state == Scheduled ==> CountBucket(was.state) == CountBucket(becomes.state)
    requires HasEnded(c.state) ==> CountBucket(was.state) != InPending
    requires c.state == Completed ==> !IsTroubled(was.state)
    requires c.state == Canceled ==> !IsAppliedState(was.state)
    ensures ValidJob(MetricsJob(c, was, becomes)) <==> !SpoilsByFinish(c, was, becomes)
  {
    hide ValidAggregate;
  }

  lemma JobUpdateKeepsValidExactly(c: Job, j: JobId, op: Op)
    requires ValidJob(c) && JobOk(c) && JobOpAgrees(c, j, op) && JobUpdate(op).Some? && JobUpdate(op).value.0 == j
    ensures ValidJob(JobAfter(c, j, op)) <==> !Spoils(c, j, op)
  {
    hide ValidJob;
    hide JobOk;
    hide ControlTarget;
    hide ContinueTarget;
    hide PausesForCanary;
    hide ControlledJob;
    hide CompletedPreviewJob;
    hide ValidAggregate;
    match op
    case AdvancePreview(_, _, _, cursor) => AdvanceKeepsValid(c, cursor);
    case CompletePreview(_, _, _, _, _, expiresAt) => CompletionKeepsValid(c, expiresAt);
    case ScheduleExecution(_, _, _, _, _, tax) => ScheduleKeepsValid(c, tax);
    case Control(_, _, _, action, appliedFound) => ControlKeepsValidExactly(c, action, appliedFound);
    case StartExecution(_, _, _) => StartKeepsValid(c);
    case ContinueExecution(_, _) => ContinueKeepsValid(c);
    case BeginCancel(_, _, _) => BeginKeepsValid(c);
    case FinalizeCancellation(_, _, _) => FinalizeKeepsValid(c);
    case _ =>
  }

  // ---------------------------------------------------------------- what a finished item says of its job

  lemma NothingWeighs(q: Measure, k: ItemKey, items: map<ItemKey, Item>)
    requires k in items && Total(q, k.job, items) == 0
    requires forall x | x in items && x.job == k.job :: 0 <= Weight(q, items[x])
    ensures Weight(q, items[k]) == 0
  {
    hide Total;
    hide Weight;
    TotalZero(q, k.job, items);
  }

  /** An item of a job that has ended is not pending, and fits the way its job ended. */
  lemma EndedJobsItems(c: Job, k: ItemKey, items: map<ItemKey, Item>)
    requires k in items && ValidJob(c) && CountsAgree(c, k.job, items)
    ensures HasEnded(c.state) ==> CountBucket(items[k].state) != InPending
    ensures c.state == Completed ==> !IsTroubled(items[k].state)
    ensures c.state == Canceled ==> !IsAppliedState(items[k].state)
  {
    hide Total;
    hide ValidAggregate;
    hide CountBucket;
    hide IsAppliedState;
    if HasEnded(c.state) { NothingWeighs(InBucket(InPending), k, items); }
    if c.state == Completed {
      NothingWeighs(InBucket(InNeedsReview), k, items);
      NothingWeighs(InBucket(InFailed), k, items);
    }
    if c.state == Canceled { NothingWeighs(AppliedNow, k, items); }
  }

  lemma JobCounts(s: System, j: JobId)
    requires Inv(s) && j in s.jobs
    ensures JobOk(s.jobs[j]) && (s.jobs[j].dryRun.Some? ==> CountsAgree(s.jobs[j], j, s.items))
    ensures CanaryAgrees(s.jobs[j], j, s.items)
  {
    JobIsOk(s, j);
    assert CountersAgree(s.jobs[j], j, s.items);
    hide Total;
  }

  lemma ItemsOfJobs(s: System, k: ItemKey)
    requires Inv(s) && k in s.items
    ensures k.job in s.jobs && (k, s.items[k]) in s.itemCopies && ItemOk(s.items[k])
  {
    hide Total;
    hide LeaseBacked;
  }

  lemma ItemCopyIsCurrent(s: System, k: ItemKey)
    requires Inv(s) && k in s.items
    ensures (k, s.items[k]) in s.itemCopies && k.job in s.jobs && (k.job, s.jobs[k.job]) in s.jobCopies
  {
    hide Total;
    hide CountersAgree;
    hide LeaseBacked;
    hide JobOk;
    hide JobFollows;
    hide ItemOk;
    hide ItemFollows;
  }

  lemma AttemptsWeigh(i: Item)
    requires ItemOk(i)
    ensures 0 <= Weight(Attempts, i)
  {
  }

  /** Before its execution starts, no item of a job is attempted. */
  lemma UnstartedItems(s: System, k: ItemKey)
    requires Inv(s) && k in s.items && k.job in s.jobs
    requires s.jobs[k.job].state == AwaitingApproval || s.jobs[k.job].state == Scheduled
    ensures s.items[k].attempts == 0
  {
    hide Inv;
    hide ItemOk;
    hide Total;
    hide CountsAgree;
    JobCounts(s, k.job);
    forall x | x in s.items && x.job == k.job ensures 0 <= Weight(Attempts, s.items[x]) {
      ItemsOfJobs(s, x);
      AttemptsWeigh(s.items[x]);
    }
    TotalZero(Attempts, k.job, s.items);
    assert Weight(Attempts, s.items[k]) == s.items[k].attempts;
  }

  lemma NoFinishBeforeStart(s: System, op: Op)
    requires Inv(s) && op.FinishItem? && Commits(s, op)
    ensures op.k.job in s.jobs && s.jobs[op.k.job].state != AwaitingApproval && s.jobs[op.k.job].state != Scheduled
  {
    hide Inv;
    hide ReadsAreValid;
    hide FinishValueOf;
    hide FinishedItem;
    hide ValidItem;
    hide ChangesMetrics;
    hide JobOk;
    hide ItemOk;
    var c := s.jobs[op.k.job];
    if c.state == AwaitingApproval || c.state == Scheduled {
      UnstartedItems(s, op.k);
      if op.caller.WebhookUpdate? { ItemCopyFacts(s, op.k, op.caller.first); }
      UnclaimedItemsEndByCancellation(op.caller, op.readItem);
      JobCopyFacts(s, op.k.job, op.caller.job);
    }
  }

  lemma FinishKeepsDryRun(c: Job, j: JobId, op: Op)
    requires op.FinishItem? && JobOpAgrees(c, j, op)
    ensures JobAfter(c, j, op).dryRun == c.dryRun
  {
    hide FinishValueOf;
    hide FinishedItem;
    hide ChangesMetrics;
  }

  lemma FinishFinds(s: System, op: Op)
    requires op.FinishItem? && Commits(s, op)
    ensures op.k.job in s.jobs && op.k in s.items && FinishCommits(s, op.k, op.readJob, op.readItem, op.caller)
    ensures FinishValueOf(op.caller).Some?
  {
    hide ReadsAreValid;
    hide FinishValueOf;
    hide FinishedItem;
    hide ValidItem;
  }

  lemma FinishLeavesSumsInRange(s: System, op: Op)
    requires Inv(s) && op.FinishItem? && Commits(s, op)
    ensures op.k.job in s.jobs && s.jobs[op.k.job].dryRun.Some? && SumsInRange(JobAfter(s.jobs[op.k.job], op.k.job, op))
  {
    hide Inv;
    hide Commits;
    hide Effect;
    hide FinishCommits;
    hide FinishValueOf;
    hide JobAfter;
    hide JobOpAgrees;
    hide CountsAgree;
    hide SumsInRange;
    var j := op.k.job;
    FinishFinds(s, op);
    FinishedJobsArePreviewed(s, op.k, op.readJob, op.readItem, op.caller);
    JobRowAfter(s, op, j);
    FinishKeepsDryRun(s.jobs[j], j, op);
    ApplyKeepsInv(s, op);
    JobCounts(Effect(s, op), j);
    SumsAreInRange(Effect(s, op).jobs[j], j, Effect(s, op).items);
  }

  lemma FinishKeepsJobValidExactly(s: System, op: Op)
    requires Inv(s) && op.FinishItem? && Commits(s, op) && op.k.job in s.jobs && ValidJob(s.jobs[op.k.job])
    ensures ValidJob(JobAfter(s.jobs[op.k.job], op.k.job, op)) <==> !Spoils(s.jobs[op.k.job], op.k.job, op)
  {
    hide Inv;
    hide Commits;
    hide FinishCommits;
    hide FinishValueOf;
    hide FinishedItem;
    hide ValidJob;
    hide CountsAgree;
    hide SumsInRange;
    hide JobOk;
    var j, c := op.k.job, s.jobs[op.k.job];
    FinishFinds(s, op);
    FinishLeavesSumsInRange(s, op);
    NoFinishBeforeStart(s, op);
    JobRowAfter(s, op, j);
    ItemRowAfter(s, op, op.k);
    JobCounts(s, j);
    EndedJobsItems(c, op.k, s.items);
    var becomes := FinishedItem(op.readItem, FinishValueOf(op.caller).value);
    FinishRowValidExactly(c, op.readJob, op.readItem, becomes);
  }

  lemma FinishRowValidExactly(c: Job, readJob: Job, was: Item, becomes: Item)
    requires ValidJob(c) && SumsInRange(JobAfterFinish(c, readJob, was, becomes))
    requires ChangesMetrics(readJob, was, becomes) ==> readJob == c
    requires c.state != AwaitingApproval && c.state != Scheduled
    requires HasEnded(c.state) ==> CountBucket(was.state) != InPending
    requires c.state == Completed ==> !IsTroubled(was.state)
    requires c.state == Canceled ==> !IsAppliedState(was.state)
    ensures ValidJob(JobAfterFinish(c, readJob, was, becomes)) <==> !SpoilsByFinish(c, was, becomes)
  {
    if ChangesMetrics(readJob, was, becomes) {
      hide ValidJob;
      FinishKeepsValidExactly(c, was, becomes);
    } else {
      hide ValidJob;
    }
  }

  // ---------------------------------------------------------------- job rows over whole runs

  /** A committed operation leaves the row of a job that can be loaded so exactly when it does not spoil
      it. */
  lemma JobStaysValidExactly(s: System, op: Op, j: JobId)
    requires Inv(s) && Commits(s, op) && j in s.jobs && ValidJob(s.jobs[j])
    ensures j in Effect(s, op).jobs
    ensures ValidJob(Effect(s, op).jobs[j]) <==> !Spoils(s.jobs[j], j, op)
  {
    hide Inv;
    hide Effect;
    hide Commits;
    hide ValidJob;
    hide JobOk;
    JobRowAfter(s, op, j);
    JobIsOk(s, j);
    WriteKeepsValidExactly(s, op, j);
  }

  lemma WriteKeepsValidExactly(s: System, op: Op, j: JobId)
    requires Inv(s) && Commits(s, op) && j in s.jobs && ValidJob(s.jobs[j]) && JobOk(s.jobs[j]) && JobOpAgrees(s.jobs[j], j, op)
    ensures ValidJob(JobAfter(s.jobs[j], j, op)) <==> !Spoils(s.jobs[j], j, op)
  {
    hide Inv;
    hide ValidJob;
    hide JobOk;
    var c := s.jobs[j];
    if op.FinishItem? && op.k.job == j {
      hide Commits;
      FinishKeepsJobValidExactly(s, op);
    } else {
      if op.Control? { CommittedControlUpdates(s, op); }
      hide Commits;
      RowOpKeepsValidExactly(c, j, op);
    }
  }

  lemma ControlWritesItsJob(op: Op)
    requires op.Control? && JobUpdate(op).Some?
    ensures JobUpdate(op).value.0 == op.j
  {
    hide ControlTarget;
  }

  lemma CommittedControlUpdates(s: System, op: Op)
    requires Commits(s, op) && op.Control?
    ensures JobUpdate(op).Some?
  {
    hide JobUpdate;
    hide ReadsAreValid;
  }

  lemma RowOpKeepsValidExactly(c: Job, j: JobId, op: Op)
    requires ValidJob(c) && JobOk(c) && JobOpAgrees(c, j, op) && !(op.FinishItem? && op.k.job == j)
    requires op.Control? ==> JobUpdate(op).Some?
    ensures ValidJob(JobAfter(c, j, op)) <==> !Spoils(c, j, op)
  {
    hide FinishValueOf;
    hide FinishedItem;
    if op.Control? { ControlWritesItsJob(op); }
    hide JobUpdate;
    if op.PutPreviewItem? || op.RejectPreviewItem? {
      PreviewOpKeepsValid(c, j, op);
    } else if op.ClaimItem? {
      if op.k.job == j && ClaimsCanary(op.readItem, op.request) { ClaimKeepsValid(c); }
    } else if JobUpdate(op).Some? && JobUpdate(op).value.0 == j {
      JobUpdateKeepsValidExactly(c, j, op);
    }
    hide ValidJob;
    hide JobOk;
  }

  /** A job row that cannot be loaded never changes again. */
  lemma InvalidJobStays(s: System, op: Op, j: JobId)
    requires Inv(s) && j in s.jobs && !ValidJob(s.jobs[j])
    ensures j in Apply(s, op).jobs && Apply(s, op).jobs[j] == s.jobs[j]
  {
    hide Inv;
    hide Effect;
    hide ValidJob;
    if Commits(s, op) { JobChangeReadsCurrent(s, op, j); }
  }

  /** No committed operation of the run spoils the row of a job. */
  predicate NeverSpoiled(s: System, ops: seq<Op>, j: JobId)
    decreases |ops|
  {
    ops == [] ||
    (&& !(Commits(s, ops[0]) && j in s.jobs && Spoils(s.jobs[j], j, ops[0]))
     && NeverSpoiled(Apply(s, ops[0]), ops[1..], j))
  }

  lemma {:induction false} InvalidJobsStay(s: System, ops: seq<Op>, j: JobId)
    requires Inv(s) && j in s.jobs && !ValidJob(s.jobs[j])
    ensures j in Run(s, ops).jobs && Run(s, ops).jobs[j] == s.jobs[j]
    decreases |ops|
  {
    hide Inv;
    hide Apply;
    hide ValidJob;
    if ops == [] {
    } else {
      ApplyKeepsInv(s, ops[0]);
      InvalidJobStays(s, ops[0], j);
      InvalidJobsStay(Apply(s, ops[0]), ops[1..], j);
    }
  }

  /** A job row that is refused stays as it is for ever, in every continuation of every run. */
  lemma RefusedJobsNeverChange(ops: seq<Op>, later: seq<Op>, j: JobId)
    requires j in Run(EMPTY, ops).jobs && !ValidJob(Run(EMPTY, ops).jobs[j])
    ensures var t := Run(Run(EMPTY, ops), later); j in t.jobs && t.jobs[j] == Run(EMPTY, ops).jobs[j]
  {
    hide Run;
    hide ValidJob;
    EmptyInv();
    RunKeepsInv(EMPTY, ops);
    hide Inv;
    InvalidJobsStay(Run(EMPTY, ops), later, j);
  }

  lemma {:induction false} ValidUntilSpoiled(s: System, ops: seq<Op>, j: JobId)
    requires Inv(s) && j in s.jobs && ValidJob(s.jobs[j])
    ensures j in Run(s, ops).jobs && (ValidJob(Run(s, ops).jobs[j]) <==> NeverSpoiled(s, ops, j))
    decreases |ops|
  {
    hide Inv;
    hide Commits;
    hide Effect;
    hide ValidJob;
    hide Spoils;
    if ops == [] {
    } else {
      var t := Apply(s, ops[0]);
      ApplyKeepsInv(s, ops[0]);
      if Commits(s, ops[0]) { JobStaysValidExactly(s, ops[0], j); }
      if ValidJob(t.jobs[j]) {
        ValidUntilSpoiled(t, ops[1..], j);
      } else {
        InvalidJobsStay(t, ops[1..], j);
      }
    }
  }

  lemma NewJobIsValid(s: System, op: Op, j: JobId)
    requires Inv(s) && j !in s.jobs && j in Apply(s, op).jobs
    ensures ValidJob(Apply(s, op).jobs[j])
  {
    hide Inv;
    ItemsAfter(s, op);
    assert op.CreateJob?;
    CreatedIsValid(op.canarySize, op.accountConcurrency, op.policy, op.createdAt);
    hide ValidJob;
  }

  lemma EmptyAggregateIsValid(g: Aggregate)
    requires g == Aggregate(0, 0, 0, Counts(0, 0, 0, 0, 0))
    ensures ValidAggregate(g)
  {
  }

  lemma UncountedJobIsValid(c: Job)
    requires 1 <= c.canarySize <= 25 && 1 <= c.accountConcurrency <= MAX_SLOTS && 1 <= c.revision && IsEpoch(c.createdAt)
    requires c.state == Previewing && c.dryRun.None? && c.tax.None? && c.cursor.None?
    requires ValidCounts(c.counts) && c.counts.total == 0 && ValidAggregate(c.preview)
    requires c.canaryClaims == 0 && c.canaryCompleted == 0 && c.awaitingProvider == 0 && c.appliedItems == 0
    requires c.cancellationRemaining == 0 && !c.mutationStarted && !c.canaryApproved
    ensures ValidJob(c)
  {
    hide ValidAggregate;
    assert ValidDryRun(c);
    assert ValidCounters(c);
    hide ValidDryRun;
    hide ValidCounters;
  }

  lemma CreatedIsValid(canarySize: int, accountConcurrency: int, policy: Policy, createdAt: int)
    requires 1 <= canarySize <= 25 && 1 <= accountConcurrency <= MAX_SLOTS && IsEpoch(createdAt)
    ensures ValidJob(NewJob(canarySize, accountConcurrency, policy, createdAt))
  {
    hide ValidJob;
    hide ValidAggregate;
    var c := NewJob(canarySize, accountConcurrency, policy, createdAt);
    EmptyAggregateIsValid(c.preview);
    UncountedJobIsValid(c);
  }

  lemma {:induction false} CreatedJobsUntilSpoiled(s: System, ops: seq<Op>, j: JobId)
    requires Inv(s) && j !in s.jobs && j in Run(s, ops).jobs
    ensures ValidJob(Run(s, ops).jobs[j]) <==> NeverSpoiled(s, ops, j)
    decreases |ops|
  {
    hide Inv;
    hide Apply;
    hide Commits;
    hide ValidJob;
    hide Spoils;
    var t := Apply(s, ops[0]);
    ApplyKeepsInv(s, ops[0]);
    if j in t.jobs {
      NewJobIsValid(s, ops[0], j);
      ValidUntilSpoiled(t, ops[1..], j);
    } else {
      CreatedJobsUntilSpoiled(t, ops[1..], j);
    }
  }

  /** In every run the row of a job can be loaded exactly when no committed operation has spoiled it: a
      cancel that ends it with a cursor or with pending items, or one of the finishes that contradict
      its state. */
  lemma JobsLoadExactlyUntilSpoiled(ops: seq<Op>, j: JobId)
    requires j in Run(EMPTY, ops).jobs
    ensures ValidJob(Run(EMPTY, ops).jobs[j]) <==> NeverSpoiled(EMPTY, ops, j)
  {
    EmptyInv();
    hide Inv;
    hide ValidJob;
    hide NeverSpoiled;
    CreatedJobsUntilSpoiled(EMPTY, ops, j);
  }

  /** The states in which a job row can be refused, and the one counter that refuses it in any other. */
  predicate MayBeRefused(c: Job) { HasEnded(c.state) || c.state == Canceling || c.canaryClaims < c.canaryCompleted }

  lemma SpoiledRow(c: Job, j: JobId, op: Op)
    requires ValidJob(c) && JobOpAgrees(c, j, op) && Spoils(c, j, op) && (op.Control? ==> JobUpdate(op).Some?)
    requires op.FinishItem? ==> FinishValueOf(op.caller).Some?
    ensures MayBeRefused(JobAfter(c, j, op))
  {
    hide FinishValueOf;
    hide FinishedItem;
    hide ValidJob;
    if op.Control? {
      ControlWritesItsJob(op);
      ControlTargets(c, op.action, op.appliedFound);
    }
  }

  lemma RefusedStep(s: System, op: Op, j: JobId)
    requires Inv(s) && j in s.jobs && (ValidJob(s.jobs[j]) || MayBeRefused(s.jobs[j]))
    ensures j in Apply(s, op).jobs
    ensures ValidJob(Apply(s, op).jobs[j]) || MayBeRefused(Apply(s, op).jobs[j])
  {
    hide Inv;
    hide Effect;
    hide ValidJob;
    hide MayBeRefused;
    if !ValidJob(s.jobs[j]) {
      InvalidJobStays(s, op, j);
    } else if Commits(s, op) {
      JobRowAfter(s, op, j);
      JobStaysValidExactly(s, op, j);
      if op.Control? { CommittedControlUpdates(s, op); }
      if op.FinishItem? { FinishFinds(s, op); }
      hide Commits;
      hide Spoils;
      hide JobAfter;
      if Spoils(s.jobs[j], j, op) { SpoiledRow(s.jobs[j], j, op); }
    }
  }

  lemma {:induction false} RunRefuses(s: System, ops: seq<Op>, j: JobId)
    requires Inv(s) && j in Run(s, ops).jobs
    requires j in s.jobs ==> ValidJob(s.jobs[j]) || MayBeRefused(s.jobs[j])
    ensures ValidJob(Run(s, ops).jobs[j]) || MayBeRefused(Run(s, ops).jobs[j])
    decreases |ops|
  {
    hide Inv;
    hide Apply;
    hide ValidJob;
    hide MayBeRefused;
    if ops == [] {
    } else {
      ApplyKeepsInv(s, ops[0]);
      if j in s.jobs {
        RefusedStep(s, ops[0], j);
      } else if j in Apply(s, ops[0]).jobs {
        NewJobIsValid(s, ops[0], j);
      }
      RunRefuses(Apply(s, ops[0]), ops[1..], j);
    }
  }

  /** In every run a scheduled, running, paused or cancel-requested job can be loaded exactly when its
      canaries have completed no more often than they were claimed. */
  lemma LiveJobsLoadExactly(ops: seq<Op>, j: JobId)
    requires j in Run(EMPTY, ops).jobs
    ensures var c := Run(EMPTY, ops).jobs[j];
            !HasEnded(c.state) && c.state != Canceling ==> (ValidJob(c) <==> c.canaryCompleted <= c.canaryClaims)
  {
    EmptyInv();
    hide Inv;
    RunRefuses(EMPTY, ops, j);
    assert ValidJob(Run(EMPTY, ops).jobs[j]) ==> ValidCounters(Run(EMPTY, ops).jobs[j]);
    hide ValidJob;
    hide Run;
  }

  // ---------------------------------------------------------------- item rows

  /** A committed operation leaves the row of an item that can be loaded so exactly when it is not the
      claim of a retry. */
  lemma ItemRowStaysValidExactly(c: Item, k: ItemKey, op: Op)
    requires ItemOpAgrees(c, k, op) && ItemOk(c) && ValidItem(c) && ItemOk(ItemAfter(c, k, op))
    ensures ValidItem(ItemAfter(c, k, op)) <==> !(op.ClaimItem? && op.k == k && c.state == RetryableFailure)
  {
    hide FinishValueOf;
  }

  /** The row of an item that cannot be loaded is that of an applying item with a reason, and so is every
      copy of it that the write conditions accept. */
  lemma RefusedItemHasReason(c: Item)
    requires ItemOk(c)
    ensures ValidItem(c) <==> !(c.state == Applying && c.reason.Some?)
  {
  }

  lemma RefusedRowStays(c: Item, k: ItemKey, op: Op)
    requires ItemOpAgrees(c, k, op) && ItemOk(c) && !ValidItem(c)
    ensures ItemAfter(c, k, op) == c
  {
    hide FinishValueOf;
  }

  lemma InvalidItemStays(s: System, op: Op, k: ItemKey)
    requires Inv(s) && k in s.items && !ValidItem(s.items[k])
    ensures k in Apply(s, op).items && Apply(s, op).items[k] == s.items[k]
  {
    hide Inv;
    hide Effect;
    hide ValidItem;
    if Commits(s, op) {
      ItemRowAfter(s, op, k);
      ItemsOfJobs(s, k);
      hide Commits;
      hide ItemAfter;
      hide ItemOpAgrees;
      RefusedRowStays(s.items[k], k, op);
    }
  }

  lemma {:induction false} InvalidItemsStay(s: System, ops: seq<Op>, k: ItemKey)
    requires Inv(s) && k in s.items && !ValidItem(s.items[k])
    ensures k in Run(s, ops).items && Run(s, ops).items[k] == s.items[k]
    decreases |ops|
  {
    hide Inv;
    hide Apply;
    hide ValidItem;
    if ops == [] {
    } else {
      ApplyKeepsInv(s, ops[0]);
      InvalidItemStays(s, ops[0], k);
      InvalidItemsStay(Apply(s, ops[0]), ops[1..], k);
    }
  }

  predicate ClaimsRetry(s: System, op: Op, k: ItemKey) {
    op.ClaimItem? && op.k == k && k in s.items && s.items[k].state == RetryableFailure && Commits(s, op)
  }

  /** Some claim of the run takes the item while it waits for a retry. */
  predicate HasClaimedRetry(s: System, ops: seq<Op>, k: ItemKey)
    decreases |ops|
  {
    ops != [] && (ClaimsRetry(s, ops[0], k) || HasClaimedRetry(Apply(s, ops[0]), ops[1..], k))
  }

  lemma ItemStaysValidExactly(s: System, op: Op, k: ItemKey)
    requires Inv(s) && k in s.items && ValidItem(s.items[k])
    ensures k in Apply(s, op).items
    ensures ValidItem(Apply(s, op).items[k]) <==> !ClaimsRetry(s, op, k)
  {
    hide Inv;
    hide Effect;
    hide ValidItem;
    if Commits(s, op) {
      ItemRowAfter(s, op, k);
      ItemsOfJobs(s, k);
      ApplyKeepsInv(s, op);
      ItemsOfJobs(Effect(s, op), k);
      hide Commits;
      hide ItemAfter;
      hide ItemOpAgrees;
      ItemRowStaysValidExactly(s.items[k], k, op);
    }
  }

  lemma {:induction false} ValidUntilClaimed(s: System, ops: seq<Op>, k: ItemKey)
    requires Inv(s) && k in s.items && ValidItem(s.items[k])
    ensures k in Run(s, ops).items && (ValidItem(Run(s, ops).items[k]) <==> !HasClaimedRetry(s, ops, k))
    decreases |ops|
  {
    hide Inv;
    hide Apply;
    hide ValidItem;
    hide ClaimsRetry;
    if ops == [] {
    } else {
      ApplyKeepsInv(s, ops[0]);
      ItemStaysValidExactly(s, ops[0], k);
      if ClaimsRetry(s, ops[0], k) {
        InvalidItemsStay(Apply(s, ops[0]), ops[1..], k);
      } else {
        ValidUntilClaimed(Apply(s, ops[0]), ops[1..], k);
      }
    }
  }

  lemma NewItemIsValid(s: System, op: Op, k: ItemKey)
    requires Inv(s) && k !in s.items
    ensures !ClaimsRetry(s, op, k)
    ensures k in Apply(s, op).items ==> ValidItem(Apply(s, op).items[k])
  {
    hide Inv;
    hide Effect;
    if Commits(s, op) {
      ItemsAfter(s, op);
      PutItemsAreValid(s, op);
    }
    hide Commits;
    hide ValidItem;
  }

  lemma PutItemsAreValid(s: System, op: Op)
    requires Commits(s, op)
    ensures op.PutPreviewItem? ==> ValidItem(op.item)
  {
    hide ReadsAreValid;
  }

  lemma {:induction false} PutItemsUntilClaimed(s: System, ops: seq<Op>, k: ItemKey)
    requires Inv(s) && k !in s.items && k in Run(s, ops).items
    ensures ValidItem(Run(s, ops).items[k]) <==> !HasClaimedRetry(s, ops, k)
    decreases |ops|
  {
    hide Inv;
    hide Apply;
    hide ValidItem;
    hide ClaimsRetry;
    var t := Apply(s, ops[0]);
    ApplyKeepsInv(s, ops[0]);
    NewItemIsValid(s, ops[0], k);
    if k in t.items {
      ValidUntilClaimed(t, ops[1..], k);
    } else {
      PutItemsUntilClaimed(t, ops[1..], k);
    }
  }

  /** In every run the row of an item can be loaded exactly when it was never claimed while it waited for
      a retry, which is exactly when it is not an applying item with a reason. */
  lemma ItemsLoadExactlyUntilRetryIsClaimed(ops: seq<Op>, k: ItemKey)
    requires k in Run(EMPTY, ops).items
    ensures var i := Run(EMPTY, ops).items[k];
            && (ValidItem(i) <==> !HasClaimedRetry(EMPTY, ops, k))
            && (ValidItem(i) <==> !(i.state == Applying && i.reason.Some?))
  {
    hide Run;
    hide ValidItem;
    hide HasClaimedRetry;
    EmptyInv();
    RunKeepsInv(EMPTY, ops);
    ItemsOfJobs(Run(EMPTY, ops), k);
    hide Inv;
    PutItemsUntilClaimed(EMPTY, ops, k);
    RefusedItemHasReason(Run(EMPTY, ops).items[k]);
  }
}
