/**
 Cancellation: what its remaining counter means, when a job may be called canceled, and how often
 an item can be attempted or retried.
 */
module MigrationCancellation {
  import opened Types
  import opened MigrationRecords
  import opened MigrationProtocol
  import opened MigrationTotals
  import opened MigrationInvariant
  import opened MigrationSteps
  import opened MigrationRows
  import opened MigrationCounters
  import opened MigrationCanary
  import opened MigrationLoads
  import opened MigrationApproval

  /** The items of a job that cancellation still has to end. */
  function UnfinishedItems(j: JobId, items: map<ItemKey, Item>): set<ItemKey> {
    set k | k in items && k.job == j && !IsCancellationTerminal(items[k].state)
  }

  /** A finish that opens an item again whose pending update had expired while its job cancels. */
  predicate Reopens(c: Job, j: JobId, op: Op) {
    && op.FinishItem? && op.k.job == j && c.state == Canceling && FinishValueOf(op.caller).Some?
    && IsCancellationTerminal(op.readItem.state) && !IsCancellationTerminal(FinishValueOf(op.caller).value.state)
  }

  ghost predicate RemainingExact(job: Job, j: JobId, items: map<ItemKey, Item>) {
    job.state == Canceling ==> job.cancellationRemaining == Total(Unfinished, j, items)
  }

  ghost predicate JobRemainingExact(s: System, j: JobId) {
    j in s.jobs ==> RemainingExact(s.jobs[j], j, s.items)
  }

  // ---------------------------------------------------------------- one step

  /** Writing an item keeps the remaining counter exact unless the write reopens the item. */
  lemma ItemWriteAndRemaining(c: Job, j: JobId, op: Op, items: map<ItemKey, Item>)
    requires RemainingExact(c, j, items) && JobOpAgrees(c, j, op) && ItemWriteOf(op).Some?
    requires op.FinishItem? ==> FinishValueOf(op.caller).Some?
    requires var k := ItemWriteOf(op).value.0;
             if op.PutPreviewItem? then k !in items else k in items && ItemOpAgrees(items[k], k, op)
    ensures RemainingExact(JobAfter(c, j, op), j, items[ItemWriteOf(op).value.0 := ItemWriteOf(op).value.1])
       <==> !Reopens(c, j, op)
  {
    hide Total;
    hide FinishValueOf;
    hide AddPreviewItem;
    hide ReplacePreviewItem;
    var (k, i) := ItemWriteOf(op).value;
    TotalPut(Unfinished, j, items, k, i);
  }

  lemma JobOpAndRemaining(c: Job, j: JobId, op: Op, items: map<ItemKey, Item>)
    requires RemainingExact(c, j, items) && JobOpAgrees(c, j, op) && ItemWriteOf(op).None? && !op.FinishItem?
    requires JobOk(c) && (c.dryRun.Some? ==> CountsAgree(c, j, items))
    ensures RemainingExact(JobAfter(c, j, op), j, items)
  {
    hide Total;
    UnfinishedIsPendingPlusApplied(j, items);
  }

  /** What one committed operation does to the remaining counter of one job. */
  lemma StepAndRemaining(s: System, op: Op, j: JobId)
    requires Inv(s) && Commits(s, op) && j in s.jobs && RemainingExact(s.jobs[j], j, s.items)
    ensures j in Effect(s, op).jobs
    ensures RemainingExact(Effect(s, op).jobs[j], j, Effect(s, op).items) <==> !Reopens(s.jobs[j], j, op)
  {
    hide Inv;
    hide Commits;
    hide Effect;
    hide RemainingExact;
    hide JobAfter;
    hide JobOpAgrees;
    hide ItemOpAgrees;
    hide ItemWriteOf;
    ItemsAfter(s, op);
    FreshItemsArePut(s, op);
    JobRowAfter(s, op, j);
    JobCounts(s, j);
    if ItemWriteOf(op).Some? {
      if !op.PutPreviewItem? { ItemRowAfter(s, op, ItemWriteOf(op).value.0); }
      ItemWriteAndRemaining(s.jobs[j], j, op, s.items);
    } else {
      JobOpAndRemaining(s.jobs[j], j, op, s.items);
    }
  }

  // ---------------------------------------------------------------- whole runs

  /** No committed operation of the run reopens an item of the job. */
  predicate NeverReopens(s: System, ops: seq<Op>, j: JobId)
    decreases |ops|
  {
    ops == [] ||
    (&& !(Commits(s, ops[0]) && j in s.jobs && Reopens(s.jobs[j], j, ops[0]))
     && NeverReopens(Apply(s, ops[0]), ops[1..], j))
  }

  lemma StepKeepsRemaining(s: System, op: Op, j: JobId)
    requires Inv(s) && JobRemainingExact(s, j)
    requires !(Commits(s, op) && j in s.jobs && Reopens(s.jobs[j], j, op))
    ensures JobRemainingExact(Apply(s, op), j)
  {
    hide Inv;
    hide Commits;
    hide Effect;
    hide Reopens;
    if Commits(s, op) {
      ItemsAfter(s, op);
      if j in s.jobs { StepAndRemaining(s, op, j); }
    }
  }

  lemma {:induction false} RunKeepsRemaining(s: System, ops: seq<Op>, j: JobId)
    requires Inv(s) && JobRemainingExact(s, j) && NeverReopens(s, ops, j)
    ensures JobRemainingExact(Run(s, ops), j)
    decreases |ops|
  {
    hide Inv;
    hide JobRemainingExact;
    hide Apply;
    hide Commits;
    hide Reopens;
    if ops == [] {
    } else {
      ApplyKeepsInv(s, ops[0]);
      StepKeepsRemaining(s, ops[0], j);
      RunKeepsRemaining(Apply(s, ops[0]), ops[1..], j);
    }
  }

  /** In every run that reopens no item of a job, one more operation keeps the remaining counter of the
      job exact if and only if it does not reopen an item of it. */
  lemma RemainingBreaksExactlyOnReopen(ops: seq<Op>, op: Op, j: JobId)
    requires NeverReopens(EMPTY, ops, j) && Commits(Run(EMPTY, ops), op) && j in Run(EMPTY, ops).jobs
    ensures var s := Run(EMPTY, ops); var t := Effect(s, op);
            j in t.jobs && (RemainingExact(t.jobs[j], j, t.items) <==> !Reopens(s.jobs[j], j, op))
  {
    hide Run;
    hide Inv;
    hide Commits;
    hide Effect;
    hide NeverReopens;
    hide RemainingExact;
    EmptyInv();
    RunKeepsInv(EMPTY, ops);
    RunKeepsRemaining(EMPTY, ops, j);
    StepAndRemaining(Run(EMPTY, ops), op, j);
  }

  /** While a job cancels, the items that still have to end are its pending and its applied ones, and its
      remaining counter is their number as long as no item was reopened, and in any case as long as the
      row can be loaded. */
  lemma RemainingCountsUnfinishedItems(ops: seq<Op>, j: JobId)
    requires j in Run(EMPTY, ops).jobs && Run(EMPTY, ops).jobs[j].state == Canceling
    ensures var s := Run(EMPTY, ops); var job := s.jobs[j];
            && |UnfinishedItems(j, s.items)| == job.counts.pending + job.appliedItems
            && (ValidJob(job) || NeverReopens(EMPTY, ops, j) ==> job.cancellationRemaining == |UnfinishedItems(j, s.items)|)
  {
    hide Run;
    hide Inv;
    hide Total;
    hide NeverReopens;
    var s := Run(EMPTY, ops);
    EmptyInv();
    RunKeepsInv(EMPTY, ops);
    if NeverReopens(EMPTY, ops, j) { RunKeepsRemaining(EMPTY, ops, j); }
    JobCounts(s, j);
    TotalCounts(Unfinished, j, s.items, UnfinishedItems(j, s.items));
    UnfinishedIsPendingPlusApplied(j, s.items);
    CancelingRemaining(s.jobs[j]);
    hide ValidJob;
  }

  lemma CancelingRemaining(c: Job)
    ensures ValidJob(c) && c.state == Canceling ==> c.cancellationRemaining == c.counts.pending + c.appliedItems
  {
    hide ValidAggregate;
  }

  lemma FinalizedJob(c: Job, op: Op)
    requires op.FinalizeCancellation? && JobUpdate(op).Some? && JobOpAgrees(c, op.j, op)
    ensures c.state == Canceling && c.cancellationRemaining == 0 && JobAfter(c, op.j, op).state == Canceled
  {
  }

  lemma FinalizeRead(s: System, op: Op)
    requires op.FinalizeCancellation? && Commits(s, op)
    ensures op.j in s.jobs && JobUpdate(op).Some?
  {
    hide ReadsAreValid;
  }

  lemma FinalizeWrites(op: Op)
    requires op.FinalizeCancellation? && JobUpdate(op).Some?
    ensures JobWriteOf(op).Some? && JobWriteOf(op).value.0 == op.j
  {
  }

  lemma FinalizeStep(s: System, op: Op)
    requires Inv(s) && op.FinalizeCancellation? && Commits(s, op)
    ensures op.j in s.jobs && s.jobs[op.j].state == Canceling && s.jobs[op.j].cancellationRemaining == 0 && ValidJob(s.jobs[op.j])
    ensures op.j in Effect(s, op).jobs && Effect(s, op).jobs[op.j].state == Canceled && Effect(s, op).items == s.items
  {
    hide Inv;
    hide ValidJob;
    FinalizeRead(s, op);
    FinalizeWrites(op);
    WriteReadsCurrentJob(s, op);
    hide Commits;
    hide Effect;
    hide JobUpdate;
    hide JobAfter;
    hide JobOpAgrees;
    JobRowAfter(s, op, op.j);
    ItemsAfter(s, op);
    FinalizedJob(s.jobs[op.j], op);
  }

  /** The step to canceled is taken only when every item of the job is reverted, skipped, expired,
      in review or failed, even after items were reopened: a counter that lost an item is refused. */
  lemma CanceledMeansEveryItemEnded(ops: seq<Op>, op: Op)
    requires op.FinalizeCancellation? && Commits(Run(EMPTY, ops), op)
    ensures var s := Run(EMPTY, ops);
            && op.j in Effect(s, op).jobs && Effect(s, op).jobs[op.j].state == Canceled
            && forall k | k in Effect(s, op).items && k.job == op.j :: IsCancellationTerminal(Effect(s, op).items[k].state)
  {
    hide Run;
    hide Inv;
    hide Commits;
    hide Effect;
    hide ValidJob;
    hide NeverReopens;
    var s := Run(EMPTY, ops);
    EmptyInv();
    RunKeepsInv(EMPTY, ops);
    FinalizeStep(s, op);
    RemainingCountsUnfinishedItems(ops, op.j);
    assert UnfinishedItems(op.j, s.items) == {};
    forall k | k in s.items && k.job == op.j ensures IsCancellationTerminal(s.items[k].state) {
      assert k !in UnfinishedItems(op.j, s.items);
    }
  }

  // ---------------------------------------------------------------- attempts

  /** How many claims of an item that start an attempt commit in a run. */
  function AttemptsStarted(s: System, ops: seq<Op>, k: ItemKey): nat
    decreases |ops|
  {
    if ops == [] then 0 else
    var first := if StartsAttempt(s, ops[0], k.job) && ops[0].k == k then 1 else 0;
    first + AttemptsStarted(Apply(s, ops[0]), ops[1..], k)
  }

  lemma AttemptsOfOneStep(c: Item, k: ItemKey, op: Op)
    requires ItemOpAgrees(c, k, op)
    ensures ItemAfter(c, k, op).attempts
         == c.attempts + (if op.ClaimItem? && op.k == k && !IsReconcileOnly(op.readItem) then 1 else 0)
  {
    hide FinishValueOf;
  }

  lemma AttemptsOfOneApply(s: System, op: Op, k: ItemKey)
    requires Inv(s) && k in s.items
    ensures k in Apply(s, op).items
    ensures Apply(s, op).items[k].attempts
         == s.items[k].attempts + (if StartsAttempt(s, op, k.job) && op.k == k then 1 else 0)
  {
    hide Effect;
    hide Inv;
    if Commits(s, op) {
      ItemRowAfter(s, op, k);
      hide Commits;
      hide ItemAfter;
      hide ItemOpAgrees;
      AttemptsOfOneStep(s.items[k], k, op);
    }
  }

  /** Every claim that starts an attempt shows in the item's attempts, which never fall and never
      pass five. */
  lemma {:induction false} AttemptsCountClaims(s: System, ops: seq<Op>, k: ItemKey)
    requires Inv(s) && k in s.items
    ensures k in Run(s, ops).items
    ensures Run(s, ops).items[k].attempts == s.items[k].attempts + AttemptsStarted(s, ops, k) <= MAX_ATTEMPTS
    decreases |ops|
  {
    hide Inv;
    hide Apply;
    hide StartsAttempt;
    if ops == [] {
      ItemsAreOk(s);
    } else {
      ApplyKeepsInv(s, ops[0]);
      AttemptsOfOneApply(s, ops[0], k);
      AttemptsCountClaims(Apply(s, ops[0]), ops[1..], k);
    }
  }

  lemma NewItemStep(s: System, op: Op, k: ItemKey)
    requires Inv(s) && k !in s.items
    ensures !(StartsAttempt(s, op, k.job) && op.k == k)
    ensures !(IsCancellationStep(op) && op.k == k && Commits(s, op))
    ensures k in Apply(s, op).items ==> FreshItem(Apply(s, op).items[k])
  {
    hide Inv;
    hide Effect;
    if Commits(s, op) {
      ItemsAfter(s, op);
      FreshItemsArePut(s, op);
    }
    hide FinishValueOf;
    hide ValidItem;
  }

  lemma {:induction false} AttemptsAfterCreation(s: System, ops: seq<Op>, k: ItemKey)
    requires Inv(s) && k !in s.items && k in Run(s, ops).items
    ensures Run(s, ops).items[k].attempts == AttemptsStarted(s, ops, k) <= MAX_ATTEMPTS
    decreases |ops|
  {
    hide Inv;
    hide Apply;
    hide Commits;
    hide StartsAttempt;
    ApplyKeepsInv(s, ops[0]);
    NewItemStep(s, ops[0], k);
    if k in Apply(s, ops[0]).items {
      AttemptsCountClaims(Apply(s, ops[0]), ops[1..], k);
    } else {
      AttemptsAfterCreation(Apply(s, ops[0]), ops[1..], k);
    }
  }

  /** In every run an item's attempts are exactly the claims that started an attempt on it, at most
      five. */
  lemma AttemptsAreClaims(ops: seq<Op>, k: ItemKey)
    requires k in Run(EMPTY, ops).items
    ensures Run(EMPTY, ops).items[k].attempts == AttemptsStarted(EMPTY, ops, k) <= MAX_ATTEMPTS
  {
    hide Run;
    hide Inv;
    EmptyInv();
    AttemptsAfterCreation(EMPTY, ops, k);
  }

  // ---------------------------------------------------------------- retries of a cancellation

  predicate IsCancellationStep(op: Op) {
    op.FinishItem? && (op.caller.CompleteCancellation? || op.caller.RetryCancellation?)
  }

  /** The condition of a cancellation step that lowers the work left on its item. */
  predicate LowersWork(op: Op)
    requires IsCancellationStep(op) && FinishValueOf(op.caller).Some?
  {
    && !IsCancellationTerminal(op.readItem.state)
    && (IsCancellationTerminal(FinishValueOf(op.caller).value.state)
        || op.readItem.cancellationAttempts <= op.caller.first.cancellationAttempts)
  }

  /** The same on one row. */
  lemma StepOnOneItem(c: Item, k: ItemKey, op: Op)
    requires IsCancellationStep(op) && op.k == k && ItemOpAgrees(c, k, op)
    ensures var before := Weight(CancellationWork, c);
            var after := Weight(CancellationWork, ItemAfter(c, k, op));
            before <= MAX_ATTEMPTS + 1 && (after < before <==> LowersWork(op))
  {
  }

  /** A committed cancellation step lowers the work left on its item exactly when the copy it is
      conditioned on is still open and either the step ends the item or the copy has no more
      cancellation attempts than the one the step was computed from. */
  lemma CancellationStepLowersWork(s: System, op: Op)
    requires Inv(s) && Commits(s, op) && IsCancellationStep(op)
    ensures op.k in s.items && op.k in Effect(s, op).items
    ensures var before := Weight(CancellationWork, s.items[op.k]);
            var after := Weight(CancellationWork, Effect(s, op).items[op.k]);
            && FinishValueOf(op.caller).Some? && before <= MAX_ATTEMPTS + 1
            && (after < before <==> LowersWork(op))
  {
    hide Inv;
    hide FinishValueOf;
    assert op.k in s.items && FinishValueOf(op.caller).Some?;
    ItemRowAfter(s, op, op.k);
    hide Commits;
    hide Effect;
    hide Weight;
    hide ItemAfter;
    hide ItemOpAgrees;
    StepOnOneItem(s.items[op.k], op.k, op);
  }

  /** The same in every run. */
  lemma CancellationStepsInRuns(ops: seq<Op>, op: Op)
    requires Commits(Run(EMPTY, ops), op) && IsCancellationStep(op)
    ensures var s := Run(EMPTY, ops);
            && FinishValueOf(op.caller).Some? && op.k in s.items && op.k in Effect(s, op).items
            && (Weight(CancellationWork, Effect(s, op).items[op.k]) < Weight(CancellationWork, s.items[op.k]) <==> LowersWork(op))
  {
    hide Run;
    hide Inv;
    hide Commits;
    hide Effect;
    EmptyInv();
    RunKeepsInv(EMPTY, ops);
    CancellationStepLowersWork(Run(EMPTY, ops), op);
  }

  /** What a committed finish does to the work on its item: a cancellation step lowers it, and no other
      finish opens an ended item again. */
  predicate SpendsWork(op: Op) {
    op.FinishItem? && FinishValueOf(op.caller).Some? ==>
      if IsCancellationStep(op) then LowersWork(op)
      else IsCancellationTerminal(op.readItem.state) ==> IsCancellationTerminal(FinishValueOf(op.caller).value.state)
  }

  /** Every committed finish of the item does so. */
  predicate AlwaysSpendsWork(s: System, ops: seq<Op>, k: ItemKey)
    decreases |ops|
  {
    ops == [] ||
    (&& (Commits(s, ops[0]) && ops[0].FinishItem? && ops[0].k == k ==> SpendsWork(ops[0]))
     && AlwaysSpendsWork(Apply(s, ops[0]), ops[1..], k))
  }

  /** How many cancellation steps on an item commit in a run. */
  function CancellationSteps(s: System, ops: seq<Op>, k: ItemKey): nat
    decreases |ops|
  {
    if ops == [] then 0 else
    var first := if IsCancellationStep(ops[0]) && ops[0].k == k && Commits(s, ops[0]) then 1 else 0;
    first + CancellationSteps(Apply(s, ops[0]), ops[1..], k)
  }

  lemma WorkNeverGrows(c: Item, k: ItemKey, op: Op)
    requires ItemOpAgrees(c, k, op) && ItemOk(c) && !(IsCancellationStep(op) && op.k == k)
    requires op.FinishItem? && op.k == k ==> SpendsWork(op)
    ensures Weight(CancellationWork, ItemAfter(c, k, op)) <= Weight(CancellationWork, c)
  {
    hide FinishValueOf;
    hide LowersWork;
    assert op.FinishItem? && op.k == k && FinishValueOf(op.caller).Some? && !IsCancellationStep(op) ==>
      FinishValueOf(op.caller).value.cancellation.None? by { FinishKeepsCancellation(op); }
  }

  lemma FinishKeepsCancellation(op: Op)
    ensures op.FinishItem? && FinishValueOf(op.caller).Some? && !IsCancellationStep(op) ==>
              FinishValueOf(op.caller).value.cancellation.None?
  {
  }

  lemma WorkOfOneApply(s: System, op: Op, k: ItemKey)
    requires Inv(s) && k in s.items && (Commits(s, op) && op.FinishItem? && op.k == k ==> SpendsWork(op))
    ensures k in Apply(s, op).items
    ensures Weight(CancellationWork, Apply(s, op).items[k])
            + (if IsCancellationStep(op) && op.k == k && Commits(s, op) then 1 else 0)
         <= Weight(CancellationWork, s.items[k])
  {
    hide Inv;
    hide Effect;
    hide Weight;
    hide FinishValueOf;
    hide Commits;
    hide ItemAfter;
    hide ItemOpAgrees;
    hide LowersWork;
    if Commits(s, op) {
      ItemRowAfter(s, op, k);
      ItemsAreOk(s);
      if IsCancellationStep(op) && op.k == k {
        CancellationStepLowersWork(s, op);
      } else {
        WorkNeverGrows(s.items[k], k, op);
      }
    }
  }

  lemma {:induction false} StepsSpendWork(s: System, ops: seq<Op>, k: ItemKey)
    requires Inv(s) && k in s.items && AlwaysSpendsWork(s, ops, k)
    ensures k in Run(s, ops).items
    ensures CancellationSteps(s, ops, k) + Weight(CancellationWork, Run(s, ops).items[k])
         <= Weight(CancellationWork, s.items[k])
    decreases |ops|
  {
    hide Inv;
    hide Apply;
    hide Commits;
    hide Weight;
    hide SpendsWork;
    if ops == [] {
    } else {
      ApplyKeepsInv(s, ops[0]);
      WorkOfOneApply(s, ops[0], k);
      StepsSpendWork(Apply(s, ops[0]), ops[1..], k);
    }
  }

  lemma {:induction false} StepsAfterCreation(s: System, ops: seq<Op>, k: ItemKey)
    requires Inv(s) && k !in s.items && AlwaysSpendsWork(s, ops, k)
    ensures CancellationSteps(s, ops, k) <= MAX_ATTEMPTS + 1
    decreases |ops|
  {
    hide Inv;
    hide Apply;
    hide Commits;
    hide SpendsWork;
    if ops == [] {
    } else {
      var t := Apply(s, ops[0]);
      ApplyKeepsInv(s, ops[0]);
      NewItemStep(s, ops[0], k);
      if k in t.items {
        StepsSpendWork(t, ops[1..], k);
        RunKeepsInv(t, ops[1..]);
        ItemsAreOk(Run(t, ops[1..]));
      } else {
        StepsAfterCreation(t, ops[1..], k);
      }
    }
  }

  /** In every run in which each cancellation step of an item lowers its work, at most six of them
      commit. */
  lemma SixCancellationStepsPerItem(ops: seq<Op>, k: ItemKey)
    requires AlwaysSpendsWork(EMPTY, ops, k)
    ensures CancellationSteps(EMPTY, ops, k) <= MAX_ATTEMPTS + 1
  {
    EmptyInv();
    hide Inv;
    hide AlwaysSpendsWork;
    StepsAfterCreation(EMPTY, ops, k);
  }

  // ---------------------------------------------------------------- cancellation due times

  predicate IsCancelingOrCanceled(state: JobState) { state == Canceling || state == Canceled }

  /** Only the items of a canceling or canceled job carry a cancellation due time. */
  predicate CancellationDueOnlyWhileCanceling(s: System) {
    forall k | k in s.items && s.items[k].cancellationNextAttemptAt.Some? ::
      k.job in s.jobs && IsCancelingOrCanceled(s.jobs[k.job].state)
  }

  lemma DueTimeComesFromRetry(c: Item, k: ItemKey, op: Op)
    requires ItemOpAgrees(c, k, op) && c.cancellationNextAttemptAt.None?
    requires ItemAfter(c, k, op).cancellationNextAttemptAt.Some?
    ensures op.FinishItem? && op.k == k && op.caller.RetryCancellation? && op.caller.job.state == Canceling
  {
  }

  lemma RetryReadItsJob(s: System, op: Op)
    requires Commits(s, op) && op.FinishItem? && op.caller.RetryCancellation?
    ensures (op.k.job, op.caller.job) in s.jobCopies
  {
  }

  lemma CancelingStays(s: System, j: JobId, p: Job)
    requires Inv(s) && (j, p) in s.jobCopies && IsCancelingOrCanceled(p.state)
    ensures j in s.jobs && IsCancelingOrCanceled(s.jobs[j].state)
  {
    hide Total;
    hide CountersAgree;
    hide LeaseBacked;
  }

  lemma CancelingRowStays(c: Job, j: JobId, op: Op)
    requires JobOpAgrees(c, j, op) && IsCancelingOrCanceled(c.state)
    ensures IsCancelingOrCanceled(JobAfter(c, j, op).state)
  {
    hide AddPreviewItem;
    hide ReplacePreviewItem;
    hide FinishValueOf;
    hide FinishedItem;
    hide ChangesMetrics;
  }

  lemma StepKeepsDueTimes(s: System, op: Op)
    requires Inv(s) && CancellationDueOnlyWhileCanceling(s)
    ensures CancellationDueOnlyWhileCanceling(Apply(s, op))
  {
    hide Inv;
    hide Effect;
    hide Commits;
    hide ItemAfter;
    hide ItemOpAgrees;
    hide JobAfter;
    hide JobOpAgrees;
    var t := Apply(s, op);
    if Commits(s, op) {
      ItemsAfter(s, op);
      FreshItemsArePut(s, op);
      forall k | k in t.items && t.items[k].cancellationNextAttemptAt.Some?
        ensures k.job in t.jobs && IsCancelingOrCanceled(t.jobs[k.job].state)
      {
        if k in s.items {
          ItemRowAfter(s, op, k);
          if s.items[k].cancellationNextAttemptAt.None? {
            DueTimeComesFromRetry(s.items[k], k, op);
            RetryReadItsJob(s, op);
            CancelingStays(s, k.job, op.caller.job);
          }
          JobRowAfter(s, op, k.job);
          CancelingRowStays(s.jobs[k.job], k.job, op);
        }
      }
    }
  }

  /** In every run, only the items of a canceling or canceled job carry a cancellation due time. */
  lemma {:induction false} RunKeepsDueTimes(s: System, ops: seq<Op>)
    requires Inv(s) && CancellationDueOnlyWhileCanceling(s)
    ensures CancellationDueOnlyWhileCanceling(Run(s, ops))
    decreases |ops|
  {
    hide Inv;
    hide CancellationDueOnlyWhileCanceling;
    hide Apply;
    if ops == [] {
    } else {
      ApplyKeepsInv(s, ops[0]);
      StepKeepsDueTimes(s, ops[0]);
      RunKeepsDueTimes(Apply(s, ops[0]), ops[1..]);
    }
  }

  // ---------------------------------------------------------------- what the item validator refuses

  /** A cancellation retry can be stored exactly for items that are pending, waiting for the
      provider or applied; for an applying, retryable or update-applied item it always fails. */
  lemma CancellationRetryIsStorable(job: Job, i: Item, attempts: int, nextAttemptAt: int)
    requires ValidItem(i) && job.state == Canceling && !IsCancellationTerminal(i.state)
    requires 1 <= attempts < MAX_ATTEMPTS && i.cancellationAttempts == attempts - 1 && IsEpoch(nextAttemptAt)
    ensures var value := FinishValueOf(RetryCancellation(job, i, attempts, Some(nextAttemptAt)));
            && value.Some?
            && (ValidItem(FinishedItem(i, value.value)) <==>
                  i.state == Pending || i.state == Applied || IsAwaitingProvider(i.state))
  {
  }

  /** A retry that the canceller computes from the current rows, both of which it could load, commits
      exactly in those states; in the others the item waits for ever or ends in a review. */
  lemma CurrentRetryCommitsExactly(s: System, k: ItemKey, nextAttemptAt: int)
    requires Inv(s) && k in s.items && k.job in s.jobs && ValidJob(s.jobs[k.job]) && ValidItem(s.items[k])
    requires s.jobs[k.job].state == Canceling && !IsCancellationTerminal(s.items[k].state)
    requires s.items[k].cancellationAttempts + 1 < MAX_ATTEMPTS && IsEpoch(nextAttemptAt)
    ensures var job, i := s.jobs[k.job], s.items[k];
            Commits(s, FinishItem(k, job, i, RetryCancellation(job, i, i.cancellationAttempts + 1, Some(nextAttemptAt)))) <==>
              i.state == Pending || i.state == Applied || IsAwaitingProvider(i.state)
  {
    hide Inv;
    hide ValidJob;
    hide ValidItem;
    hide FinishValueOf;
    hide FinishedItem;
    hide ChangesMetrics;
    var job, i := s.jobs[k.job], s.items[k];
    ItemCopyIsCurrent(s, k);
    RetryOfValid(job, i, nextAttemptAt);
    CancellationRetryIsStorable(job, i, i.cancellationAttempts + 1, nextAttemptAt);
  }

  lemma RetryOfValid(job: Job, i: Item, nextAttemptAt: int)
    requires ValidItem(i) && job.state == Canceling && !IsCancellationTerminal(i.state) && i.cancellationAttempts + 1 < MAX_ATTEMPTS
    ensures 0 <= i.cancellationAttempts && MayFinishFrom(i.state)
    ensures i.state == Pending || i.state == Applied || IsAwaitingProvider(i.state) ==> i.holder.None?
    ensures var v := FinishValueOf(RetryCancellation(job, i, i.cancellationAttempts + 1, Some(nextAttemptAt)));
            v.Some? && v.value.attempts == i.attempts
  {
  }
}
