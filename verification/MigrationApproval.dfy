/**
 What approval certifies. In runs that never take a finished item back, a job pauses for approval
 only when every canary ended on its first attempt, so one retried canary keeps it from approval.
 */
module MigrationApproval {
  import opened Types
  import opened MigrationRecords
  import opened MigrationProtocol
  import opened MigrationTotals
  import opened MigrationInvariant
  import opened MigrationSteps
  import opened MigrationRows
  import opened MigrationCounters
  import opened MigrationCanary
  import opened MigrationLoads

  /** A finish that would take an ended item back to an open state. */
  predicate TakesBack(op: Op) {
    && op.FinishItem? && FinishValueOf(op.caller).Some?
    && IsTerminal(op.readItem.state) && !IsTerminal(FinishValueOf(op.caller).value.state)
  }

  /** No committed operation of the run takes an item of the job back. */
  predicate NeverTakesBack(s: System, ops: seq<Op>, j: JobId)
    decreases |ops|
  {
    ops == [] ||
    (&& !(Commits(s, ops[0]) && TakesBack(ops[0]) && ops[0].k.job == j)
     && NeverTakesBack(Apply(s, ops[0]), ops[1..], j))
  }

  function Attempted(j: JobId, items: map<ItemKey, Item>): set<ItemKey> {
    set k | k in items && k.job == j && 0 < items[k].attempts
  }

  /** Every item of the job that was ever attempted ended on its first attempt. */
  predicate EndedOnFirstAttempt(j: JobId, items: map<ItemKey, Item>) {
    forall k | k in Attempted(j, items) :: items[k].attempts == 1 && IsTerminal(items[k].state)
  }

  predicate FirstAttemptsOnly(j: JobId, items: map<ItemKey, Item>) {
    forall k | k in Attempted(j, items) :: items[k].attempts == 1
  }

  /** The states a job can be in while it waits for approval. */
  predicate CanAwaitApproval(state: JobState) {
    state == Paused || state == CancelRequested || state == Canceling || state == Canceled
  }

  ghost predicate Tight(job: Job, j: JobId, items: map<ItemKey, Item>) {
    !job.canaryApproved ==>
      && job.canaryCompleted == Total(CanaryTerminal, j, items)
      && (job.canaryApprovalRequired ==> CanAwaitApproval(job.state) && FirstAttemptsOnly(j, items))
  }

  ghost predicate JobIsTight(s: System, j: JobId) { j in s.jobs ==> Tight(s.jobs[j], j, s.items) }

  /** Used-up canary slots that have all ended were all first attempts. */
  lemma PauseMeansFirstAttempts(job: Job, j: JobId, items: map<ItemKey, Item>)
    requires JobOk(job) && CanaryAgrees(job, j, items) && Tight(job, j, items)
    requires forall k | k in items :: ItemOk(items[k])
    requires PausesForCanary(job)
    ensures EndedOnFirstAttempt(j, items) && |Attempted(j, items)| == job.canarySize
  {
    hide Total;
    TotalOrder(CanaryTerminal, Attempts, j, items);
    TotalCounts(Attempts, j, items, Attempted(j, items));
  }

  lemma ItemsAreOk(s: System)
    requires Inv(s)
    ensures forall k | k in s.items :: ItemOk(s.items[k])
  {
    hide Total;
    hide CountersAgree;
    hide ItemOk;
    hide LeaseBacked;
    forall k | k in s.items ensures ItemOk(s.items[k]) { assert (k, s.items[k]) in s.itemCopies; }
  }

  lemma CanaryFacts(s: System, j: JobId)
    requires Inv(s) && j in s.jobs
    ensures JobOk(s.jobs[j]) && CanaryAgrees(s.jobs[j], j, s.items)
  {
    hide Total;
    hide CanaryAgrees;
    hide LeaseBacked;
    JobIsOk(s, j);
    assert CountersAgree(s.jobs[j], j, s.items);
  }

  // ---------------------------------------------------------------- preservation

  lemma ItemWriteKeepsTight(c: Job, n: Job, j: JobId, items: map<ItemKey, Item>, k: ItemKey, i: Item)
    requires Tight(c, j, items)
    requires n.canaryApproved == c.canaryApproved && n.canaryApprovalRequired == c.canaryApprovalRequired && n.state == c.state
    requires n.canaryCompleted == c.canaryCompleted + Share(CanaryTerminal, j, k, i)
                                - (if k in items then Share(CanaryTerminal, j, k, items[k]) else 0)
    requires k.job == j && c.canaryApprovalRequired && !c.canaryApproved ==>
               i.attempts == if k in items then items[k].attempts else 0
    ensures Tight(n, j, items[k := i])
  {
    hide Total;
    TotalPut(CanaryTerminal, j, items, k, i);
    if !n.canaryApproved && n.canaryApprovalRequired {
      var after := items[k := i];
      forall x | x in Attempted(j, after) ensures after[x].attempts == 1 {
        assert x in Attempted(j, items);
      }
    }
  }

  /** One row change of a job, told without the system around it. */
  lemma RowChangeKeepsTight(c: Job, j: JobId, op: Op, items: map<ItemKey, Item>)
    requires Tight(c, j, items) && JobOk(c) && JobOpAgrees(c, j, op) && !(TakesBack(op) && op.k.job == j)
    requires ItemWriteOf(op).Some? && (op.FinishItem? ==> FinishValueOf(op.caller).Some?)
    requires var k := ItemWriteOf(op).value.0;
             if op.PutPreviewItem? then k !in items && FreshItem(op.item) else k in items && ItemOpAgrees(items[k], k, op)
    requires op.RejectPreviewItem? && op.k in items && op.k.job == j ==> !items[op.k].canary && items[op.k].attempts == 0
    ensures Tight(JobAfter(c, j, op), j, items[ItemWriteOf(op).value.0 := ItemWriteOf(op).value.1])
  {
    hide Total;
    hide Tight;
    hide FinishValueOf;
    hide AddPreviewItem;
    hide ReplacePreviewItem;
    var (k, i) := ItemWriteOf(op).value;
    ItemWriteKeepsTight(c, JobAfter(c, j, op), j, items, k, i);
  }

  lemma JobOpKeepsTight(c: Job, j: JobId, op: Op, items: map<ItemKey, Item>)
    requires Tight(c, j, items) && JobOk(c) && JobOpAgrees(c, j, op) && ItemWriteOf(op).None? && !op.FinishItem?
    requires CanaryAgrees(c, j, items) && forall k | k in items :: ItemOk(items[k])
    ensures Tight(JobAfter(c, j, op), j, items)
  {
    hide Total;
    hide ItemOk;
    hide CanaryAgrees;
    if op.ContinueExecution? && op.j == j && PausesForCanary(c) { PauseMeansFirstAttempts(c, j, items); }
  }

  /** A rejected item is one that no worker has attempted. */
  lemma RejectedItemsAreUnattempted(s: System, op: Op)
    requires Inv(s) && Commits(s, op) && op.RejectPreviewItem?
    ensures !s.items[op.k].canary && s.items[op.k].attempts == 0
  {
    ItemCopyFacts(s, op.k, op.readItem);
    hide Inv;
    hide ReplacePreviewItem;
  }

  lemma FreshItemsArePut(s: System, op: Op)
    requires Commits(s, op)
    ensures op.PutPreviewItem? ==> FreshItem(op.item)
    ensures op.FinishItem? ==> FinishValueOf(op.caller).Some? && ItemWriteOf(op).Some?
    ensures op.CreateJob? ==> ItemWriteOf(op).None?
  {
    hide FinishValueOf;
    hide FinishedItem;
    hide ValidItem;
  }

  lemma StepKeepsTight(s: System, op: Op, j: JobId)
    requires Inv(s) && JobIsTight(s, j) && !(Commits(s, op) && TakesBack(op) && op.k.job == j)
    ensures JobIsTight(Apply(s, op), j)
  {
    hide Inv;
    hide Commits;
    hide Effect;
    hide Tight;
    hide JobAfter;
    hide JobOpAgrees;
    hide ItemOpAgrees;
    hide ItemWriteOf;
    hide TakesBack;
    if Commits(s, op) && j in Effect(s, op).jobs {
      ItemsAfter(s, op);
      FreshItemsArePut(s, op);
      if op.RejectPreviewItem? { RejectedItemsAreUnattempted(s, op); }
      if ItemWriteOf(op).Some? && !op.PutPreviewItem? { ItemRowAfter(s, op, ItemWriteOf(op).value.0); }
      if j in s.jobs {
        ItemsAreOk(s);
        JobRowAfter(s, op, j);
        CanaryFacts(s, j);
        if ItemWriteOf(op).Some? {
          RowChangeKeepsTight(s.jobs[j], j, op, s.items);
        } else {
          JobOpKeepsTight(s.jobs[j], j, op, s.items);
        }
      } else {
        NewJobIsTight(s, op, j);
      }
    }
  }

  lemma NewJobIsTight(s: System, op: Op, j: JobId)
    requires Inv(s) && j !in s.jobs && op.CreateJob? && ItemWriteOf(op).None?
    ensures Tight(NewJob(op.canarySize, op.accountConcurrency, op.policy, op.createdAt), j, s.items)
  {
    NoItemsBeforeCreation(s, j);
    TotalZeroWithoutItems(CanaryTerminal, j, s.items);
    hide Total;
    hide Inv;
  }

  lemma {:induction false} RunKeepsTight(s: System, ops: seq<Op>, j: JobId)
    requires Inv(s) && JobIsTight(s, j) && NeverTakesBack(s, ops, j)
    ensures JobIsTight(Run(s, ops), j)
    decreases |ops|
  {
    hide Inv;
    hide JobIsTight;
    hide Apply;
    hide Commits;
    hide TakesBack;
    if ops == [] {
    } else {
      ApplyKeepsInv(s, ops[0]);
      StepKeepsTight(s, ops[0], j);
      RunKeepsTight(Apply(s, ops[0]), ops[1..], j);
    }
  }

  // ---------------------------------------------------------------- the results

  lemma TightRun(ops: seq<Op>, j: JobId)
    requires NeverTakesBack(EMPTY, ops, j)
    ensures Inv(Run(EMPTY, ops)) && JobIsTight(Run(EMPTY, ops), j)
  {
    hide Run;
    hide NeverTakesBack;
    EmptyInv();
    RunKeepsInv(EMPTY, ops);
    RunKeepsTight(EMPTY, ops, j);
  }

  /** An execution step that commits while items are pending pauses the job for its canaries. */
  lemma ContinueMeansPause(s: System, op: Op)
    requires op.ContinueExecution? && Commits(s, op) && op.j in s.jobs && op.readJob == s.jobs[op.j]
    requires s.jobs[op.j].counts.pending > 0
    ensures PausesForCanary(s.jobs[op.j]) && !s.jobs[op.j].canaryApproved
  {
  }

  /** Canaries that all ended on their first attempt use up the canary slots and complete them. */
  lemma FirstAttemptsMeanPause(job: Job, j: JobId, items: map<ItemKey, Item>)
    requires JobOk(job) && CanaryAgrees(job, j, items) && Tight(job, j, items) && !job.canaryApproved && job.counts.pending > 0
    requires forall k | k in items :: ItemOk(items[k])
    requires EndedOnFirstAttempt(j, items) && |Attempted(j, items)| == job.canarySize
    ensures PausesForCanary(job)
  {
    hide Total;
    TotalCounts(Attempts, j, items, Attempted(j, items));
    TotalCounts(CanaryTerminal, j, items, Attempted(j, items));
  }

  lemma PendingItemsCount(s: System, j: JobId)
    requires Inv(s) && j in s.jobs && s.jobs[j].state == Running && ItemsIn(InPending, j, s.items) != {}
    ensures s.jobs[j].counts.pending > 0 && (j, s.jobs[j]) in s.jobCopies
  {
    hide Total;
    JobIsOk(s, j);
    assert CountersAgree(s.jobs[j], j, s.items);
    TotalCounts(InBucket(InPending), j, s.items, ItemsIn(InPending, j, s.items));
    hide LeaseBacked;
  }

  lemma PausesExactly(s: System, j: JobId)
    requires Inv(s) && JobIsTight(s, j) && j in s.jobs && !s.jobs[j].canaryApproved && s.jobs[j].counts.pending > 0
    ensures PausesForCanary(s.jobs[j]) <==> EndedOnFirstAttempt(j, s.items) && |Attempted(j, s.items)| == s.jobs[j].canarySize
  {
    CanaryFacts(s, j);
    ItemsAreOk(s);
    hide Inv;
    hide Total;
    hide ItemOk;
    hide CanaryAgrees;
    if PausesForCanary(s.jobs[j]) { PauseMeansFirstAttempts(s.jobs[j], j, s.items); }
    if EndedOnFirstAttempt(j, s.items) && |Attempted(j, s.items)| == s.jobs[j].canarySize {
      FirstAttemptsMeanPause(s.jobs[j], j, s.items);
    }
  }

  lemma ContinueIsPause(s: System, j: JobId)
    requires j in s.jobs && (j, s.jobs[j]) in s.jobCopies && s.jobs[j].state == Running && s.jobs[j].counts.pending > 0
    requires ValidJob(s.jobs[j])
    ensures Commits(s, ContinueExecution(j, s.jobs[j])) <==> PausesForCanary(s.jobs[j])
  {
    hide ValidJob;
  }

  lemma TightCompletes(s: System, j: JobId)
    requires Inv(s) && JobIsTight(s, j) && j in s.jobs && !s.jobs[j].canaryApproved
    ensures s.jobs[j].canaryCompleted <= s.jobs[j].canaryClaims
  {
    hide Total;
    hide Inv;
    hide ItemOk;
    hide JobOk;
    CanaryFacts(s, j);
    ItemsAreOk(s);
    forall k | k in s.items && k.job == j ensures Weight(CanaryTerminal, s.items[k]) <= Weight(Attempts, s.items[k]) {
      EndedCanariesAreAttempted(s.items[k]);
    }
    TotalOrder(CanaryTerminal, Attempts, j, s.items);
  }

  lemma EndedCanariesAreAttempted(i: Item)
    requires ItemOk(i)
    ensures Weight(CanaryTerminal, i) <= Weight(Attempts, i)
  {
  }

  /** Without take-backs no canary completes twice, so the row of a running job can be loaded. */
  lemma TightJobsLoad(ops: seq<Op>, j: JobId)
    requires j in Run(EMPTY, ops).jobs && Run(EMPTY, ops).jobs[j].state == Running && !Run(EMPTY, ops).jobs[j].canaryApproved
    requires NeverTakesBack(EMPTY, ops, j)
    ensures ValidJob(Run(EMPTY, ops).jobs[j])
  {
    hide Run;
    hide ValidJob;
    hide NeverTakesBack;
    hide Inv;
    hide JobIsTight;
    TightRun(ops, j);
    LiveJobsLoadExactly(ops, j);
    TightCompletes(Run(EMPTY, ops), j);
  }

  /** When a job with pending items pauses for its approval: from the current row of a running,
      unapproved job execution can pause exactly when canarySize items have been attempted and each of
      them has ended on its first attempt; with any other history it cannot go on at all. */
  lemma PausesExactlyAfterFirstAttempts(ops: seq<Op>, j: JobId)
    requires NeverTakesBack(EMPTY, ops, j) && j in Run(EMPTY, ops).jobs
    requires var job := Run(EMPTY, ops).jobs[j]; job.state == Running && !job.canaryApproved
    requires ItemsIn(InPending, j, Run(EMPTY, ops).items) != {}
    ensures var s := Run(EMPTY, ops);
            Commits(s, ContinueExecution(j, s.jobs[j]))
            <==> EndedOnFirstAttempt(j, s.items) && |Attempted(j, s.items)| == s.jobs[j].canarySize
  {
    TightRun(ops, j);
    TightJobsLoad(ops, j);
    hide Run;
    hide NeverTakesBack;
    hide Inv;
    hide Commits;
    hide PausesForCanary;
    hide JobIsTight;
    hide ItemsIn;
    hide ValidJob;
    PendingItemsCount(Run(EMPTY, ops), j);
    PausesExactly(Run(EMPTY, ops), j);
    ContinueIsPause(Run(EMPTY, ops), j);
  }

  /** When execution pauses a job for approval, exactly canarySize items have been attempted and
      each of them has ended on its first attempt. */
  lemma ApprovalWaitsForFirstAttempts(ops: seq<Op>, op: Op)
    requires op.ContinueExecution? && NeverTakesBack(EMPTY, ops, op.j) && Commits(Run(EMPTY, ops), op)
    requires Effect(Run(EMPTY, ops), op).jobs[op.j].state == Paused
    ensures var s := Run(EMPTY, ops);
            EndedOnFirstAttempt(op.j, s.items) && |Attempted(op.j, s.items)| == s.jobs[op.j].canarySize
  {
    TightRun(ops, op.j);
    JobWritesAreAtomic(ops, op);
    hide Run;
    hide NeverTakesBack;
    hide Inv;
    hide Effect;
    hide Commits;
    hide PausesForCanary;
    hide JobIsTight;
    ContinueStep(Run(EMPTY, ops), op);
    ContinueMeansPause(Run(EMPTY, ops), op);
    PausesExactly(Run(EMPTY, ops), op.j);
  }

  predicate IsBlocked(s: System, k: ItemKey) {
    k in s.items && k.job in s.jobs && 2 <= s.items[k].attempts && !s.jobs[k.job].canaryApproved
  }

  lemma BlockedStaysBlocked(s: System, op: Op, k: ItemKey)
    requires Inv(s) && JobIsTight(s, k.job) && IsBlocked(s, k)
    ensures IsBlocked(Apply(s, op), k)
  {
    hide Inv;
    hide Effect;
    hide Commits;
    hide JobAfter;
    hide ItemAfter;
    hide ItemOpAgrees;
    hide JobOpAgrees;
    hide JobOk;
    if Commits(s, op) {
      assert !s.jobs[k.job].canaryApprovalRequired by {
        hide Total;
        assert Tight(s.jobs[k.job], k.job, s.items);
        assert k in Attempted(k.job, s.items);
      }
      hide JobIsTight;
      JobIsOk(s, k.job);
      JobRowAfter(s, op, k.job);
      ItemRowAfter(s, op, k);
      FlagSteps(s.jobs[k.job], k.job, op);
      AttemptsNeverFall(s.items[k], k, op);
    }
  }

  /** Once an item of an unapproved job has been attempted twice, the job is never approved. */
  lemma {:induction false} RetriedCanaryBlocksApproval(s: System, ops: seq<Op>, k: ItemKey)
    requires Inv(s) && JobIsTight(s, k.job) && NeverTakesBack(s, ops, k.job) && IsBlocked(s, k)
    ensures IsBlocked(Run(s, ops), k)
    decreases |ops|
  {
    hide Inv;
    hide JobIsTight;
    hide IsBlocked;
    hide Apply;
    hide Commits;
    hide TakesBack;
    if ops == [] {
    } else {
      ApplyKeepsInv(s, ops[0]);
      StepKeepsTight(s, ops[0], k.job);
      BlockedStaysBlocked(s, ops[0], k);
      RetriedCanaryBlocksApproval(Apply(s, ops[0]), ops[1..], k);
    }
  }

  /** In every run without take-backs, a job with an item attempted twice before its approval is
      never approved afterwards. */
  lemma RetriedJobsAreNeverApproved(before: seq<Op>, ops: seq<Op>, k: ItemKey)
    requires NeverTakesBack(EMPTY, before, k.job) && NeverTakesBack(Run(EMPTY, before), ops, k.job)
    requires var s := Run(EMPTY, before);
             k in s.items && 2 <= s.items[k].attempts && k.job in s.jobs && !s.jobs[k.job].canaryApproved
    ensures var t := Run(Run(EMPTY, before), ops); k.job in t.jobs && !t.jobs[k.job].canaryApproved
  {
    hide Run;
    hide NeverTakesBack;
    EmptyInv();
    RunKeepsInv(EMPTY, before);
    RunKeepsTight(EMPTY, before, k.job);
    hide Inv;
    hide JobIsTight;
    RetriedCanaryBlocksApproval(Run(EMPTY, before), ops, k);
  }

  /** No operation lowers the attempts of an item; each raises them by at most one, up to five. */
  lemma AttemptsNeverFall(c: Item, k: ItemKey, op: Op)
    requires ItemOpAgrees(c, k, op)
    ensures c.attempts <= ItemAfter(c, k, op).attempts <= c.attempts + 1
    ensures ItemAfter(c, k, op).attempts > c.attempts
        ==> op.ClaimItem? && op.k == k && ItemAfter(c, k, op).attempts <= MAX_ATTEMPTS
  {
    hide FinishValueOf;
  }
}
