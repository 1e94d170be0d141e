/**
 What the job counters mean in every reachable state: histograms, completion, whole-row writes,
 the preview aggregate.
 */
module MigrationCounters {
  import opened Types
  import opened MigrationRecords
  import opened MigrationProtocol
  import opened MigrationTotals
  import opened MigrationInvariant
  import opened MigrationSteps

  // ---------------------------------------------------------------- counters as cardinalities

  /** The items of a job in one bucket. */
  function ItemsIn(b: Bucket, j: JobId, items: map<ItemKey, Item>): set<ItemKey> {
    set k | k in items && k.job == j && CountBucket(items[k].state) == b
  }

  function ItemsOf(j: JobId, items: map<ItemKey, Item>): set<ItemKey> {
    set k | k in items && k.job == j
  }

  function AwaitingItems(j: JobId, items: map<ItemKey, Item>): set<ItemKey> {
    set k | k in items && k.job == j && IsAwaitingProvider(items[k].state)
  }

  function AppliedItems(j: JobId, items: map<ItemKey, Item>): set<ItemKey> {
    set k | k in items && k.job == j && IsAppliedState(items[k].state)
  }

  /** A sum of zeros and ones counts the items that weigh one. */
  lemma {:induction false} TotalCounts(q: Measure, j: JobId, items: map<ItemKey, Item>, chosen: set<ItemKey>)
    requires forall k | k in items && k.job == j :: Weight(q, items[k]) == (if k in chosen then 1 else 0)
    requires forall k | k in chosen :: k in items && k.job == j
    ensures Total(q, j, items) == |chosen|
    decreases |items|
  {
    hide Total;
    hide Weight;
    if items == map[] {
      TotalEmpty(q, j);
      assert chosen == {};
    } else {
      var k :| k in items;
      TotalSplit(q, j, items, k);
      TotalCounts(q, j, items - {k}, chosen - {k});
      if k in chosen { assert |chosen| == |chosen - {k}| + 1; } else { assert chosen - {k} == chosen; }
    }
  }

  /** In every run, the counts of a job past its preview are the exact histogram of its items. */
  lemma CountsAreTheHistogram(ops: seq<Op>, j: JobId)
    requires var s := Run(EMPTY, ops); j in s.jobs && s.jobs[j].dryRun.Some?
    ensures var s := Run(EMPTY, ops); var job := s.jobs[j];
            && job.counts.total == |ItemsOf(j, s.items)|
            && (forall b: Bucket :: CountIn(job.counts, b) == |ItemsIn(b, j, s.items)|)
            && job.awaitingProvider == |AwaitingItems(j, s.items)|
            && job.appliedItems == |AppliedItems(j, s.items)|
  {
    hide Total;
    hide Run;
    var s := Run(EMPTY, ops);
    EmptyInv();
    RunKeepsInv(EMPTY, ops);
    assert CountersAgree(s.jobs[j], j, s.items);
    TotalCounts(Items, j, s.items, ItemsOf(j, s.items));
    forall b: Bucket ensures CountIn(s.jobs[j].counts, b) == |ItemsIn(b, j, s.items)| {
      TotalCounts(InBucket(b), j, s.items, ItemsIn(b, j, s.items));
    }
    TotalCounts(Waiting, j, s.items, AwaitingItems(j, s.items));
    TotalCounts(AppliedNow, j, s.items, AppliedItems(j, s.items));
  }

  /** The state the execution step leads to, told from the current counters. */
  lemma ContinueStep(s: System, op: Op)
    requires Inv(s) && op.ContinueExecution? && Commits(s, op)
    ensures op.j in s.jobs && s.jobs[op.j].dryRun.Some? && op.j in Effect(s, op).jobs
    ensures var counts := s.jobs[op.j].counts; var state := Effect(s, op).jobs[op.j].state;
            && (state == Paused <==> counts.pending > 0)
            && (state == CompletedWithErrors <==> counts.pending <= 0 && (counts.needsReview != 0 || counts.failed != 0))
            && (state == Completed <==> counts.pending <= 0 && counts.needsReview == 0 && counts.failed == 0)
  {
    hide Inv;
    hide ReadsAreValid;
    hide JobUnchanged;
    hide JobOk;
    hide JobFollows;
    hide CountersAgree;
    assert op.readJob.state == Running && ContinueTarget(op.readJob).Some?;
    JobCopyFacts(s, op.j, op.readJob);
    CommittedCopyIsCurrent(op.readJob, s.jobs[op.j]);
    RunningJobsArePreviewed(s.jobs[op.j]);
  }

  lemma RunningJobsArePreviewed(c: Job)
    requires JobOk(c) && c.state == Running
    ensures c.dryRun.Some?
  {
  }

  /** Execution ends a job, from however old a copy, exactly when no item of it is pending at the
      moment of the write, and with errors exactly when some item needs review or failed. */
  lemma CompletionReflectsItems(ops: seq<Op>, op: Op)
    requires op.ContinueExecution? && Commits(Run(EMPTY, ops), op)
    ensures var s := Run(EMPTY, ops); var state := Effect(s, op).jobs[op.j].state;
            var troubled := ItemsIn(InNeedsReview, op.j, s.items) + ItemsIn(InFailed, op.j, s.items);
            && (state == Paused <==> ItemsIn(InPending, op.j, s.items) != {})
            && (state == CompletedWithErrors <==> ItemsIn(InPending, op.j, s.items) == {} && troubled != {})
            && (state == Completed <==> ItemsIn(InPending, op.j, s.items) == {} && troubled == {})
  {
    hide Run;
    hide Inv;
    hide Commits;
    hide Effect;
    var s := Run(EMPTY, ops);
    EmptyInv();
    RunKeepsInv(EMPTY, ops);
    ContinueStep(s, op);
    CountsAreTheHistogram(ops, op.j);
    var counts := s.jobs[op.j].counts;
    assert CountIn(counts, InPending) == |ItemsIn(InPending, op.j, s.items)|;
    assert CountIn(counts, InNeedsReview) == |ItemsIn(InNeedsReview, op.j, s.items)|;
    assert CountIn(counts, InFailed) == |ItemsIn(InFailed, op.j, s.items)|;
    var troubled := ItemsIn(InNeedsReview, op.j, s.items) + ItemsIn(InFailed, op.j, s.items);
    assert troubled == {} <==> ItemsIn(InNeedsReview, op.j, s.items) == {} && ItemsIn(InFailed, op.j, s.items) == {};
  }

  // ---------------------------------------------------------------- whole-row writes

  /** The job row an operation would write, and the copy it computed that row from. */
  function JobWriteOf(op: Op): Option<(JobId, Job)> {
    match op
    case PutPreviewItem(k, readJob, _) => Some((k.job, readJob))
    case RejectPreviewItem(k, readJob, _, _, _) => Some((k.job, readJob))
    case ClaimItem(k, readJob, readItem, request) =>
      if ClaimsCanary(readItem, request) then Some((k.job, readJob)) else None
    case FinishItem(k, readJob, readItem, caller) =>
      if FinishValueOf(caller).Some?
         && ChangesMetrics(readJob, readItem, FinishedItem(readItem, FinishValueOf(caller).value))
      then Some((k.job, readJob)) else None
    case _ => if JobUpdate(op).Some? then Some((JobUpdate(op).value.0, JobUpdate(op).value.1)) else None
  }

  /** Every job row that is written was computed from the very row it replaces, a row that can be
      loaded, however long before it was read: each write is that of one atomic read-and-write step
      and no update of a job row is ever lost. */
  lemma JobWritesAreAtomic(ops: seq<Op>, op: Op)
    requires Commits(Run(EMPTY, ops), op) && JobWriteOf(op).Some?
    ensures var s := Run(EMPTY, ops); var (j, read) := JobWriteOf(op).value;
            j in s.jobs && read == s.jobs[j] && ValidJob(s.jobs[j])
  {
    hide Run;
    hide Inv;
    hide Commits;
    hide JobWriteOf;
    hide ValidJob;
    EmptyInv();
    RunKeepsInv(EMPTY, ops);
    WriteReadsCurrentJob(Run(EMPTY, ops), op);
  }

  lemma WriteReadsCurrentJob(s: System, op: Op)
    requires Inv(s) && Commits(s, op) && JobWriteOf(op).Some?
    ensures var (j, read) := JobWriteOf(op).value;
            j in s.jobs && read == s.jobs[j] && ValidJob(s.jobs[j])
  {
    hide Inv;
    hide Commits;
    hide JobWriteOf;
    hide CountersAgree;
    hide JobUnchanged;
    hide PreviewUnchanged;
    hide CanaryUnchanged;
    hide JobOk;
    hide JobFollows;
    hide ValidJob;
    var (j, read) := JobWriteOf(op).value;
    JobWriteConditions(s, op);
    JobCopyFacts(s, j, read);
    CommittedCopyIsCurrent(read, s.jobs[j]);
  }

  /** The condition each kind of job write puts on the current row. */
  lemma JobWriteConditions(s: System, op: Op)
    requires Commits(s, op) && JobWriteOf(op).Some?
    ensures var (j, read) := JobWriteOf(op).value;
            && (j, read) in s.jobCopies && j in s.jobs && ValidJob(read)
            && (|| JobUnchanged(read, s.jobs[j])
                || (read.state == Previewing && PreviewUnchanged(read, s.jobs[j]))
                || (read.state == Running && !read.mutationStarted && CanaryUnchanged(read, s.jobs[j])))
  {
    hide JobUnchanged;
    hide PreviewUnchanged;
    hide CanaryUnchanged;
    hide ItemUnchanged;
    hide AddPreviewItem;
    hide ReplacePreviewItem;
    hide FinishValueOf;
    hide FinishedItem;
    hide ChangesMetrics;
    hide ValidItem;
    hide ControlTarget;
    hide ValidAggregate;
    hide ValidJob;
    hide CallerReadsAreValid;
  }

  /** All job rows but the one an operation writes stay. */
  lemma OtherJobsAreSpared(s: System, op: Op, j: JobId)
    requires Commits(s, op) && j in s.jobs && !(JobWriteOf(op).Some? && JobWriteOf(op).value.0 == j)
    ensures j in Effect(s, op).jobs && Effect(s, op).jobs[j] == s.jobs[j]
  {
    hide MetricsJob;
    hide ValidItem;
    hide FinishedItem;
    hide FinishValueOf;
    hide ChangesMetrics;
    hide AddPreviewItem;
    hide ReplacePreviewItem;
  }

  /** In every run a job row only changes by a write that was computed from that very row. */
  lemma JobChangesAreAtomic(ops: seq<Op>, op: Op, j: JobId)
    requires Commits(Run(EMPTY, ops), op) && j in Run(EMPTY, ops).jobs
    ensures var s := Run(EMPTY, ops);
            && j in Effect(s, op).jobs
            && (Effect(s, op).jobs[j] != s.jobs[j] ==> JobWriteOf(op) == Some((j, s.jobs[j])) && ValidJob(s.jobs[j]))
  {
    hide Run;
    hide Inv;
    hide Effect;
    hide Commits;
    hide JobWriteOf;
    hide ValidJob;
    EmptyInv();
    RunKeepsInv(EMPTY, ops);
    JobChangeReadsCurrent(Run(EMPTY, ops), op, j);
  }

  lemma JobChangeReadsCurrent(s: System, op: Op, j: JobId)
    requires Inv(s) && Commits(s, op) && j in s.jobs
    ensures j in Effect(s, op).jobs
    ensures Effect(s, op).jobs[j] != s.jobs[j] ==> JobWriteOf(op) == Some((j, s.jobs[j])) && ValidJob(s.jobs[j])
  {
    hide Inv;
    hide Effect;
    hide Commits;
    hide JobWriteOf;
    hide ValidJob;
    if JobWriteOf(op).Some? && JobWriteOf(op).value.0 == j {
      WriteReadsCurrentJob(s, op);
      WrittenJobStays(s, op, j);
    } else {
      OtherJobsAreSpared(s, op, j);
    }
  }

  lemma WrittenJobStays(s: System, op: Op, j: JobId)
    requires Commits(s, op) && j in s.jobs
    ensures j in Effect(s, op).jobs
  {
    hide MetricsJob;
    hide ValidItem;
    hide FinishedItem;
    hide FinishValueOf;
    hide ChangesMetrics;
    hide AddPreviewItem;
    hide ReplacePreviewItem;
  }

  // ---------------------------------------------------------------- the preview aggregate

  /** The items of a job without the job's name. */
  function ItemsBySubscription(j: JobId, items: map<ItemKey, Item>): map<SubscriptionId, Item> {
    map k | k in items && k.job == j :: k.subscription := items[k]
  }

  lemma {:induction false} TotalDependsOnItemsOnly(q: Measure, j: JobId, items: map<ItemKey, Item>,
                                                   j': JobId, items': map<ItemKey, Item>)
    requires ItemsBySubscription(j, items) == ItemsBySubscription(j', items')
    ensures Total(q, j, items) == Total(q, j', items')
    decreases |items|
  {
    hide Total;
    hide Weight;
    var left, right := ItemsBySubscription(j, items), ItemsBySubscription(j', items');
    if k :| k in items && k.job == j {
      var k' := ItemKey(j', k.subscription);
      assert k.subscription in left;
      assert k.subscription in right;
      assert k' in items' && items'[k'] == items[k];
      TotalSplit(q, j, items, k);
      TotalSplit(q, j', items', k');
      assert ItemsBySubscription(j, items - {k}) == left - {k.subscription};
      assert ItemsBySubscription(j', items' - {k'}) == right - {k.subscription};
      TotalDependsOnItemsOnly(q, j, items - {k}, j', items' - {k'});
    } else {
      forall x | x in items' ensures x.job != j' {
        assert x.job == j' ==> x.subscription in right && x.subscription in left;
      }
      TotalZeroWithoutItems(q, j, items);
      TotalZeroWithoutItems(q, j', items');
    }
  }

  /** Two previews that stored the same items agree on the aggregate and so on the dry-run hash and
      counts, whatever the order, paging and redelivery of their puts and rejections. */
  lemma PreviewDependsOnItemsOnly(ops: seq<Op>, j: JobId, ops': seq<Op>, j': JobId)
    requires var s := Run(EMPTY, ops); j in s.jobs && s.jobs[j].dryRun.None?
    requires var s := Run(EMPTY, ops'); j' in s.jobs && s.jobs[j'].dryRun.None?
    requires ItemsBySubscription(j, Run(EMPTY, ops).items) == ItemsBySubscription(j', Run(EMPTY, ops').items)
    ensures Run(EMPTY, ops).jobs[j].preview == Run(EMPTY, ops').jobs[j'].preview
  {
    hide Total;
    hide Run;
    var s, s' := Run(EMPTY, ops), Run(EMPTY, ops');
    EmptyInv();
    RunKeepsInv(EMPTY, ops);
    RunKeepsInv(EMPTY, ops');
    assert CountersAgree(s.jobs[j], j, s.items) && CountersAgree(s'.jobs[j'], j', s'.items);
    forall q: Measure ensures Total(q, j, s.items) == Total(q, j', s'.items) {
      TotalDependsOnItemsOnly(q, j, s.items, j', s'.items);
    }
  }

  /** In every run, a put computed from the current job row is refused only at the item cap, and a
      rejection of a stored pending item never: the bounds on the digest sums do not bite. */
  lemma PreviewBoundsNeverBite(ops: seq<Op>, j: JobId, k: ItemKey, i: Item)
    requires var s := Run(EMPTY, ops); j in s.jobs && s.jobs[j].dryRun.None? && k.job == j
    requires ValidDigest(i.digest)
    ensures var s := Run(EMPTY, ops); var g := s.jobs[j].preview;
            && (i.state == Pending || i.state == NeedsReview ==>
                  (AddPreviewItem(g, i).Some? <==> g.itemCount < MAX_PREVIEW_ITEMS))
            && (k in s.items && s.items[k].state == Pending && i.state == NeedsReview ==>
                  ReplacePreviewItem(g, s.items[k], i).Some?)
  {
    hide Total;
    hide Run;
    hide LeaseBacked;
    var s := Run(EMPTY, ops);
    EmptyInv();
    RunKeepsInv(EMPTY, ops);
    assert CountersAgree(s.jobs[j], j, s.items);
    forall x | x in s.items ensures ValidDigest(s.items[x].digest) { assert (x, s.items[x]) in s.itemCopies; }
    hide Inv;
    hide AddPreviewItem;
    hide ReplacePreviewItem;
    if i.state == Pending || i.state == NeedsReview { AddNeverRejects(s.jobs[j].preview, j, s.items, i); }
    if k in s.items && s.items[k].state == Pending && i.state == NeedsReview {
      ReplaceNeverRejects(s.jobs[j].preview, j, s.items, k, i);
    }
  }
}
