/**
 What a committed operation does to one job row and one item row, told from the current rows.
 */
module MigrationRows {
  import opened Types
  import opened MigrationRecords
  import opened MigrationProtocol
  import opened MigrationTotals
  import opened MigrationInvariant
  import opened MigrationSteps

  /** The next row of a job, from its current row. */
  function JobAfter(c: Job, j: JobId, op: Op): Job {
    match op
    case PutPreviewItem(k, _, item) =>
      if k.job == j && AddPreviewItem(c.preview, item).Some?
      then c.(preview := AddPreviewItem(c.preview, item).value) else c
    case RejectPreviewItem(k, _, readItem, reason, digest) =>
      var updated := RejectedItem(readItem, reason, digest);
      if k.job == j && ReplacePreviewItem(c.preview, readItem, updated).Some?
      then c.(preview := ReplacePreviewItem(c.preview, readItem, updated).value) else c
    case ClaimItem(k, _, readItem, request) => if k.job == j then JobAfterClaim(c, readItem, request) else c
    case FinishItem(k, readJob, readItem, caller) =>
      if k.job == j && FinishValueOf(caller).Some?
      then JobAfterFinish(c, readJob, readItem, FinishedItem(readItem, FinishValueOf(caller).value)) else c
    case _ => if JobUpdate(op).Some? && JobUpdate(op).value.0 == j then JobUpdate(op).value.2 else c
  }

  /** The next row of an item. */
  function ItemAfter(c: Item, k: ItemKey, op: Op): Item {
    match op
    case RejectPreviewItem(x, _, readItem, reason, digest) => if x == k then RejectedItem(readItem, reason, digest) else c
    case ClaimItem(x, _, readItem, request) => if x == k then ClaimedItem(readItem, request) else c
    case FinishItem(x, _, readItem, caller) =>
      if x == k && FinishValueOf(caller).Some? then FinishedItem(readItem, FinishValueOf(caller).value) else c
    case _ => c
  }

  /** What a committed operation knows of the current job row. */
  predicate JobOpAgrees(c: Job, j: JobId, op: Op) {
    match op
    case PutPreviewItem(k, readJob, item) => k.job == j ==> c.state == Previewing && readJob == c && FreshItem(item)
    case RejectPreviewItem(k, readJob, _, _, _) => k.job == j ==> c.state == Previewing && readJob == c
    case ClaimItem(k, _, readItem, request) =>
      k.job == j ==> c.state == Running
                     && (if ClaimsCanary(readItem, request) then !c.mutationStarted else c.mutationStarted && c.canaryApproved)
    case FinishItem(k, readJob, readItem, caller) =>
      k.job == j ==> FinishValueOf(caller).Some?
                     && (ChangesMetrics(readJob, readItem, FinishedItem(readItem, FinishValueOf(caller).value)) ==> readJob == c)
    case _ => JobUpdate(op).Some? && JobUpdate(op).value.0 == j ==> JobUpdate(op).value.1 == c
  }

  lemma JobRowAfterJobOp(s: System, op: Op, j: JobId)
    requires Inv(s) && Commits(s, op) && j in s.jobs && JobUpdate(op).Some?
    requires !(op.PutPreviewItem? || op.RejectPreviewItem? || op.ClaimItem? || op.FinishItem? || op.CreateJob? || op.Tick?)
    ensures j in Effect(s, op).jobs && Effect(s, op).jobs[j] == JobAfter(s.jobs[j], j, op)
    ensures JobOpAgrees(s.jobs[j], j, op)
  {
    hide ReadsAreValid;
    hide Inv;
    hide JobUpdate;
    if JobUpdate(op).value.0 == j {
      JobCopyFacts(s, j, JobUpdate(op).value.1);
      CommittedCopyIsCurrent(JobUpdate(op).value.1, s.jobs[j]);
    }
  }

  lemma JobRowAfterPreviewOp(s: System, op: Op, j: JobId)
    requires Inv(s) && Commits(s, op) && j in s.jobs && (op.PutPreviewItem? || op.RejectPreviewItem?)
    ensures j in Effect(s, op).jobs && Effect(s, op).jobs[j] == JobAfter(s.jobs[j], j, op)
    ensures JobOpAgrees(s.jobs[j], j, op)
  {
    hide ReadsAreValid;
    hide Inv;
    hide AddPreviewItem;
    hide ReplacePreviewItem;
    hide CountersAgree;
    if op.k.job == j {
      JobCopyFacts(s, j, op.readJob);
      CommittedCopyIsCurrent(op.readJob, s.jobs[j]);
    }
  }

  lemma JobRowAfterClaim(s: System, op: Op, j: JobId)
    requires Inv(s) && Commits(s, op) && j in s.jobs && op.ClaimItem?
    ensures j in Effect(s, op).jobs && Effect(s, op).jobs[j] == JobAfter(s.jobs[j], j, op)
    ensures JobOpAgrees(s.jobs[j], j, op)
  {
    hide ReadsAreValid;
    hide Inv;
    hide CountersAgree;
    if op.k.job == j {
      JobCopyFacts(s, j, op.readJob);
      CommittedCopyIsCurrent(op.readJob, s.jobs[j]);
    }
  }

  lemma JobRowAfterFinish(s: System, op: Op, j: JobId)
    requires Inv(s) && Commits(s, op) && j in s.jobs && op.FinishItem?
    ensures j in Effect(s, op).jobs && Effect(s, op).jobs[j] == JobAfter(s.jobs[j], j, op)
    ensures JobOpAgrees(s.jobs[j], j, op)
  {
    hide ReadsAreValid;
    hide Inv;
    hide CountersAgree;
    hide FinishValueOf;
    hide FinishedItem;
    hide MetricsJob;
    hide ChangesMetrics;
    if op.k.job == j {
      JobCopyFacts(s, j, op.readJob);
      CommittedCopyIsCurrent(op.readJob, s.jobs[j]);
    }
  }

  /** A committed operation writes the job row that follows from the current one. */
  lemma JobRowAfter(s: System, op: Op, j: JobId)
    requires Inv(s) && Commits(s, op) && j in s.jobs
    ensures j in Effect(s, op).jobs && Effect(s, op).jobs[j] == JobAfter(s.jobs[j], j, op)
    ensures JobOpAgrees(s.jobs[j], j, op)
  {
    hide Inv;
    match op
    case PutPreviewItem(_, _, _) => JobRowAfterPreviewOp(s, op, j);
    case RejectPreviewItem(_, _, _, _, _) => JobRowAfterPreviewOp(s, op, j);
    case ClaimItem(_, _, _, _) => JobRowAfterClaim(s, op, j);
    case FinishItem(_, _, _, _) => JobRowAfterFinish(s, op, j);
    case CreateJob(_, _, _, _, _) =>
    case Tick(_) =>
    case _ => JobRowAfterJobOp(s, op, j);
  }

  /** The item row an operation writes. */
  function ItemWriteOf(op: Op): Option<(ItemKey, Item)> {
    match op
    case PutPreviewItem(k, _, item) => Some((k, item))
    case RejectPreviewItem(k, _, readItem, reason, digest) => Some((k, RejectedItem(readItem, reason, digest)))
    case ClaimItem(k, _, readItem, request) => Some((k, ClaimedItem(readItem, request)))
    case FinishItem(k, _, readItem, caller) =>
      if FinishValueOf(caller).Some? then Some((k, FinishedItem(readItem, FinishValueOf(caller).value))) else None
    case _ => None
  }

  lemma ItemsAfter(s: System, op: Op)
    requires Commits(s, op)
    ensures Effect(s, op).items
         == if ItemWriteOf(op).Some? then s.items[ItemWriteOf(op).value.0 := ItemWriteOf(op).value.1] else s.items
    ensures op.PutPreviewItem? <==> ItemWriteOf(op).Some? && ItemWriteOf(op).value.0 !in s.items
    ensures forall j | j in Effect(s, op).jobs && j !in s.jobs ::
              op.CreateJob? && op.j == j && Effect(s, op).jobs[j] == NewJob(op.canarySize, op.accountConcurrency, op.policy, op.createdAt)
  {
    hide ReadsAreValid;
    hide FinishValueOf;
    hide FinishedItem;
    hide MetricsJob;
    hide ChangesMetrics;
    hide ClaimedItem;
    hide JobUpdate;
    hide ValidItem;
  }

  /** What a committed operation on an existing item knows of the current row. */
  predicate ItemOpAgrees(c: Item, k: ItemKey, op: Op) {
    match op
    case RejectPreviewItem(x, _, readItem, _, _) =>
      x == k ==> readItem.state == Pending && ItemUnchanged(readItem, c) && ItemFollows(readItem, c) && ValidItem(readItem)
    case ClaimItem(x, _, readItem, request) =>
      x == k ==> MayClaim(readItem, request.now) && ItemUnchanged(readItem, c) && ItemFollows(readItem, c) && ItemOk(readItem)
                 && ValidItem(readItem)
    case FinishItem(x, _, readItem, caller) =>
      x == k ==> MayFinishFrom(readItem.state) && ItemUnchanged(readItem, c) && ItemFollows(readItem, c) && ItemOk(readItem)
                 && ValidItem(readItem) && FinishValueOf(caller).Some? && FinishValueOf(caller).value.attempts == readItem.attempts
    case _ => true
  }

  lemma ItemRowAfter(s: System, op: Op, k: ItemKey)
    requires Inv(s) && Commits(s, op) && k in s.items
    ensures k in Effect(s, op).items && Effect(s, op).items[k] == ItemAfter(s.items[k], k, op)
    ensures ItemOpAgrees(s.items[k], k, op)
  {
    hide Inv;
    hide ValidItem;
    hide ValidJob;
    hide CallerReadsAreValid;
    hide FinishValueOf;
    hide FinishedItem;
    hide MetricsJob;
    hide ChangesMetrics;
    hide ClaimedItem;
    hide ItemFollows;
    hide ItemOk;
    hide ItemUnchanged;
    hide JobUnchanged;
    hide CanaryUnchanged;
    hide StillRunning;
    hide JobAllowsClaim;
    hide AddPreviewItem;
    hide ReplacePreviewItem;
    hide CallerCopies;
    hide JobUpdate;
    match op
    case RejectPreviewItem(_, _, readItem, _, _) => ItemCopyFacts(s, op.k, readItem);
    case ClaimItem(_, _, readItem, _) => ItemCopyFacts(s, op.k, readItem);
    case FinishItem(_, _, readItem, _) => ItemCopyFacts(s, op.k, readItem);
    case _ =>
  }
}
