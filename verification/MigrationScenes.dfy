/**
 A job with one item, from the empty table to the first claim and its answer, step by step: the
 common start of the runs in which a promise of the protocol fails.
 */
module MigrationScenes {
  import opened Types
  import opened MigrationRecords
  import opened MigrationProtocol
  import opened MigrationTotals
  import opened MigrationInvariant
  import opened MigrationSteps
  import opened MigrationCounters
  import opened MigrationLoads
  import opened MigrationStore

  /** The current rows of an item and its job. */
  predicate Holds(s: System, k: ItemKey, job: Job, item: Item) {
    && k.job in s.jobs && s.jobs[k.job] == job && (k.job, job) in s.jobCopies
    && k in s.items && s.items[k] == item && (k, item) in s.itemCopies
  }

  /** The current rows of an item and its job, both of which can be loaded. */
  ghost predicate Shows(s: System, k: ItemKey, job: Job, item: Item) {
    Holds(s, k, job, item) && Inv(s) && ValidJob(job) && ValidItem(item)
  }

  predicate SameLeases(s: System, t: System) { s.slots == t.slots && s.claims == t.claims && s.now == t.now }

  predicate KeepsCopies(s: System, t: System) { s.jobCopies <= t.jobCopies && s.itemCopies <= t.itemCopies }

  lemma Extend(ops: seq<Op>, op: Op)
    ensures Run(EMPTY, ops + [op]) == Apply(Run(EMPTY, ops), op)
  {
    hide Apply;
    RunAppend(EMPTY, ops, [op]);
    assert [op][1..] == [];
    assert Run(Apply(Run(EMPTY, ops), op), []) == Apply(Run(EMPTY, ops), op);
  }

  // ---------------------------------------------------------------- single steps

  lemma StaysShown(s: System, k: ItemKey, job: Job, item: Item, op: Op, n: Job, i: Item)
    requires Shows(s, k, job, item) && Commits(s, op) && Holds(Effect(s, op), k, n, i)
    requires !Spoils(job, k.job, op) && !(op.ClaimItem? && item.state == RetryableFailure)
    ensures Shows(Apply(s, op), k, n, i)
  {
    hide Inv;
    hide Commits;
    hide Effect;
    hide ValidJob;
    hide ValidItem;
    hide Spoils;
    ApplyKeepsInv(s, op);
    JobStaysValidExactly(s, op, k.job);
    ItemStaysValidExactly(s, op, k);
  }

  lemma JobEffect(s: System, k: ItemKey, job: Job, item: Item, op: Op, n: Job)
    requires Holds(s, k, job, item) && ValidJob(job) && JobUpdate(op) == Some((k.job, job, n))
    ensures Commits(s, op)
            && var t := Effect(s, op); Holds(t, k, n, item) && t.items == s.items && SameLeases(s, t) && KeepsCopies(s, t)
  {
    hide ValidJob;
    hide JobUpdate;
    UpdatesAreJobOps(op);
    assert op.AdvancePreview? || op.CompletePreview? || op.ScheduleExecution? || op.Control? || op.StartExecution?
           || op.ContinueExecution? || op.BeginCancel? || op.FinalizeCancellation?;
  }

  lemma JobStep(s: System, k: ItemKey, job: Job, item: Item, op: Op, n: Job)
    requires Shows(s, k, job, item) && JobUpdate(op) == Some((k.job, job, n)) && !Spoils(job, k.job, op)
    ensures var t := Apply(s, op); Commits(s, op) && Shows(t, k, n, item) && t.items == s.items && SameLeases(s, t) && KeepsCopies(s, t)
  {
    hide Inv;
    hide Commits;
    hide Effect;
    hide ValidJob;
    hide ValidItem;
    hide Spoils;
    hide Holds;
    UpdatesAreJobOps(op);
    hide JobUpdate;
    JobEffect(s, k, job, item, op, n);
    StaysShown(s, k, job, item, op, n, item);
  }

  /** What a canary claim leaves, whatever it claims. */
  lemma ClaimMakes(s: System, k: ItemKey, job: Job, item: Item, r: ClaimRequest)
    requires Holds(s, k, job, item) && ValidJob(job) && ValidItem(item) && ClaimCommits(s, k, job, item, r) && ClaimsCanary(item, r)
    ensures var op := ClaimItem(k, job, item, r); var lease := Lease(k, ClaimedAttempt(item), r.now + r.leaseSeconds);
            Commits(s, op)
            && var t := Effect(s, op);
               && Holds(t, k, CanaryClaimedJob(job), ClaimedItem(item, r)) && t.now == s.now && KeepsCopies(s, t)
               && t.items == s.items[k := ClaimedItem(item, r)]
               && t.slots == s.slots[SlotKey(r.account, r.slot) := lease]
               && t.claims == s.claims[ClaimKey(r.account, k.subscription) := lease]
  {
    hide ValidJob;
    hide ValidItem;
    hide ClaimedItem;
    hide ClaimCommits;
  }

  lemma ClaimStep(s: System, k: ItemKey, job: Job, item: Item, r: ClaimRequest)
    requires Shows(s, k, job, item) && ClaimCommits(s, k, job, item, r) && ClaimsCanary(item, r) && item.state != RetryableFailure
    ensures var t := Apply(s, ClaimItem(k, job, item, r)); var lease := Lease(k, ClaimedAttempt(item), r.now + r.leaseSeconds);
            && Shows(t, k, CanaryClaimedJob(job), ClaimedItem(item, r)) && t.now == s.now && KeepsCopies(s, t)
            && t.items == s.items[k := ClaimedItem(item, r)]
            && t.slots == s.slots[SlotKey(r.account, r.slot) := lease]
            && t.claims == s.claims[ClaimKey(r.account, k.subscription) := lease]
  {
    hide Inv;
    hide Commits;
    hide Effect;
    hide ValidJob;
    hide ValidItem;
    hide Holds;
    hide ClaimedItem;
    hide CanaryClaimedJob;
    hide ClaimCommits;
    hide ClaimsCanary;
    ClaimMakes(s, k, job, item, r);
    StaysShown(s, k, job, item, ClaimItem(k, job, item, r), CanaryClaimedJob(job), ClaimedItem(item, r));
  }

  /** The job row after a finish. */
  function FinishedJob(job: Job, was: Item, becomes: Item): Job {
    if ChangesMetrics(job, was, becomes) then MetricsJob(job, was, becomes) else job
  }

  /** The two lease rows of an item are gone after its finish. */
  predicate Releases(s: System, t: System, k: ItemKey, item: Item) {
    if item.holder.None? then SameLeases(s, t)
    else t.now == s.now && t.claims == s.claims - {ClaimKey(item.holder.value.account, k.subscription)}
         && t.slots == s.slots - {SlotKey(item.holder.value.account, item.holder.value.slot)}
  }

  /** What a finish from the current rows leaves. */
  lemma FinishMakes(s: System, k: ItemKey, job: Job, item: Item, c: Caller, updated: Item)
    requires Holds(s, k, job, item) && ValidJob(job) && ValidItem(item) && CallerReadsAreValid(c)
    requires FinishCommits(s, k, job, item, c) && updated == FinishedItem(item, FinishValueOf(c).value)
    ensures var op := FinishItem(k, job, item, c);
            Commits(s, op)
            && var t := Effect(s, op); Holds(t, k, FinishedJob(job, item, updated), updated) && Releases(s, t, k, item) && KeepsCopies(s, t)
  {
    hide ValidJob;
    hide ValidItem;
    hide CallerReadsAreValid;
    hide FinishedItem;
    hide FinishValueOf;
    hide ChangesMetrics;
    hide MetricsJob;
    assert FinishValueOf(c).Some?;
    hide FinishCommits;
  }

  lemma FinishStep(s: System, k: ItemKey, job: Job, item: Item, c: Caller, updated: Item)
    requires Shows(s, k, job, item) && CallerReadsAreValid(c) && FinishCommits(s, k, job, item, c)
    requires FinishValueOf(c).Some? && updated == FinishedItem(item, FinishValueOf(c).value) && !SpoilsByFinish(job, item, updated)
    ensures var t := Apply(s, FinishItem(k, job, item, c));
            && Commits(s, FinishItem(k, job, item, c))
            && Shows(t, k, FinishedJob(job, item, updated), updated) && Releases(s, t, k, item) && KeepsCopies(s, t)
  {
    hide Inv;
    hide Commits;
    hide Effect;
    hide ValidJob;
    hide ValidItem;
    hide CallerReadsAreValid;
    hide Holds;
    hide FinishedItem;
    hide FinishValueOf;
    hide FinishedJob;
    hide FinishCommits;
    hide SpoilsByFinish;
    FinishMakes(s, k, job, item, c, updated);
    StaysShown(s, k, job, item, FinishItem(k, job, item, c), FinishedJob(job, item, updated), updated);
  }

  /** A finish of an item without a lease from the current rows commits. */
  lemma CurrentFinishCommits(s: System, k: ItemKey, job: Job, item: Item, c: Caller)
    requires Holds(s, k, job, item) && CallerCopies(s, k, c) && FinishValueOf(c).Some?
    requires MayFinishFrom(item.state) && item.attempts == FinishValueOf(c).value.attempts && item.holder.None?
    requires ValidItem(FinishedItem(item, FinishValueOf(c).value))
    ensures FinishCommits(s, k, job, item, c)
  {
    hide FinishedItem;
    hide FinishValueOf;
    hide ChangesMetrics;
    hide CallerCopies;
    hide ValidItem;
  }

  /** A finish of an item without a lease, as one step. */
  lemma OpenFinishStep(s: System, k: ItemKey, job: Job, item: Item, c: Caller, updated: Item)
    requires Shows(s, k, job, item) && CallerCopies(s, k, c) && CallerReadsAreValid(c)
    requires FinishValueOf(c).Some? && MayFinishFrom(item.state) && item.attempts == FinishValueOf(c).value.attempts && item.holder.None?
    requires updated == FinishedItem(item, FinishValueOf(c).value) && ValidItem(updated) && !SpoilsByFinish(job, item, updated)
    ensures var t := Apply(s, FinishItem(k, job, item, c));
            && Commits(s, FinishItem(k, job, item, c))
            && Shows(t, k, FinishedJob(job, item, updated), updated) && SameLeases(s, t) && KeepsCopies(s, t)
  {
    hide Inv;
    hide Apply;
    hide Commits;
    hide ValidJob;
    hide ValidItem;
    hide Holds;
    hide CallerCopies;
    hide CallerReadsAreValid;
    hide FinishedItem;
    hide FinishValueOf;
    hide FinishedJob;
    hide FinishCommits;
    hide MayFinishFrom;
    hide SpoilsByFinish;
    CurrentFinishCommits(s, k, job, item, c);
    FinishStep(s, k, job, item, c, updated);
  }

  lemma TickStep(s: System, k: ItemKey, job: Job, item: Item, seconds: nat)
    requires Shows(s, k, job, item)
    ensures var t := Apply(s, Tick(seconds));
            && Shows(t, k, job, item) && t.now == s.now + seconds && t.slots == s.slots && t.claims == s.claims && KeepsCopies(s, t)
            && t.items == s.items
  {
    hide Inv;
    hide ValidJob;
    hide ValidItem;
    ApplyKeepsInv(s, Tick(seconds));
  }

  // ---------------------------------------------------------------- a scheduled job

  /** One item to migrate, its preview, the account its worker claims under and the canary size of its job. */
  datatype Scene = Scene(k: ItemKey, item: Item, preview: Aggregate, account: AccountKey, tax: string, canarySize: int)

  predicate IsScene(c: Scene) { 1 <= c.canarySize <= 25 && IsFreshPending(c.item) && IsPreviewOf(c.preview, c.item) }

  predicate IsFreshPending(i: Item) { FreshItem(i) && i.state == Pending && ValidDigest(i.digest) }

  predicate IsPreviewOf(g: Aggregate, i: Item) {
    g.itemCount == 1 && g.digestA == i.digest.a && g.digestB == i.digest.b && HasPending(g.counts, 1)
  }

  /** All items are pending. */
  predicate HasPending(c: Counts, n: int) {
    c.total == n && c.pending == n && c.applied == 0 && c.needsReview == 0 && c.failed == 0
  }

  lemma PreviewIsValid(g: Aggregate, i: Item)
    requires IsFreshPending(i) && IsPreviewOf(g, i)
    ensures ValidAggregate(g)
  {
    hide FreshItem;
  }

  lemma PendingItemIsAdded(g: Aggregate, h: Aggregate, i: Item)
    requires ValidAggregate(g) && ValidAggregate(h) && i.state == Pending && g.itemCount < MAX_PREVIEW_ITEMS
    requires HasPending(g.counts, g.itemCount) && HasPending(h.counts, g.itemCount + 1)
    requires h.itemCount == g.itemCount + 1 && h.digestA == g.digestA + i.digest.a && h.digestB == g.digestB + i.digest.b
    ensures AddPreviewItem(g, i) == Some(h)
  {
    hide ValidAggregate;
  }

  /** The aggregate before the first item. */
  predicate IsEmptyPreview(g: Aggregate) { g.itemCount == 0 && g.digestA == 0 && g.digestB == 0 && HasPending(g.counts, 0) }

  lemma NothingIsValid(g: Aggregate)
    requires IsEmptyPreview(g)
    ensures ValidAggregate(g)
  {
  }

  lemma FirstItemIsAdded(i: Item, g: Aggregate, h: Aggregate)
    requires IsFreshPending(i) && IsPreviewOf(h, i) && IsEmptyPreview(g)
    ensures ValidAggregate(h) && AddPreviewItem(g, i) == Some(h)
  {
    hide FreshItem;
    hide ValidDigest;
    hide AddPreviewItem;
    hide ValidAggregate;
    PreviewIsValid(h, i);
    NothingIsValid(g);
    PendingItemIsAdded(g, h, i);
  }

  function CreatedJob(c: Scene): Job { NewJob(c.canarySize, 1, NextRenewal, 1) }

  function PreviewedJob(c: Scene): Job { CreatedJob(c).(preview := c.preview) }

  function AwaitingJob(c: Scene): Job { CompletedPreviewJob(PreviewedJob(c), 100) }

  function ScheduledJob(c: Scene): Job { AwaitingJob(c).(state := Scheduled, revision := 3, tax := Some(c.tax)) }

  function AwaitingOps(c: Scene): seq<Op> {
    var create := CreateJob(c.k.job, c.canarySize, 1, NextRenewal, 1);
    var put := PutPreviewItem(c.k, CreatedJob(c), c.item);
    var complete := CompletePreview(c.k.job, PreviewedJob(c), 1, c.preview, c.preview.counts, 100);
    [create, put, complete]
  }

  function ScheduledOps(c: Scene): seq<Op> {
    AwaitingOps(c) + [ScheduleExecution(c.k.job, AwaitingJob(c), 1, c.preview, 1, c.tax)]
  }

  lemma CreateStep(c: Scene)
    requires IsScene(c)
    ensures var t := Apply(EMPTY, CreateJob(c.k.job, c.canarySize, 1, NextRenewal, 1));
            && t.jobs == map[c.k.job := CreatedJob(c)] && t.items == map[] && SameLeases(EMPTY, t)
            && (c.k.job, CreatedJob(c)) in t.jobCopies && Inv(t) && ValidJob(CreatedJob(c))
  {
    hide IsFreshPending;
    hide Inv;
    hide ValidJob;
    var op := CreateJob(c.k.job, c.canarySize, 1, NextRenewal, 1);
    EmptyInv();
    ApplyKeepsInv(EMPTY, op);
    NewJobIsValid(EMPTY, op, c.k.job);
  }

  lemma CreatedIsEmpty(c: Scene)
    ensures var created, previewed := CreatedJob(c), PreviewedJob(c);
            && created.state == Previewing && IsEmptyPreview(created.preview)
            && created.(preview := c.preview) == previewed
            && previewed.state == Previewing && previewed.revision == 1 && previewed.preview == c.preview
  {
  }

  lemma PutMakes(s: System, k: ItemKey, r: Job, i: Item, g: Aggregate)
    requires k.job in s.jobs && s.jobs[k.job] == r && k !in s.items && (k.job, r) in s.jobCopies && ValidJob(r)
    requires r.state == Previewing && IsFreshPending(i) && AddPreviewItem(r.preview, i) == Some(g)
    ensures var op := PutPreviewItem(k, r, i);
            Commits(s, op)
            && var t := Effect(s, op);
               Holds(t, k, r.(preview := g), i) && t.items == s.items[k := i] && SameLeases(s, t) && KeepsCopies(s, t)
  {
    hide ValidJob;
    hide AddPreviewItem;
    hide FreshItem;
  }

  lemma PutStep(s: System, k: ItemKey, r: Job, i: Item, g: Aggregate)
    requires k.job in s.jobs && s.jobs[k.job] == r && k !in s.items && (k.job, r) in s.jobCopies && ValidJob(r) && Inv(s)
    requires r.state == Previewing && IsFreshPending(i) && AddPreviewItem(r.preview, i) == Some(g)
    ensures var t := Apply(s, PutPreviewItem(k, r, i));
            Shows(t, k, r.(preview := g), i) && t.items == s.items[k := i] && SameLeases(s, t) && KeepsCopies(s, t)
  {
    hide Inv;
    hide Commits;
    hide Effect;
    hide ValidJob;
    hide ValidItem;
    hide AddPreviewItem;
    hide IsFreshPending;
    var op := PutPreviewItem(k, r, i);
    PutMakes(s, k, r, i, g);
    ApplyKeepsInv(s, op);
    JobStaysValidExactly(s, op, k.job);
    NewItemIsValid(s, op, k);
  }

  lemma CompleteUpdate(j: JobId, r: Job, g: Aggregate, revision: int, expiresAt: int)
    requires r.state == Previewing && r.preview == g && r.revision == revision && ValidAggregate(g) && IsEpoch(expiresAt)
    ensures JobUpdate(CompletePreview(j, r, revision, g, g.counts, expiresAt)) == Some((j, r, CompletedPreviewJob(r, expiresAt)))
  {
    hide CompletedPreviewJob;
  }

  lemma ScheduleUpdate(c: Scene)
    ensures JobUpdate(ScheduleExecution(c.k.job, AwaitingJob(c), 1, c.preview, 1, c.tax))
         == Some((c.k.job, AwaitingJob(c), ScheduledJob(c)))
  {
  }

  lemma AwaitingRun(c: Scene)
    requires IsScene(c)
    ensures var s := Run(EMPTY, AwaitingOps(c)); Shows(s, c.k, AwaitingJob(c), c.item) && SameLeases(EMPTY, s)
  {
    hide Run;
    hide Apply;
    hide Commits;
    hide JobUpdate;
    hide Shows;
    hide Inv;
    hide ValidJob;
    hide AddPreviewItem;
    hide ValidAggregate;
    hide IsFreshPending;
    hide CreatedJob;
    hide PreviewedJob;
    hide CompletedPreviewJob;
    hide NewJob;
    var created, previewed, awaiting := CreatedJob(c), PreviewedJob(c), AwaitingJob(c);
    CreatedIsEmpty(c);
    FirstItemIsAdded(c.item, created.preview, c.preview);
    CreateStep(c);
    CompleteUpdate(c.k.job, previewed, c.preview, 1, 100);
    var create := CreateJob(c.k.job, c.canarySize, 1, NextRenewal, 1);
    var put := PutPreviewItem(c.k, created, c.item);
    var complete := CompletePreview(c.k.job, previewed, 1, c.preview, c.preview.counts, 100);
    assert [] + [create] == [create] && [create] + [put] == [create, put] && [create, put] + [complete] == [create, put, complete];
    NoSteps(EMPTY);
    Extend([], create);
    Extend([create], put);
    Extend([create, put], complete);
    PutStep(Apply(EMPTY, create), c.k, created, c.item, c.preview);
    JobStep(Run(EMPTY, [create, put]), c.k, previewed, c.item, complete, awaiting);
  }

  lemma ScheduledRun(c: Scene)
    requires IsScene(c)
    ensures var s := Run(EMPTY, ScheduledOps(c)); Shows(s, c.k, ScheduledJob(c), c.item) && SameLeases(EMPTY, s)
  {
    hide Run;
    hide Apply;
    hide Commits;
    hide JobUpdate;
    hide Shows;
    hide IsScene;
    hide AwaitingOps;
    hide AwaitingJob;
    hide ScheduledJob;
    var schedule := ScheduleExecution(c.k.job, AwaitingJob(c), 1, c.preview, 1, c.tax);
    AwaitingRun(c);
    ScheduleUpdate(c);
    Extend(AwaitingOps(c), schedule);
    JobStep(Run(EMPTY, AwaitingOps(c)), c.k, AwaitingJob(c), c.item, schedule, ScheduledJob(c));
  }

  // ---------------------------------------------------------------- a running job

  function RunningJob(c: Scene): Job { ScheduledJob(c).(state := Running, revision := 4) }

  function CanaryRequest(c: Scene, at: int): ClaimRequest { ClaimRequest(c.account, 0, at, 30, 4, true) }

  function ClaimedJob(c: Scene): Job { CanaryClaimedJob(RunningJob(c)) }

  function FirstClaim(c: Scene): Item { ClaimedItem(c.item, CanaryRequest(c, 1)) }

  function ClaimedOps(c: Scene): seq<Op> {
    ScheduledOps(c) + [StartExecution(c.k.job, ScheduledJob(c), 3)] + [ClaimItem(c.k, RunningJob(c), c.item, CanaryRequest(c, 1))]
  }

  /** The lease rows of one running attempt. */
  predicate Leased(s: System, c: Scene, attempt: int, expiresAt: int) {
    && s.slots == map[SlotKey(c.account, 0) := Lease(c.k, attempt, expiresAt)]
    && s.claims == map[ClaimKey(c.account, c.k.subscription) := Lease(c.k, attempt, expiresAt)]
  }

  lemma StartUpdate(c: Scene)
    ensures JobUpdate(StartExecution(c.k.job, ScheduledJob(c), 3)) == Some((c.k.job, ScheduledJob(c), RunningJob(c)))
  {
  }

  lemma FirstClaimCommits(s: System, c: Scene)
    requires IsScene(c) && Holds(s, c.k, RunningJob(c), c.item) && SameLeases(EMPTY, s)
    ensures ClaimCommits(s, c.k, RunningJob(c), c.item, CanaryRequest(c, 1)) && ClaimsCanary(c.item, CanaryRequest(c, 1))
    ensures ClaimedAttempt(c.item) == 1 && c.item.state == Pending
  {
  }

  lemma ClaimedRun(c: Scene)
    requires IsScene(c)
    ensures var s := Run(EMPTY, ClaimedOps(c));
            Shows(s, c.k, ClaimedJob(c), FirstClaim(c)) && Leased(s, c, 1, 31) && s.now == 1
  {
    hide Run;
    hide Apply;
    hide Commits;
    hide JobUpdate;
    hide Inv;
    hide ValidJob;
    hide ValidItem;
    hide Holds;
    hide ScheduledJob;
    hide RunningJob;
    hide ScheduledOps;
    hide IsScene;
    hide ClaimCommits;
    hide ClaimsCanary;
    hide CanaryClaimedJob;
    hide ClaimedItem;
    hide ClaimedAttempt;
    var start := StartExecution(c.k.job, ScheduledJob(c), 3);
    var claim := ClaimItem(c.k, RunningJob(c), c.item, CanaryRequest(c, 1));
    ScheduledRun(c);
    StartUpdate(c);
    Extend(ScheduledOps(c), start);
    JobStep(Run(EMPTY, ScheduledOps(c)), c.k, ScheduledJob(c), c.item, start, RunningJob(c));
    var s := Run(EMPTY, ScheduledOps(c) + [start]);
    FirstClaimCommits(s, c);
    Extend(ScheduledOps(c) + [start], claim);
    ClaimStep(s, c.k, RunningJob(c), c.item, CanaryRequest(c, 1));
  }

  lemma ClaimedFacts(c: Scene)
    requires IsScene(c)
    ensures var job, i := ClaimedJob(c), FirstClaim(c);
            && job.state == Running && job.revision == 4 && job.createdAt == 1 && job.counts == c.preview.counts && job.counts.pending == 1
            && job.canaryClaims == 1 && job.canaryCompleted == 0 && !job.canaryApproved && (c.canarySize == 1 ==> job.mutationStarted)
            && i.state == Applying && i.reason.None? && i.attempts == 1 && i.scheduleId.None? && i.rollbackGuard.None?
            && i.nextAttemptAt.None? && i.cancellationAttempts == 0 && i.cancellationNextAttemptAt.None? && i.lastEvent.None?
            && i.canary && i.holder == Some(Holder(c.account, 0, 31))
  {
    hide ValidDigest;
  }

  /** A finish of a leased item by the worker that holds its lease. */
  lemma LeasedFinishCommits(s: System, c: Scene, caller: Caller)
    requires Holds(s, c.k, ClaimedJob(c), FirstClaim(c)) && Leased(s, c, 1, 31) && FirstClaim(c).holder == Some(Holder(c.account, 0, 31))
    requires CallerCopies(s, c.k, caller) && FinishValueOf(caller).Some? && FinishValueOf(caller).value.attempts == 1
    requires FirstClaim(c).state == Applying && FirstClaim(c).attempts == 1
    requires ValidItem(FinishedItem(FirstClaim(c), FinishValueOf(caller).value))
    ensures FinishCommits(s, c.k, ClaimedJob(c), FirstClaim(c), caller)
  {
    hide ClaimedJob;
    hide FirstClaim;
    hide FinishedItem;
    hide FinishValueOf;
    hide ChangesMetrics;
    hide CallerCopies;
    hide ValidItem;
  }

  /** The first step after the claim: its item is finished. */
  lemma LeasedFinishRun(c: Scene, caller: Caller, updated: Item)
    requires IsScene(c) && CallerReadsAreValid(caller) && CallerCopies(Run(EMPTY, ClaimedOps(c)), c.k, caller)
    requires FinishValueOf(caller).Some? && FinishValueOf(caller).value.attempts == 1
    requires updated == FinishedItem(FirstClaim(c), FinishValueOf(caller).value) && ValidItem(updated)
    requires !SpoilsByFinish(ClaimedJob(c), FirstClaim(c), updated)
    ensures var s := Run(EMPTY, ClaimedOps(c) + [FinishItem(c.k, ClaimedJob(c), FirstClaim(c), caller)]);
            && Shows(s, c.k, FinishedJob(ClaimedJob(c), FirstClaim(c), updated), updated)
            && s.slots == map[] && s.claims == map[] && s.now == 1 && KeepsCopies(Run(EMPTY, ClaimedOps(c)), s)
  {
    hide Run;
    hide Apply;
    hide Commits;
    hide Inv;
    hide ValidJob;
    hide ValidItem;
    hide IsScene;
    hide ClaimedOps;
    hide ClaimedJob;
    hide FirstClaim;
    hide FinishCommits;
    hide FinishValueOf;
    hide FinishedItem;
    hide FinishedJob;
    hide CallerCopies;
    hide CallerReadsAreValid;
    hide SpoilsByFinish;
    ClaimedRun(c);
    ClaimedFacts(c);
    var s := Run(EMPTY, ClaimedOps(c));
    LeasedFinishCommits(s, c, caller);
    Extend(ClaimedOps(c), FinishItem(c.k, ClaimedJob(c), FirstClaim(c), caller));
    FinishStep(s, c.k, ClaimedJob(c), FirstClaim(c), caller, updated);
  }
}
