/**
 The bulk migration protocol as a state machine. An operation carries the copies of rows its
 worker read; a copy may be any version the row ever had. The operation commits when the
 worker's own tests pass on the copies and the write conditions hold of the current rows;
 otherwise nothing changes.
 */
module MigrationProtocol {
  import opened Types
  import opened MigrationRecords

  datatype System = System(
    jobs: map<JobId, Job>, items: map<ItemKey, Item>,
    slots: map<SlotKey, Lease>, claims: map<ClaimKey, Lease>, now: int,
    jobCopies: set<(JobId, Job)>, itemCopies: set<(ItemKey, Item)>)

  const EMPTY := System(map[], map[], map[], map[], 1, {}, {})

  datatype ControlAction = Pause | Resume | Cancel

  /** What a claiming worker brings: its clock, lease length, account slot and the revision it
      was started for. A canary batch is one started before the canary slots were used up. */
  datatype ClaimRequest = ClaimRequest(
    account: AccountKey, slot: int, now: int, leaseSeconds: int, expectedRevision: int, canaryBatch: bool)

  /** The arguments of the common item-finishing step. An absent field keeps the stored value. */
  datatype FinishValue = FinishValue(
    attempts: int, state: ItemState, reason: Option<Reason>, scheduleId: Option<string>,
    rollbackGuard: Option<Option<string>>, nextAttemptAt: Option<int>,
    cancellation: Option<(int, Option<int>)>, event: Option<Event>)

  /** The operations that finish an item, with the copies they read first. */
  datatype Caller =
    | CompleteItem(attempts: int, state: ItemState, reason: Option<Reason>,
                   scheduleId: Option<string>, rollbackGuard: Option<string>)
    | RetryItem(attempts: int, reason: Option<Reason>, nextAttemptAt: Option<int>, scheduleId: Option<string>)
    | CompleteCancellation(job: Job, first: Item, state: ItemState, reason: Option<Reason>)
    | RetryCancellation(job: Job, first: Item, cancellationAttempts: int, nextAttemptAt: Option<int>)
    | WebhookUpdate(job: Job, first: Item, updateApplied: bool, sourceCount: nat, targetCount: nat, event: Event)

  datatype Op =
    | CreateJob(j: JobId, canarySize: int, accountConcurrency: int, policy: Policy, createdAt: int)
    | PutPreviewItem(k: ItemKey, readJob: Job, item: Item)
    | RejectPreviewItem(k: ItemKey, readJob: Job, readItem: Item, reason: Reason, digest: Digest)
    | AdvancePreview(j: JobId, readJob: Job, expectedRevision: int, cursor: string)
    | CompletePreview(j: JobId, readJob: Job, expectedRevision: int, hash: Aggregate, counts: Counts, expiresAt: int)
    | ScheduleExecution(j: JobId, readJob: Job, dryRunRevision: int, hash: Aggregate, at: int, tax: string)
    | Control(j: JobId, readJob: Job, expectedRevision: int, action: ControlAction, appliedFound: bool)
    | StartExecution(j: JobId, readJob: Job, expectedRevision: int)
    | ClaimItem(k: ItemKey, readJob: Job, readItem: Item, request: ClaimRequest)
    | FinishItem(k: ItemKey, readJob: Job, readItem: Item, caller: Caller)
    | ContinueExecution(j: JobId, readJob: Job)
    | BeginCancel(j: JobId, readJob: Job, expectedRevision: int)
    | FinalizeCancellation(j: JobId, readJob: Job, workFound: bool)
    | Tick(seconds: nat)

  // ---------------------------------------------------------------- write conditions

  /** The condition of every job transition that does not touch the preview aggregate. */
  predicate JobUnchanged(read: Job, current: Job) {
    && current.revision == read.revision && current.state == read.state
    && current.counts == read.counts && current.preview == read.preview
    && current.mutationStarted == read.mutationStarted
    && current.canaryClaims == read.canaryClaims && current.canaryCompleted == read.canaryCompleted
    && current.awaitingProvider == read.awaitingProvider && current.appliedItems == read.appliedItems
    && current.cancellationRemaining == read.cancellationRemaining
    && current.canaryApproved == read.canaryApproved
    && current.canaryApprovalRequired == read.canaryApprovalRequired
  }

  predicate PreviewUnchanged(read: Job, current: Job) {
    current.state == Previewing && current.revision == read.revision && current.preview == read.preview
  }

  /** The canary claim fixes the running state and the unused canary budget instead of copying them. */
  predicate CanaryUnchanged(read: Job, current: Job) {
    && current.state == Running && current.revision == read.revision
    && current.canaryClaims == read.canaryClaims && !current.mutationStarted
    && current.counts == read.counts && current.preview == read.preview
    && current.canaryCompleted == read.canaryCompleted
    && current.awaitingProvider == read.awaitingProvider && current.appliedItems == read.appliedItems
    && current.cancellationRemaining == read.cancellationRemaining
    && current.canaryApproved == read.canaryApproved
    && current.canaryApprovalRequired == read.canaryApprovalRequired
  }

  predicate StillRunning(read: Job, current: Job) {
    current.state == Running && current.revision == read.revision && current.mutationStarted && current.canaryApproved
  }

  /** The condition of every item transition. */
  predicate ItemUnchanged(read: Item, current: Item) {
    && current.state == read.state && current.attempts == read.attempts
    && current.cancellationAttempts == read.cancellationAttempts
    && current.cancellationNextAttemptAt == read.cancellationNextAttemptAt
    && current.rollbackGuard == read.rollbackGuard
  }

  predicate SlotFree(s: System, key: SlotKey, at: int) {
    key in s.slots ==> s.slots[key].expiresAt <= at
  }

  predicate ClaimFree(s: System, key: ClaimKey, owner: ItemKey, at: int) {
    key in s.claims ==> s.claims[key].expiresAt <= at && s.claims[key].owner == owner
  }

  predicate LeaseHeldBy(l: Lease, owner: ItemKey, attempt: int) {
    l.owner == owner && l.attempt == attempt
  }

  // ---------------------------------------------------------------- new rows

  function NewJob(canarySize: int, accountConcurrency: int, policy: Policy, createdAt: int): Job {
    Job(canarySize, accountConcurrency, policy, createdAt, Previewing, 1, None,
        NO_COUNTS, NO_PREVIEW, None, None, false, 0, 0, 0, 0, 0, false, false)
  }

  /** The shape of an item as it is first written. */
  predicate FreshItem(i: Item) {
    && (i.state == Pending || i.state == NeedsReview)
    && i.attempts == 0 && i.scheduleId.None? && i.rollbackGuard.None? && i.holder.None?
    && i.nextAttemptAt.None? && i.cancellationAttempts == 0 && i.cancellationNextAttemptAt.None?
    && !i.canary && i.lastEvent.None? && ReasonMatchesState(i)
  }

  function ControlTarget(j: Job, action: ControlAction, appliedFound: bool): Option<JobState> {
    match (j.state, action)
    case (Previewing, Cancel) => Some(Canceled)
    case (AwaitingApproval, Cancel) => Some(Canceled)
    case (Scheduled, Pause) => Some(Paused)
    case (Running, Pause) => Some(Paused)
    case (Paused, Resume) => Some(Running)
    case (Scheduled, Cancel) => Some(CancelRequested)
    case (Running, Cancel) => Some(CancelRequested)
    case (Paused, Cancel) => Some(CancelRequested)
    case (Completed, Cancel) => if j.policy == NextRenewal && appliedFound then Some(CancelRequested) else None
    case (CompletedWithErrors, Cancel) => if j.policy == NextRenewal && appliedFound then Some(CancelRequested) else None
    case _ => None
  }

  function ControlledJob(j: Job, target: JobState, action: ControlAction): Job {
    var moved := j.(state := target, revision := j.revision + 1);
    if j.state == Paused && action == Resume && j.canaryApprovalRequired
    then moved.(canaryApproved := true, canaryApprovalRequired := false)
    else moved
  }

  // ---------------------------------------------------------------- claiming

  predicate IsClaimable(i: Item, at: int) {
    || i.state == Pending
    || (i.state == RetryableFailure && i.nextAttemptAt.Some? && i.nextAttemptAt.value <= at)
    || (i.state == Applying && i.holder.Some? && i.holder.value.expiresAt <= at)
  }

  /** An item whose five attempts are used up is taken over only to look at the outcome. */
  predicate IsReconcileOnly(i: Item) { i.state == Applying && i.attempts == MAX_ATTEMPTS }

  predicate MayClaim(i: Item, at: int) {
    IsClaimable(i, at) && (i.attempts < MAX_ATTEMPTS || IsReconcileOnly(i))
  }

  function ClaimedAttempt(i: Item): int {
    if IsReconcileOnly(i) then i.attempts else i.attempts + 1
  }

  function ClaimedItem(i: Item, r: ClaimRequest): Item {
    i.(state := Applying, attempts := ClaimedAttempt(i), nextAttemptAt := None,
       holder := Some(Holder(r.account, r.slot, r.now + r.leaseSeconds)),
       canary := if IsReconcileOnly(i) then i.canary else r.canaryBatch)
  }

  /** Whether the worker goes on with the job copy it just loaded. */
  predicate JobAllowsClaim(j: Job, i: Item, r: ClaimRequest) {
    && j.state == Running && j.revision == r.expectedRevision
    && (IsReconcileOnly(i)
        || (r.canaryBatch && !j.mutationStarted && j.canaryClaims < j.canarySize)
        || (!r.canaryBatch && j.mutationStarted && j.canaryApproved))
  }

  predicate ClaimsCanary(i: Item, r: ClaimRequest) { !IsReconcileOnly(i) && r.canaryBatch }

  function CanaryClaimedJob(j: Job): Job {
    j.(canaryClaims := j.canaryClaims + 1, mutationStarted := j.canaryClaims + 1 >= j.canarySize)
  }

  predicate ClaimCommits(s: System, k: ItemKey, readJob: Job, readItem: Item, r: ClaimRequest) {
    && (k.job, readJob) in s.jobCopies && (k, readItem) in s.itemCopies
    && k.job in s.jobs && k in s.items
    && 1 <= r.now <= s.now && 30 <= r.leaseSeconds <= 900 && IsEpoch(r.now + r.leaseSeconds)
    && 0 <= r.slot < readJob.accountConcurrency
    && MayClaim(readItem, r.now) && JobAllowsClaim(readJob, readItem, r)
    && SlotFree(s, SlotKey(r.account, r.slot), r.now)
    && ClaimFree(s, ClaimKey(r.account, k.subscription), k, r.now)
    && (if ClaimsCanary(readItem, r) then CanaryUnchanged(readJob, s.jobs[k.job])
        else StillRunning(readJob, s.jobs[k.job]))
    && ItemUnchanged(readItem, s.items[k])
  }

  // ---------------------------------------------------------------- finishing

  /** The state and reason a pending-update webhook asks for; None when it leaves the item alone. */
  function WebhookTarget(j: Job, i: Item, updateApplied: bool, sourceCount: nat, targetCount: nat)
    : Option<(ItemState, Option<Reason>)>
  {
    if j.state == Canceling then
      if sourceCount == 1 && targetCount == 0 then Some((Reverted, None))
      else Some((NeedsReview, Some("source-drift")))
    else if updateApplied && targetCount == 1 && sourceCount == 0 then Some((PendingUpdateApplied, None))
    else if !updateApplied && sourceCount == 1 && targetCount == 0 then
      if IsAwaitingProvider(i.state) then Some((PendingUpdateExpired, Some("payment-failed"))) else None
    else Some((NeedsReview, Some("source-drift")))
  }

  predicate WebhookMayFinish(state: ItemState) {
    match state
    case Applying | RetryableFailure | PendingPayment | PendingCustomerAction
         | PendingUpdateApplied | PendingUpdateExpired | Applied => true
    case _ => false
  }

  /** A webhook older than the job or than the item's last one is dropped. */
  predicate WebhookIsLate(j: Job, i: Item, e: Event) {
    e.createdAt < j.createdAt || (i.lastEvent.Some? && e.createdAt < i.lastEvent.value.createdAt)
  }

  /** What the caller hands to the common finishing step; None when it stops before. */
  function FinishValueOf(c: Caller): Option<FinishValue> {
    match c
    case CompleteItem(attempts, state, reason, scheduleId, rollbackGuard) =>
      if 1 <= attempts <= MAX_ATTEMPTS
         && (state == Applied || IsAwaitingProvider(state) || state == NeedsReview)
      then Some(FinishValue(attempts, state, reason, scheduleId, Some(rollbackGuard), None, None, None))
      else None
    case RetryItem(attempts, reason, nextAttemptAt, scheduleId) =>
      if !(1 <= attempts <= MAX_ATTEMPTS) || (attempts < MAX_ATTEMPTS) != nextAttemptAt.Some? then None else
      Some(FinishValue(attempts, if attempts < MAX_ATTEMPTS then RetryableFailure else NeedsReview,
                       reason, scheduleId, None, nextAttemptAt, None, None))
    case CompleteCancellation(job, first, state, reason) =>
      if job.state != Canceling || IsCancellationTerminal(first.state)
         || !(state == Reverted || state == Skipped || state == NeedsReview)
         || (state == NeedsReview) != reason.Some? then None else
      Some(FinishValue(first.attempts, state, reason, first.scheduleId, Some(first.rollbackGuard), None,
                       Some((first.cancellationAttempts, None)), None))
    case RetryCancellation(job, first, attempts, nextAttemptAt) =>
      var exhausted := attempts == MAX_ATTEMPTS;
      if !(1 <= attempts <= MAX_ATTEMPTS) || exhausted != nextAttemptAt.None?
         || job.state != Canceling || IsCancellationTerminal(first.state)
         || first.cancellationAttempts != attempts - 1 then None else
      Some(FinishValue(first.attempts, if exhausted then NeedsReview else first.state,
                       if exhausted then Some("retry-exhausted") else first.reason,
                       first.scheduleId, Some(first.rollbackGuard), None,
                       Some((attempts, nextAttemptAt)), None))
    case WebhookUpdate(job, first, updateApplied, sourceCount, targetCount, event) =>
      var target := WebhookTarget(job, first, updateApplied, sourceCount, targetCount);
      if WebhookIsLate(job, first, event) || target.None?
         || (first.state == target.value.0 && first.reason == target.value.1)
         || !WebhookMayFinish(first.state) then None else
      Some(FinishValue(first.attempts, target.value.0, target.value.1, first.scheduleId, None, None, None, Some(event)))
  }

  /** The copies a caller read before the finishing step read its own. */
  predicate CallerCopies(s: System, k: ItemKey, c: Caller) {
    match c
    case CompleteCancellation(job, first, _, _) => (k.job, job) in s.jobCopies && (k, first) in s.itemCopies
    case RetryCancellation(job, first, _, _) => (k.job, job) in s.jobCopies && (k, first) in s.itemCopies
    case WebhookUpdate(job, first, _, _, _, _) => (k.job, job) in s.jobCopies && (k, first) in s.itemCopies
    case _ => true
  }

  predicate MayFinishFrom(state: ItemState) {
    match state
    case Pending | Applying | RetryableFailure | PendingPayment | PendingCustomerAction
         | PendingUpdateApplied | PendingUpdateExpired | Applied => true
    case _ => false
  }

  function FinishedItem(i: Item, v: FinishValue): Item {
    i.(state := v.state, reason := v.reason, scheduleId := v.scheduleId,
       rollbackGuard := if v.rollbackGuard.Some? then v.rollbackGuard.value else i.rollbackGuard,
       holder := None, nextAttemptAt := v.nextAttemptAt,
       cancellationAttempts := if v.cancellation.Some? then v.cancellation.value.0 else i.cancellationAttempts,
       cancellationNextAttemptAt :=
         if v.cancellation.Some? then v.cancellation.value.1 else i.cancellationNextAttemptAt,
       lastEvent := if v.event.Some? then v.event else i.lastEvent)
  }

  function One(b: bool): int { if b then 1 else 0 }

  predicate CompletesCanary(was: Item, becomes: Item) {
    was.canary && !IsTerminal(was.state) && IsTerminal(becomes.state)
  }

  predicate CompletesCancellation(j: Job, was: Item, becomes: Item) {
    j.state == Canceling && !IsCancellationTerminal(was.state) && IsCancellationTerminal(becomes.state)
  }

  /** Whether the finishing step has to write the job row at all. */
  predicate ChangesMetrics(j: Job, was: Item, becomes: Item) {
    || CountBucket(was.state) != CountBucket(becomes.state)
    || IsAwaitingProvider(was.state) != IsAwaitingProvider(becomes.state)
    || IsAppliedState(was.state) != IsAppliedState(becomes.state)
    || CompletesCanary(was, becomes) || CompletesCancellation(j, was, becomes)
  }

  function MetricsJob(j: Job, was: Item, becomes: Item): Job {
    j.(counts := MoveCount(j.counts, CountBucket(was.state), CountBucket(becomes.state)),
       awaitingProvider := j.awaitingProvider + One(IsAwaitingProvider(becomes.state)) - One(IsAwaitingProvider(was.state)),
       appliedItems := j.appliedItems + One(IsAppliedState(becomes.state)) - One(IsAppliedState(was.state)),
       canaryCompleted := j.canaryCompleted + One(CompletesCanary(was, becomes)),
       cancellationRemaining := j.cancellationRemaining - One(CompletesCancellation(j, was, becomes)))
  }

  predicate FinishCommits(s: System, k: ItemKey, readJob: Job, readItem: Item, c: Caller) {
    && (k.job, readJob) in s.jobCopies && (k, readItem) in s.itemCopies && CallerCopies(s, k, c)
    && k.job in s.jobs && k in s.items
    && FinishValueOf(c).Some?
    && var v := FinishValueOf(c).value;
       var updated := FinishedItem(readItem, v);
       && MayFinishFrom(readItem.state) && readItem.attempts == v.attempts
       && ValidItem(updated)
       && ItemUnchanged(readItem, s.items[k])
       && (ChangesMetrics(readJob, readItem, updated) ==> JobUnchanged(readJob, s.jobs[k.job]))
       && (readItem.holder.Some? ==>
             var claimKey := ClaimKey(readItem.holder.value.account, k.subscription);
             var slotKey := SlotKey(readItem.holder.value.account, readItem.holder.value.slot);
             && claimKey in s.claims && LeaseHeldBy(s.claims[claimKey], k, v.attempts)
             && slotKey in s.slots && LeaseHeldBy(s.slots[slotKey], k, v.attempts))
  }

  // ---------------------------------------------------------------- job transitions

  /** All canary claims have ended and the rest of the job waits for approval. */
  predicate PausesForCanary(j: Job) {
    j.counts.pending > 0 && j.mutationStarted && !j.canaryApproved && j.canaryCompleted >= j.canaryClaims
  }

  /** The job state execution moves to; None while there is work left. */
  function ContinueTarget(j: Job): Option<JobState> {
    if PausesForCanary(j) then Some(Paused)
    else if j.counts.pending > 0 then None
    else if j.counts.needsReview != 0 || j.counts.failed != 0 then Some(CompletedWithErrors)
    else Some(Completed)
  }

  function CompletedPreviewJob(j: Job, expiresAt: int): Job {
    j.(state := AwaitingApproval, revision := j.revision + 1,
       dryRun := Some(DryRun(1 + (if j.dryRun.Some? then j.dryRun.value.revision else 0), j.preview, expiresAt)),
       counts := j.preview.counts, cursor := None)
  }

  /** The job row a job-only operation writes, computed from the copy it read; None when the
      operation stops before writing. */
  function JobUpdate(op: Op): Option<(JobId, Job, Job)> {
    match op
    case AdvancePreview(j, r, expected, cursor) =>
      if r.state == Previewing && r.revision == expected && 1 <= |cursor| <= 512
      then Some((j, r, r.(revision := r.revision + 1, cursor := Some(cursor)))) else None
    case CompletePreview(j, r, expected, hash, counts, expiresAt) =>
      if r.state == Previewing && r.revision == expected && ValidAggregate(r.preview)
         && hash == r.preview && counts == r.preview.counts && ValidCounts(counts)
         && counts.applied == 0 && counts.failed == 0 && IsEpoch(expiresAt)
      then Some((j, r, CompletedPreviewJob(r, expiresAt))) else None
    case ScheduleExecution(j, r, dryRunRevision, hash, at, tax) =>
      if r.state == AwaitingApproval && r.dryRun.Some? && r.dryRun.value.revision == dryRunRevision
         && r.dryRun.value.hash == hash && r.dryRun.value.expiresAt > at
      then Some((j, r, r.(state := Scheduled, revision := r.revision + 1, tax := Some(tax)))) else None
    case Control(j, r, expected, action, appliedFound) =>
      var target := ControlTarget(r, action, appliedFound);
      if r.revision == expected && target.Some?
      then Some((j, r, ControlledJob(r, target.value, action))) else None
    case StartExecution(j, r, expected) =>
      if r.state == Scheduled && r.revision == expected
      then Some((j, r, r.(state := Running, revision := r.revision + 1))) else None
    case ContinueExecution(j, r) =>
      if r.state == Running && ContinueTarget(r).Some?
      then Some((j, r, r.(state := ContinueTarget(r).value, revision := r.revision + 1,
                          canaryApprovalRequired := PausesForCanary(r)))) else None
    case BeginCancel(j, r, expected) =>
      if r.state == CancelRequested && r.revision == expected
      then Some((j, r, r.(state := Canceling, revision := r.revision + 1,
                          cancellationRemaining := r.counts.pending + r.appliedItems))) else None
    case FinalizeCancellation(j, r, workFound) =>
      if r.state == Canceling && r.cancellationRemaining == 0 && !workFound
      then Some((j, r, r.(state := Canceled, revision := r.revision + 1))) else None
    case _ => None
  }

  // ---------------------------------------------------------------- the step

  function PutJob(s: System, j: JobId, job: Job): System {
    s.(jobs := s.jobs[j := job], jobCopies := s.jobCopies + {(j, job)})
  }

  function PutItem(s: System, k: ItemKey, item: Item): System {
    s.(items := s.items[k := item], itemCopies := s.itemCopies + {(k, item)})
  }

  predicate CallerReadsAreValid(c: Caller) {
    match c
    case CompleteCancellation(_, first, _, _) => ValidItem(first)
    case RetryCancellation(job, first, _, _) => ValidJob(job) && ValidItem(first)
    case WebhookUpdate(job, first, _, _, _, _) => ValidJob(job) && ValidItem(first)
    case _ => true
  }

  /** Every row is validated when it is loaded: a worker computes from no row that is refused. */
  predicate ReadsAreValid(op: Op) {
    match op
    case CreateJob(_, _, _, _, _) => true
    case Tick(_) => true
    case PutPreviewItem(_, readJob, _) => ValidJob(readJob)
    case RejectPreviewItem(_, readJob, readItem, _, _) => ValidJob(readJob) && ValidItem(readItem)
    case ClaimItem(_, readJob, readItem, _) => ValidJob(readJob) && ValidItem(readItem)
    case FinishItem(_, readJob, readItem, caller) => ValidJob(readJob) && ValidItem(readItem) && CallerReadsAreValid(caller)
    case _ => ValidJob(op.readJob)
  }

  /** An operation commits if its worker could load what it read and the write conditions hold. */
  predicate Commits(s: System, op: Op) { ReadsAreValid(op) && ConditionsHold(s, op) }

  predicate ConditionsHold(s: System, op: Op) {
    match op
    case CreateJob(j, canarySize, accountConcurrency, _, createdAt) =>
      j !in s.jobs && 1 <= canarySize <= 25 && 1 <= accountConcurrency <= MAX_SLOTS && IsEpoch(createdAt)
    case PutPreviewItem(k, readJob, item) =>
      && (k.job, readJob) in s.jobCopies && k.job in s.jobs && k !in s.items
      && readJob.state == Previewing && FreshItem(item) && ValidDigest(item.digest)
      && AddPreviewItem(readJob.preview, item).Some?
      && PreviewUnchanged(readJob, s.jobs[k.job])
    case RejectPreviewItem(k, readJob, readItem, reason, digest) =>
      && (k.job, readJob) in s.jobCopies && k.job in s.jobs && (k, readItem) in s.itemCopies && k in s.items
      && readJob.state == Previewing && readItem.state == Pending && readItem.attempts == 0 && ValidDigest(digest)
      && ReplacePreviewItem(readJob.preview, readItem, RejectedItem(readItem, reason, digest)).Some?
      && PreviewUnchanged(readJob, s.jobs[k.job]) && ItemUnchanged(readItem, s.items[k])
    case ClaimItem(k, readJob, readItem, request) => ClaimCommits(s, k, readJob, readItem, request)
    case FinishItem(k, readJob, readItem, caller) => FinishCommits(s, k, readJob, readItem, caller)
    case Tick(_) => true
    case _ =>
      var update := JobUpdate(op);
      && update.Some?
      && var (j, read, _) := update.value;
         (j, read) in s.jobCopies && j in s.jobs && JobUnchanged(read, s.jobs[j])
  }

  function RejectedItem(i: Item, reason: Reason, digest: Digest): Item {
    i.(state := NeedsReview, reason := Some(reason), digest := digest)
  }

  function ClaimEffect(s: System, k: ItemKey, readJob: Job, readItem: Item, r: ClaimRequest): System {
    var lease := Lease(k, ClaimedAttempt(readItem), r.now + r.leaseSeconds);
    var s1 := PutItem(s, k, ClaimedItem(readItem, r));
    var s2 := s1.(slots := s1.slots[SlotKey(r.account, r.slot) := lease],
                  claims := s1.claims[ClaimKey(r.account, k.subscription) := lease]);
    if ClaimsCanary(readItem, r) then PutJob(s2, k.job, CanaryClaimedJob(readJob)) else s2
  }

  function FinishEffect(s: System, k: ItemKey, readJob: Job, readItem: Item, v: FinishValue): System {
    var updated := FinishedItem(readItem, v);
    var s1 := PutItem(s, k, updated);
    var s2 := if readItem.holder.None? then s1
              else s1.(claims := s1.claims - {ClaimKey(readItem.holder.value.account, k.subscription)},
                       slots := s1.slots - {SlotKey(readItem.holder.value.account, readItem.holder.value.slot)});
    if ChangesMetrics(readJob, readItem, updated)
    then PutJob(s2, k.job, MetricsJob(readJob, readItem, updated)) else s2
  }

  /** The table after a committed operation. */
  function Effect(s: System, op: Op): System
    requires Commits(s, op)
  {
    match op
    case CreateJob(j, canarySize, accountConcurrency, policy, createdAt) =>
      PutJob(s, j, NewJob(canarySize, accountConcurrency, policy, createdAt))
    case PutPreviewItem(k, readJob, item) =>
      PutJob(PutItem(s, k, item), k.job, readJob.(preview := AddPreviewItem(readJob.preview, item).value))
    case RejectPreviewItem(k, readJob, readItem, reason, digest) =>
      var updated := RejectedItem(readItem, reason, digest);
      PutJob(PutItem(s, k, updated), k.job,
             readJob.(preview := ReplacePreviewItem(readJob.preview, readItem, updated).value))
    case ClaimItem(k, readJob, readItem, request) => ClaimEffect(s, k, readJob, readItem, request)
    case FinishItem(k, readJob, readItem, caller) =>
      FinishEffect(s, k, readJob, readItem, FinishValueOf(caller).value)
    case Tick(seconds) => s.(now := s.now + seconds)
    case _ => PutJob(s, JobUpdate(op).value.0, JobUpdate(op).value.2)
  }

  /** A transaction whose conditions fail changes nothing. */
  function Apply(s: System, op: Op): System {
    if Commits(s, op) then Effect(s, op) else s
  }

  function Run(s: System, ops: seq<Op>): System
    decreases |ops|
  {
    if ops == [] then s else Run(Apply(s, ops[0]), ops[1..])
  }
}
