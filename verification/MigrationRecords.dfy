/**
 The rows of the migration table: jobs, items and leases, with the pure helpers that
 classify item states, check an item before it is written and keep the preview aggregate.
 */
module MigrationRecords {
  import opened Types

  type JobId = string
  type SubscriptionId = string
  type AccountKey = string
  type Reason = string

  const MAX_PREVIEW_ITEMS: int := 100_000
  const DIGEST_LIMIT: int := 0x1_0000_0000_0000_0000_0000
  const MAX_DIGEST_SUM: int := 100_000 * 0xFFFF_FFFF_FFFF_FFFF_FFFF
  const MAX_ATTEMPTS: int := 5
  const MAX_SLOTS: int := 5
  const MAX_EPOCH: int := 9_999_999_999

  datatype JobState =
    | Previewing | AwaitingApproval | Scheduled | Running | Paused
    | CancelRequested | Canceling | Completed | CompletedWithErrors | Canceled

  datatype ItemState =
    | Pending | Applying | PendingPayment | PendingCustomerAction
    | PendingUpdateApplied | PendingUpdateExpired | Applied | Reverted | Skipped
    | RetryableFailure | NeedsReview | PermanentFailure

  datatype Bucket = InPending | InApplied | InNeedsReview | InFailed

  datatype Policy = NextRenewal | ImmediateProrated

  datatype Counts = Counts(total: int, pending: int, applied: int, needsReview: int, failed: int)

  /** The summed commitment of all previewed items. */
  datatype Aggregate = Aggregate(itemCount: int, digestA: int, digestB: int, counts: Counts)

  /** The result of a completed preview. The hash covers the job and the aggregate; SHA-256 is
      injective here, so the aggregate itself stands for it. */
  datatype DryRun = DryRun(revision: int, hash: Aggregate, expiresAt: int)

  datatype Job = Job(
    canarySize: int, accountConcurrency: int, policy: Policy, createdAt: int,
    state: JobState, revision: int, dryRun: Option<DryRun>,
    counts: Counts, preview: Aggregate, cursor: Option<string>, tax: Option<string>,
    mutationStarted: bool, canaryClaims: int, canaryCompleted: int,
    awaitingProvider: int, appliedItems: int, cancellationRemaining: int,
    canaryApproved: bool, canaryApprovalRequired: bool)

  /** An item of a job is named by the subscription it migrates. */
  datatype ItemKey = ItemKey(job: JobId, subscription: SubscriptionId)

  /** The three lease fields of an item, set and cleared together. */
  datatype Holder = Holder(account: AccountKey, slot: int, expiresAt: int)

  /** Two 80-bit halves of the SHA-256 of the item's protected fields. */
  datatype Digest = Digest(a: int, b: int)

  datatype Event = Event(createdAt: int, id: string)

  datatype Item = Item(
    state: ItemState, reason: Option<Reason>, attempts: int,
    scheduleId: Option<string>, rollbackGuard: Option<string>,
    holder: Option<Holder>, nextAttemptAt: Option<int>,
    cancellationAttempts: int, cancellationNextAttemptAt: Option<int>,
    canary: bool, lastEvent: Option<Event>, digest: Digest)

  datatype SlotKey = SlotKey(account: AccountKey, slot: int)
  datatype ClaimKey = ClaimKey(account: AccountKey, subscription: SubscriptionId)
  datatype Lease = Lease(owner: ItemKey, attempt: int, expiresAt: int)

  // ---------------------------------------------------------------- item states

  function CountBucket(state: ItemState): Bucket {
    match state
    case Applied | PendingUpdateApplied | Reverted | Skipped => InApplied
    case PendingUpdateExpired | NeedsReview => InNeedsReview
    case PermanentFailure => InFailed
    case _ => InPending
  }

  predicate IsTerminal(state: ItemState) {
    match state
    case Applied | PendingUpdateApplied | PendingUpdateExpired | Reverted | Skipped
         | NeedsReview | PermanentFailure => true
    case _ => false
  }

  predicate IsAwaitingProvider(state: ItemState) {
    state == PendingPayment || state == PendingCustomerAction
  }

  predicate IsCancellationTerminal(state: ItemState) {
    match state
    case Reverted | Skipped | PendingUpdateExpired | NeedsReview | PermanentFailure => true
    case _ => false
  }

  predicate IsAppliedState(state: ItemState) {
    state == Applied || state == PendingUpdateApplied
  }

  /** The states whose items stay in the work index. */
  predicate IsWorkState(state: ItemState) {
    match state
    case Applying | RetryableFailure | PendingPayment | PendingCustomerAction | Applied | Pending => true
    case _ => false
  }

  predicate NeedsReason(state: ItemState) {
    match state
    case RetryableFailure | PendingUpdateExpired | NeedsReview | PermanentFailure => true
    case _ => false
  }

  predicate IsEpoch(t: int) { 1 <= t <= MAX_EPOCH }

  /** The reason rule of the item validator, on its own because claiming a retry breaks it. */
  predicate ReasonMatchesState(i: Item) {
    NeedsReason(i.state) <==> i.reason.Some?
  }

  /** Every other rule of the item validator that looks at the modelled fields. */
  predicate WellShaped(i: Item) {
    && 0 <= i.attempts <= MAX_ATTEMPTS
    && (i.rollbackGuard.Some? ==> i.scheduleId.Some?)
    && (i.state == Applied && i.scheduleId.Some? ==> i.rollbackGuard.Some?)
    && 0 <= i.cancellationAttempts <= MAX_ATTEMPTS
    && (i.cancellationNextAttemptAt.Some? ==>
          IsEpoch(i.cancellationNextAttemptAt.value) && 1 <= i.cancellationAttempts < MAX_ATTEMPTS && IsWorkState(i.state))
    && (i.state == Pending ==> i.attempts == 0)
    && (i.state == Applying ==> 1 <= i.attempts)
    && (i.state == RetryableFailure ==> 1 <= i.attempts < MAX_ATTEMPTS)
    && (i.state == Applying <==> i.holder.Some?)
    && (i.holder.Some? ==> IsEpoch(i.holder.value.expiresAt) && 0 <= i.holder.value.slot < MAX_SLOTS)
    && (i.state == RetryableFailure <==> i.nextAttemptAt.Some?)
    && (i.nextAttemptAt.Some? ==> IsEpoch(i.nextAttemptAt.value))
  }

  predicate ValidItem(i: Item) { ReasonMatchesState(i) && WellShaped(i) }

  // ---------------------------------------------------------------- counters

  const NO_COUNTS := Counts(0, 0, 0, 0, 0)
  const NO_PREVIEW := Aggregate(0, 0, 0, NO_COUNTS)

  function CountIn(c: Counts, b: Bucket): int {
    match b
    case InPending => c.pending
    case InApplied => c.applied
    case InNeedsReview => c.needsReview
    case InFailed => c.failed
  }

  function PartOf(b: bool, n: int): int { if b then n else 0 }

  function AddTo(c: Counts, b: Bucket, n: int): Counts {
    Counts(c.total, c.pending + PartOf(b == InPending, n), c.applied + PartOf(b == InApplied, n),
           c.needsReview + PartOf(b == InNeedsReview, n), c.failed + PartOf(b == InFailed, n))
  }

  /** One item moves between buckets; equal buckets leave the counts alone. */
  function MoveCount(c: Counts, from: Bucket, to: Bucket): Counts {
    AddTo(AddTo(c, from, -1), to, 1)
  }

  predicate AddUp(total: int, pending: int, applied: int, needsReview: int, failed: int) {
    && 0 <= pending && 0 <= applied && 0 <= needsReview && 0 <= failed
    && total == pending + applied + needsReview + failed
  }

  predicate ValidCounts(c: Counts) { AddUp(c.total, c.pending, c.applied, c.needsReview, c.failed) }

  // ---------------------------------------------------------------- preview aggregate

  predicate ValidAggregate(g: Aggregate) {
    && 0 <= g.itemCount <= MAX_PREVIEW_ITEMS
    && 0 <= g.digestA <= MAX_DIGEST_SUM
    && 0 <= g.digestB <= MAX_DIGEST_SUM
    && ValidCounts(g.counts)
    && g.counts.total == g.itemCount
    && g.counts.applied == 0 && g.counts.failed == 0
  }

  // ---------------------------------------------------------------- job rows

  predicate HasEnded(state: JobState) { state == Completed || state == CompletedWithErrors || state == Canceled }

  /** The states that need an approved dry run and a tax authorization. */
  predicate IsAuthorized(state: JobState) { !(state == Previewing || state == AwaitingApproval || state == Canceled) }

  predicate ValidDryRun(j: Job) {
    && (j.state == Previewing ==> j.dryRun.None?)
    && (j.state != Previewing && j.state != Canceled ==> j.dryRun.Some?)
    && (j.dryRun.Some? ==> 1 <= j.dryRun.value.revision && IsEpoch(j.dryRun.value.expiresAt))
    && (IsAuthorized(j.state) ==> j.tax.Some?) && (j.tax.Some? ==> j.dryRun.Some?)
    && (j.cursor.Some? ==> j.state == Previewing && 1 <= |j.cursor.value| <= 512)
    && (j.state == AwaitingApproval || j.state == Scheduled ==> j.counts == j.preview.counts)
  }

  predicate ValidCounters(j: Job) {
    && 0 <= j.canaryCompleted <= j.canaryClaims <= j.canarySize && (j.mutationStarted ==> j.canaryClaims != 0)
    && !(j.canaryApproved && j.canaryApprovalRequired)
    && 0 <= j.awaitingProvider <= j.counts.pending && 0 <= j.appliedItems <= j.counts.applied
    && 0 <= j.cancellationRemaining <= j.counts.total
    && (if j.state == Canceling then j.cancellationRemaining == j.counts.pending + j.appliedItems else j.cancellationRemaining == 0)
    && (j.state == Canceled ==> j.appliedItems == 0)
    && (HasEnded(j.state) ==> j.counts.pending == 0)
    && (j.state == Completed ==> j.counts.needsReview == 0 && j.counts.failed == 0)
    && (j.state == CompletedWithErrors ==> j.counts.needsReview != 0 || j.counts.failed != 0)
  }

  /** The job validator; a row it refuses cannot be loaded. */
  predicate ValidJob(j: Job) {
    && 1 <= j.canarySize <= 25 && 1 <= j.accountConcurrency <= MAX_SLOTS && 1 <= j.revision && IsEpoch(j.createdAt)
    && ValidCounts(j.counts) && ValidAggregate(j.preview) && ValidDryRun(j) && ValidCounters(j)
  }

  predicate ValidDigest(d: Digest) { 0 <= d.a < DIGEST_LIMIT && 0 <= d.b < DIGEST_LIMIT }

  /** Adds an item's commitment; None where the source refuses. */
  function AddPreviewItem(g: Aggregate, i: Item): Option<Aggregate> {
    if !ValidAggregate(g) || g.itemCount >= MAX_PREVIEW_ITEMS then None else
    var counts := AddTo(g.counts.(total := g.counts.total + 1), CountBucket(i.state), 1);
    var selected := Aggregate(g.itemCount + 1, g.digestA + i.digest.a, g.digestB + i.digest.b, counts);
    if ValidAggregate(selected) then Some(selected) else None
  }

  /** Replaces one item's commitment by another; None where the source refuses. */
  function ReplacePreviewItem(g: Aggregate, previous: Item, updated: Item): Option<Aggregate> {
    if !ValidAggregate(g) then None else
    var counts := MoveCount(g.counts, CountBucket(previous.state), CountBucket(updated.state));
    var selected := Aggregate(g.itemCount,
                              g.digestA - previous.digest.a + updated.digest.a,
                              g.digestB - previous.digest.b + updated.digest.b, counts);
    if ValidAggregate(selected) then Some(selected) else None
  }
}
