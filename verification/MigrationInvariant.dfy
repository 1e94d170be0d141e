/**
 The invariant of the migration protocol and its preservation by every operation, whatever
 stale copies the operation was computed from.
 */
module MigrationInvariant {
  import opened Types
  import opened MigrationRecords
  import opened MigrationProtocol
  import opened MigrationTotals

  // ---------------------------------------------------------------- rows on their own

  /** Holds of every item row ever stored: the item validator, but for the reason of an applying item. */
  predicate ItemOk(i: Item) {
    && WellShaped(i) && ValidDigest(i.digest) && (i.state != Applying ==> ReasonMatchesState(i))
    && (i.attempts == 0 ==> i.state == Pending || i.state == NeedsReview || i.state == Reverted || i.state == Skipped)
    && (i.canary ==> 0 < i.attempts)
  }

  /** Holds of every job row ever stored. */
  predicate JobOk(j: Job) {
    && 1 <= j.canarySize <= 25 && 1 <= j.accountConcurrency <= MAX_SLOTS && 1 <= j.revision
    && (j.state == Previewing ==> j.dryRun.None?)
    && (j.dryRun.None? ==>
          && (j.state == Previewing || j.state == Canceled)
          && j.counts == NO_COUNTS && j.canaryClaims == 0 && j.canaryCompleted == 0
          && j.awaitingProvider == 0 && j.appliedItems == 0 && j.cancellationRemaining == 0
          && !j.canaryApproved && !j.canaryApprovalRequired)
    && (j.state == AwaitingApproval || j.state == Scheduled ==> j.canaryClaims == 0)
    && 0 <= j.canaryClaims <= j.canarySize
    && (j.mutationStarted <==> j.canaryClaims == j.canarySize)
    && (j.canaryApproved || j.canaryApprovalRequired ==> j.mutationStarted && j.canarySize <= j.canaryCompleted)
    && !(j.canaryApproved && j.canaryApprovalRequired)
  }

  // ---------------------------------------------------------------- old copies and current rows

  predicate JobFollows(p: Job, c: Job) {
    && p.canarySize == c.canarySize && p.accountConcurrency == c.accountConcurrency
    && p.policy == c.policy && p.createdAt == c.createdAt
    && p.revision <= c.revision
    && (p.revision == c.revision ==>
          && p.state == c.state && p.dryRun == c.dryRun && p.cursor == c.cursor && p.tax == c.tax
          && p.canaryApproved == c.canaryApproved && p.canaryApprovalRequired == c.canaryApprovalRequired)
    && (p.dryRun.Some? ==> c.dryRun == p.dryRun)
    && (p.canaryApproved ==> c.canaryApproved)
    && p.canaryClaims <= c.canaryClaims
    && (p.state == Canceling ==> c.state == Canceling || c.state == Canceled)
    && (p.state == Canceled ==> c.state == Canceled)
  }

  predicate IsAbsorbing(state: ItemState) {
    state == Reverted || state == Skipped || state == NeedsReview || state == PermanentFailure
  }

  predicate ItemFollows(p: Item, c: Item) {
    && p.attempts <= c.attempts
    && (p.attempts == c.attempts ==> p.canary == c.canary)
    && (c.state == Pending ==> p.state == Pending)
    && (!IsAbsorbing(c.state) ==> p.digest == c.digest)
    && (IsAbsorbing(p.state) ==> c == p)
    && (p.attempts == c.attempts && c.state == Applying ==> p.state == Applying && p.reason == c.reason)
  }

  /** A whole-row job write that commits was computed from the current row: a field its
      condition does not compare cannot have changed since the copy was read. */
  lemma CommittedCopyIsCurrent(p: Job, c: Job)
    requires JobOk(p) && JobOk(c) && JobFollows(p, c)
    ensures JobUnchanged(p, c) ==> p == c
    ensures p.state == Previewing && PreviewUnchanged(p, c) ==> p == c
    ensures p.state == Running && !p.mutationStarted && CanaryUnchanged(p, c) ==> p == c
  {
  }

  lemma JobFollowsTransitive(p: Job, c: Job, n: Job)
    requires JobFollows(p, c) && JobFollows(c, n)
    ensures JobFollows(p, n)
  {
  }

  lemma ItemFollowsTransitive(p: Item, c: Item, n: Item)
    requires ItemFollows(p, c) && ItemFollows(c, n)
    ensures ItemFollows(p, n)
  {
  }

  // ---------------------------------------------------------------- counters and items

  ghost predicate CountsAgree(job: Job, j: JobId, items: map<ItemKey, Item>) {
    && job.counts.total == Total(Items, j, items)
    && job.counts.pending == Total(InBucket(InPending), j, items)
    && job.counts.applied == Total(InBucket(InApplied), j, items)
    && job.counts.needsReview == Total(InBucket(InNeedsReview), j, items)
    && job.counts.failed == Total(InBucket(InFailed), j, items)
    && job.awaitingProvider == Total(Waiting, j, items)
    && job.appliedItems == Total(AppliedNow, j, items)
  }

  /** The aggregate is the sum of the stored items' commitments. */
  ghost predicate PreviewAgrees(g: Aggregate, j: JobId, items: map<ItemKey, Item>) {
    && g.itemCount == Total(Items, j, items)
    && g.digestA == Total(DigestA, j, items)
    && g.digestB == Total(DigestB, j, items)
    && g.counts.total == Total(Items, j, items)
    && g.counts.pending == Total(InBucket(InPending), j, items)
    && g.counts.applied == Total(InBucket(InApplied), j, items)
    && g.counts.needsReview == Total(InBucket(InNeedsReview), j, items)
    && g.counts.failed == Total(InBucket(InFailed), j, items)
  }

  /** Until its preview completes, a job's items are as the preview left them. */
  predicate Previewed(i: Item) {
    i.attempts == 0 && (i.state == Pending || i.state == NeedsReview) && i.cancellationNextAttemptAt.None?
  }

  predicate OnlyPreviewed(j: JobId, items: map<ItemKey, Item>) {
    forall k | k in items && k.job == j :: Previewed(items[k])
  }

  predicate AttemptedAreCanaries(j: JobId, items: map<ItemKey, Item>) {
    forall k | k in items && k.job == j && 0 < items[k].attempts :: items[k].canary
  }

  ghost predicate CanaryAgrees(job: Job, j: JobId, items: map<ItemKey, Item>) {
    && Total(CanaryTerminal, j, items) <= job.canaryCompleted
    && (!job.canaryApproved ==>
          job.canaryClaims == Total(Attempts, j, items) && AttemptedAreCanaries(j, items))
  }

  ghost predicate CountersAgree(job: Job, j: JobId, items: map<ItemKey, Item>) {
    && (job.dryRun.Some? ==> CountsAgree(job, j, items))
    && (job.dryRun.None? ==>
          PreviewAgrees(job.preview, j, items) && ValidAggregate(job.preview) && OnlyPreviewed(j, items))
    && CanaryAgrees(job, j, items)
  }

  // ---------------------------------------------------------------- leases

  /** An applying item owns its subscription claim; while its lease runs it also owns its slot. */
  predicate LeaseBacked(s: System, k: ItemKey)
    requires k in s.items && k.job in s.jobs
  {
    s.items[k].holder.Some? ==>
      var h := s.items[k].holder.value;
      var lease := Lease(k, s.items[k].attempts, h.expiresAt);
      && h.slot < s.jobs[k.job].accountConcurrency
      && ClaimKey(h.account, k.subscription) in s.claims
      && s.claims[ClaimKey(h.account, k.subscription)] == lease
      && (s.now < h.expiresAt ==>
            SlotKey(h.account, h.slot) in s.slots && s.slots[SlotKey(h.account, h.slot)] == lease)
  }

  // ---------------------------------------------------------------- the invariant

  predicate JobHistoryOk(s: System) {
    && (forall j | j in s.jobs :: (j, s.jobs[j]) in s.jobCopies)
    && (forall c | c in s.jobCopies :: c.0 in s.jobs && JobOk(c.1) && JobFollows(c.1, s.jobs[c.0]))
  }

  predicate ItemHistoryOk(s: System) {
    && (forall k | k in s.items :: k.job in s.jobs && (k, s.items[k]) in s.itemCopies)
    && (forall c | c in s.itemCopies :: c.0 in s.items && ItemOk(c.1) && ItemFollows(c.1, s.items[c.0]))
  }

  ghost predicate AllCountersAgree(s: System) {
    forall j | j in s.jobs :: CountersAgree(s.jobs[j], j, s.items)
  }

  predicate AllLeasesBacked(s: System)
    requires ItemHistoryOk(s)
  {
    forall k | k in s.items :: LeaseBacked(s, k)
  }

  ghost predicate Inv(s: System) {
    JobHistoryOk(s) && ItemHistoryOk(s) && AllCountersAgree(s) && AllLeasesBacked(s)
  }

  lemma EmptyInv()
    ensures Inv(EMPTY)
  {
  }

  // ---------------------------------------------------------------- writing one row

  /** Counters of other jobs do not see the write of an item. */
  lemma OtherJobsKeepCounters(job: Job, j: JobId, items: map<ItemKey, Item>, k: ItemKey, i: Item)
    requires k.job != j && CountersAgree(job, j, items)
    ensures CountersAgree(job, j, items[k := i])
  {
    hide Total;
    TotalPut(Items, j, items, k, i);
    TotalPut(InBucket(InPending), j, items, k, i);
    TotalPut(InBucket(InApplied), j, items, k, i);
    TotalPut(InBucket(InNeedsReview), j, items, k, i);
    TotalPut(InBucket(InFailed), j, items, k, i);
    TotalPut(Waiting, j, items, k, i);
    TotalPut(AppliedNow, j, items, k, i);
    TotalPut(CanaryTerminal, j, items, k, i);
    TotalPut(Attempts, j, items, k, i);
    TotalPut(DigestA, j, items, k, i);
    TotalPut(DigestB, j, items, k, i);
  }

  /** Writing a job row alone. */
  lemma JobWriteKeepsInv(s: System, j: JobId, n: Job)
    requires Inv(s) && j in s.jobs
    requires JobOk(n) && JobFollows(s.jobs[j], n) && CountersAgree(n, j, s.items)
    ensures Inv(PutJob(s, j, n))
  {
    hide Total;
    hide CountersAgree;
    hide JobOk;
    hide ItemOk;
    hide ItemFollows;
    var t := PutJob(s, j, n);
    JobFollowsItself(s, j, n);
    assert n.accountConcurrency == s.jobs[j].accountConcurrency;
    hide JobFollows;
    forall c | c in t.jobCopies ensures c.0 in t.jobs && JobOk(c.1) && JobFollows(c.1, t.jobs[c.0]) {
      if c.0 == j && c != (j, n) { JobFollowsTransitive(c.1, s.jobs[j], n); }
    }
    forall k | k in t.items ensures LeaseBacked(t, k) { assert LeaseBacked(s, k); }
  }

  lemma JobFollowsItself(s: System, j: JobId, n: Job)
    requires j in s.jobs && JobFollows(s.jobs[j], n)
    ensures JobFollows(n, n)
  {
  }

  /** The rows of an operation on one item: the item, its job, and some lease rows. */
  function WriteItemAndJob(s: System, k: ItemKey, i: Item, n: Job,
                           slots: map<SlotKey, Lease>, claims: map<ClaimKey, Lease>): System
  {
    PutJob(PutItem(s, k, i), k.job, n).(slots := slots, claims := claims)
  }

  lemma ItemWriteKeepsJobHistory(s: System, k: ItemKey, i: Item, n: Job,
                                 slots: map<SlotKey, Lease>, claims: map<ClaimKey, Lease>)
    requires JobHistoryOk(s) && k.job in s.jobs && JobOk(n) && JobFollows(s.jobs[k.job], n)
    ensures JobHistoryOk(WriteItemAndJob(s, k, i, n, slots, claims))
  {
    var t := WriteItemAndJob(s, k, i, n, slots, claims);
    forall c | c in t.jobCopies ensures c.0 in t.jobs && JobOk(c.1) && JobFollows(c.1, t.jobs[c.0]) {
      if c.0 == k.job && c != (k.job, n) { JobFollowsTransitive(c.1, s.jobs[k.job], n); }
    }
  }

  lemma ItemWriteKeepsItemHistory(s: System, k: ItemKey, i: Item, n: Job,
                                  slots: map<SlotKey, Lease>, claims: map<ClaimKey, Lease>)
    requires ItemHistoryOk(s) && k.job in s.jobs && ItemOk(i) && (k in s.items ==> ItemFollows(s.items[k], i))
    requires k !in s.items ==> ItemFollows(i, i)
    ensures ItemHistoryOk(WriteItemAndJob(s, k, i, n, slots, claims))
  {
    var t := WriteItemAndJob(s, k, i, n, slots, claims);
    forall c | c in t.itemCopies ensures c.0 in t.items && ItemOk(c.1) && ItemFollows(c.1, t.items[c.0]) {
      if c.0 == k && c != (k, i) { ItemFollowsTransitive(c.1, s.items[k], i); }
    }
  }

  lemma ItemWriteKeepsCounters(s: System, k: ItemKey, i: Item, n: Job,
                               slots: map<SlotKey, Lease>, claims: map<ClaimKey, Lease>)
    requires AllCountersAgree(s) && k.job in s.jobs && CountersAgree(n, k.job, s.items[k := i])
    ensures AllCountersAgree(WriteItemAndJob(s, k, i, n, slots, claims))
  {
    hide Total;
    hide CountersAgree;
    var t := WriteItemAndJob(s, k, i, n, slots, claims);
    forall j | j in t.jobs ensures CountersAgree(t.jobs[j], j, t.items) {
      if j != k.job { OtherJobsKeepCounters(s.jobs[j], j, s.items, k, i); }
    }
  }

  /** A lease only looks at its own item, its job's concurrency and the lease rows. */
  lemma LeaseFrame(s: System, t: System, x: ItemKey)
    requires x in s.items && x.job in s.jobs && x in t.items && x.job in t.jobs
    requires s.items[x] == t.items[x] && s.now == t.now && s.slots == t.slots && s.claims == t.claims
    requires s.jobs[x.job].accountConcurrency == t.jobs[x.job].accountConcurrency
    requires LeaseBacked(s, x)
    ensures LeaseBacked(t, x)
  {
  }

  lemma ItemWriteKeepsLeases(s: System, k: ItemKey, i: Item, n: Job,
                             slots: map<SlotKey, Lease>, claims: map<ClaimKey, Lease>)
    requires ItemHistoryOk(s) && k.job in s.jobs && n.accountConcurrency == s.jobs[k.job].accountConcurrency
    requires ItemHistoryOk(WriteItemAndJob(s, k, i, n, slots, claims))
    requires LeaseBacked(WriteItemAndJob(s, k, i, n, slots, claims), k)
    requires forall x | x in s.items && x != k :: LeaseBacked(s.(slots := slots, claims := claims), x)
    ensures AllLeasesBacked(WriteItemAndJob(s, k, i, n, slots, claims))
  {
    hide LeaseBacked;
    var t := WriteItemAndJob(s, k, i, n, slots, claims);
    forall x | x in t.items ensures LeaseBacked(t, x) {
      if x != k { LeaseFrame(s.(slots := slots, claims := claims), t, x); }
    }
  }

  /** What an operation on one item has to show to keep the invariant. */
  lemma ItemWriteKeepsInv(s: System, k: ItemKey, i: Item, n: Job,
                          slots: map<SlotKey, Lease>, claims: map<ClaimKey, Lease>)
    requires k.job in s.jobs
    requires JobOk(n) && JobFollows(s.jobs[k.job], n)
    requires ItemOk(i) && (k in s.items ==> ItemFollows(s.items[k], i))
    requires CountersAgree(n, k.job, s.items[k := i])
    requires LeaseBacked(WriteItemAndJob(s, k, i, n, slots, claims), k)
    requires forall x | x in s.items && x != k :: x.job in s.jobs && LeaseBacked(s.(slots := slots, claims := claims), x)
    requires Inv(s)
    ensures Inv(WriteItemAndJob(s, k, i, n, slots, claims))
  {
    ItemWriteKeepsJobHistory(s, k, i, n, slots, claims);
    ItemWriteKeepsItemHistory(s, k, i, n, slots, claims);
    ItemWriteKeepsCounters(s, k, i, n, slots, claims);
    ItemWriteKeepsLeases(s, k, i, n, slots, claims);
  }
}
