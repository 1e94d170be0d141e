/**
 Every operation of the migration protocol keeps the invariant.
 */
module MigrationSteps {
  import opened Types
  import opened MigrationRecords
  import opened MigrationProtocol
  import opened MigrationTotals
  import opened MigrationInvariant

  // ---------------------------------------------------------------- sums after one item write

  /** The sums of an item's job after the item is written over an existing row. */
  lemma TotalsAfterReplace(j: JobId, items: map<ItemKey, Item>, k: ItemKey, i: Item)
    requires k in items && k.job == j
    ensures forall q: Measure :: Total(q, j, items[k := i]) == Total(q, j, items) + Weight(q, i) - Weight(q, items[k])
  {
    hide Total;
    hide Weight;
    forall q: Measure
      ensures Total(q, j, items[k := i]) == Total(q, j, items) + Weight(q, i) - Weight(q, items[k])
    {
      TotalPut(q, j, items, k, i);
    }
  }

  lemma TotalsAfterInsert(j: JobId, items: map<ItemKey, Item>, k: ItemKey, i: Item)
    requires k !in items && k.job == j
    ensures forall q: Measure :: Total(q, j, items[k := i]) == Total(q, j, items) + Weight(q, i)
  {
    hide Total;
    hide Weight;
    forall q: Measure ensures Total(q, j, items[k := i]) == Total(q, j, items) + Weight(q, i) {
      TotalPut(q, j, items, k, i);
    }
  }

  // ---------------------------------------------------------------- preview

  /** Below the item cap the bounds on the aggregate never reject an item. */
  lemma AddNeverRejects(g: Aggregate, j: JobId, items: map<ItemKey, Item>, i: Item)
    requires PreviewAgrees(g, j, items) && ValidAggregate(g)
    requires forall k | k in items && k.job == j :: ValidDigest(items[k].digest)
    requires ValidDigest(i.digest) && (i.state == Pending || i.state == NeedsReview)
    ensures AddPreviewItem(g, i).Some? <==> g.itemCount < MAX_PREVIEW_ITEMS
  {
    hide Total;
    TotalBound(DigestA, DIGEST_LIMIT - 1, j, items);
    TotalBound(DigestB, DIGEST_LIMIT - 1, j, items);
    if g.itemCount < MAX_PREVIEW_ITEMS {
      SumStaysBelow(g.digestA, g.itemCount, i.digest.a);
      SumStaysBelow(g.digestB, g.itemCount, i.digest.b);
    }
  }

  lemma SumStaysBelow(sum: int, n: int, d: int)
    requires 0 <= n < MAX_PREVIEW_ITEMS && 0 <= sum <= n * (DIGEST_LIMIT - 1) && 0 <= d < DIGEST_LIMIT
    ensures 0 <= sum + d <= MAX_DIGEST_SUM
  {
    var w := DIGEST_LIMIT - 1;
    assert n * w <= (MAX_PREVIEW_ITEMS - 1) * w;
  }

  /** Replacing the commitment of a stored pending item is never rejected. */
  lemma ReplaceNeverRejects(g: Aggregate, j: JobId, items: map<ItemKey, Item>, k: ItemKey, i: Item)
    requires PreviewAgrees(g, j, items) && ValidAggregate(g)
    requires forall x | x in items && x.job == j :: ValidDigest(items[x].digest)
    requires k in items && k.job == j && items[k].state == Pending
    requires ValidDigest(i.digest) && i.state == NeedsReview
    ensures ReplacePreviewItem(g, items[k], i).Some?
  {
    hide Total;
    var rest := items - {k};
    TotalSplit(Items, j, items, k);
    TotalSplit(DigestA, j, items, k);
    TotalSplit(DigestB, j, items, k);
    TotalSplit(InBucket(InPending), j, items, k);
    TotalBound(DigestA, DIGEST_LIMIT - 1, j, rest);
    TotalBound(DigestB, DIGEST_LIMIT - 1, j, rest);
    TotalZero(InBucket(InPending), j, rest);
    TotalZero(Items, j, rest);
    SumStaysBelow(g.digestA - items[k].digest.a, g.itemCount - 1, i.digest.a);
    SumStaysBelow(g.digestB - items[k].digest.b, g.itemCount - 1, i.digest.b);
  }

  // ---------------------------------------------------------------- reading the invariant

  /** What the invariant says of a job copy and its current row. */
  lemma JobCopyFacts(s: System, j: JobId, p: Job)
    requires Inv(s) && (j, p) in s.jobCopies
    ensures j in s.jobs && JobOk(p) && JobOk(s.jobs[j]) && JobFollows(p, s.jobs[j])
    ensures CountersAgree(s.jobs[j], j, s.items)
  {
    hide Total;
    hide CountersAgree;
    hide JobOk;
    hide JobFollows;
    assert (j, s.jobs[j]) in s.jobCopies;
  }

  /** What the invariant says of an item copy and its current row. */
  lemma ItemCopyFacts(s: System, k: ItemKey, p: Item)
    requires Inv(s) && (k, p) in s.itemCopies
    ensures k in s.items && k.job in s.jobs && ItemOk(p) && ItemOk(s.items[k]) && ItemFollows(p, s.items[k])
    ensures (k, s.items[k]) in s.itemCopies && (k.job, s.jobs[k.job]) in s.jobCopies
  {
    hide Total;
    hide CountersAgree;
    hide ItemOk;
    hide ItemFollows;
    assert (k, s.items[k]) in s.itemCopies;
  }

  lemma LeaseFacts(s: System, x: ItemKey)
    requires Inv(s) && x in s.items
    ensures x.job in s.jobs && LeaseBacked(s, x)
  {
    hide Total;
    hide CountersAgree;
    hide LeaseBacked;
  }

  lemma ItemWithoutLease(s: System, k: ItemKey)
    requires k in s.items && k.job in s.jobs && s.items[k].holder.None?
    ensures LeaseBacked(s, k)
  {
  }

  lemma SameRows(s: System)
    requires Inv(s)
    ensures s.(slots := s.slots, claims := s.claims) == s
    ensures forall x | x in s.items :: x.job in s.jobs && LeaseBacked(s, x)
  {
    hide Total;
    hide CountersAgree;
    hide LeaseBacked;
  }

  lemma RewriteCurrentJob(s: System, j: JobId)
    requires j in s.jobs && (j, s.jobs[j]) in s.jobCopies
    ensures PutJob(s, j, s.jobs[j]) == s
  {
  }

  // ---------------------------------------------------------------- preview writes

  lemma PutPreviewKeepsCounters(j: JobId, items: map<ItemKey, Item>, k: ItemKey, c: Job, item: Item)
    requires k.job == j && k !in items && c.state == Previewing && JobOk(c) && CountersAgree(c, j, items)
    requires FreshItem(item) && AddPreviewItem(c.preview, item).Some?
    ensures var n := c.(preview := AddPreviewItem(c.preview, item).value);
            JobOk(n) && JobFollows(c, n) && CountersAgree(n, j, items[k := item])
  {
    hide Total;
    AddedItemIsSummed(c.preview, j, items, k, item);
    TotalPut(CanaryTerminal, j, items, k, item);
    TotalPut(Attempts, j, items, k, item);
  }

  /** Adding an item keeps the aggregate the sum of the stored items' commitments. */
  lemma AddedItemIsSummed(g: Aggregate, j: JobId, items: map<ItemKey, Item>, k: ItemKey, item: Item)
    requires k.job == j && k !in items && PreviewAgrees(g, j, items)
    requires (item.state == Pending || item.state == NeedsReview) && AddPreviewItem(g, item).Some?
    ensures PreviewAgrees(AddPreviewItem(g, item).value, j, items[k := item])
    ensures ValidAggregate(AddPreviewItem(g, item).value)
  {
    hide Total;
    hide ValidAggregate;
    TotalsAfterInsert(j, items, k, item);
  }

  lemma PutPreviewKeepsInv(s: System, k: ItemKey, readJob: Job, item: Item)
    requires Inv(s) && Commits(s, PutPreviewItem(k, readJob, item))
    ensures Inv(Effect(s, PutPreviewItem(k, readJob, item)))
  {
    hide ReadsAreValid;
    hide Inv;
    hide CountersAgree;
    hide LeaseBacked;
    hide AddPreviewItem;
    var c := s.jobs[k.job];
    JobCopyFacts(s, k.job, readJob);
    CommittedCopyIsCurrent(readJob, c);
    var n := c.(preview := AddPreviewItem(c.preview, item).value);
    PutPreviewKeepsCounters(k.job, s.items, k, c, item);
    FreshItemIsOk(item);
    ItemWithoutLease(WriteItemAndJob(s, k, item, n, s.slots, s.claims), k);
    SameRows(s);
    ItemWriteKeepsInv(s, k, item, n, s.slots, s.claims);
    assert Effect(s, PutPreviewItem(k, readJob, item)) == WriteItemAndJob(s, k, item, n, s.slots, s.claims);
  }

  lemma FreshItemIsOk(i: Item)
    requires FreshItem(i) && ValidDigest(i.digest)
    ensures ItemOk(i) && i.holder.None?
  {
  }

  lemma RejectPreviewKeepsCounters(j: JobId, items: map<ItemKey, Item>, k: ItemKey, c: Job, readItem: Item, updated: Item)
    requires k.job == j && k in items && c.state == Previewing && JobOk(c) && CountersAgree(c, j, items)
    requires readItem.state == Pending && readItem.attempts == 0 && ItemFollows(readItem, items[k])
    requires ItemUnchanged(readItem, items[k]) && ItemOk(items[k])
    requires updated.reason.Some? && updated == RejectedItem(readItem, updated.reason.value, updated.digest)
    requires ReplacePreviewItem(c.preview, readItem, updated).Some?
    ensures var n := c.(preview := ReplacePreviewItem(c.preview, readItem, updated).value);
            JobOk(n) && JobFollows(c, n) && CountersAgree(n, j, items[k := updated])
  {
    hide Total;
    ReplacedItemIsSummed(c.preview, j, items, k, readItem, updated);
    TotalPut(CanaryTerminal, j, items, k, updated);
    TotalPut(Attempts, j, items, k, updated);
  }

  /** Replacing a pending item by a rejected one keeps the aggregate the sum of the commitments. */
  lemma ReplacedItemIsSummed(g: Aggregate, j: JobId, items: map<ItemKey, Item>, k: ItemKey, read: Item, updated: Item)
    requires k.job == j && k in items && PreviewAgrees(g, j, items)
    requires items[k].state == read.state && items[k].digest == read.digest
    requires ReplacePreviewItem(g, read, updated).Some?
    ensures PreviewAgrees(ReplacePreviewItem(g, read, updated).value, j, items[k := updated])
    ensures ValidAggregate(ReplacePreviewItem(g, read, updated).value)
  {
    hide Total;
    hide ValidAggregate;
    TotalsAfterReplace(j, items, k, updated);
  }

  lemma RejectedItemFollows(readItem: Item, current: Item, reason: Reason, digest: Digest)
    requires ItemOk(readItem) && ItemFollows(readItem, current) && ItemUnchanged(readItem, current)
    requires readItem.state == Pending && ValidDigest(digest) && Previewed(current)
    ensures var i := RejectedItem(readItem, reason, digest); ItemOk(i) && i.holder.None? && ItemFollows(current, i)
  {
  }

  lemma ItemIsPreviewed(j: JobId, items: map<ItemKey, Item>, k: ItemKey, c: Job)
    requires k.job == j && k in items && c.state == Previewing && JobOk(c) && CountersAgree(c, j, items)
    ensures Previewed(items[k])
  {
    hide Total;
  }

  lemma RejectPreviewKeepsInv(s: System, k: ItemKey, readJob: Job, readItem: Item, reason: Reason, digest: Digest)
    requires Inv(s) && Commits(s, RejectPreviewItem(k, readJob, readItem, reason, digest))
    ensures Inv(Effect(s, RejectPreviewItem(k, readJob, readItem, reason, digest)))
  {
    hide ReadsAreValid;
    hide Inv;
    hide CountersAgree;
    hide LeaseBacked;
    hide ReplacePreviewItem;
    var c := s.jobs[k.job];
    JobCopyFacts(s, k.job, readJob);
    ItemCopyFacts(s, k, readItem);
    CommittedCopyIsCurrent(readJob, c);
    var updated := RejectedItem(readItem, reason, digest);
    var n := c.(preview := ReplacePreviewItem(c.preview, readItem, updated).value);
    RejectPreviewKeepsCounters(k.job, s.items, k, c, readItem, updated);
    ItemIsPreviewed(k.job, s.items, k, c);
    RejectedItemFollows(readItem, s.items[k], reason, digest);
    ItemWithoutLease(WriteItemAndJob(s, k, updated, n, s.slots, s.claims), k);
    SameRows(s);
    ItemWriteKeepsInv(s, k, updated, n, s.slots, s.claims);
    assert Effect(s, RejectPreviewItem(k, readJob, readItem, reason, digest))
        == WriteItemAndJob(s, k, updated, n, s.slots, s.claims);
  }

  // ---------------------------------------------------------------- claiming

  /** A new lease never overwrites a row that another item still relies on. */
  lemma ClaimSparesOtherLeases(s: System, k: ItemKey, r: ClaimRequest, lease: Lease, x: ItemKey)
    requires x in s.items && x.job in s.jobs && x != k && LeaseBacked(s, x)
    requires r.now <= s.now
    requires SlotFree(s, SlotKey(r.account, r.slot), r.now)
    requires ClaimFree(s, ClaimKey(r.account, k.subscription), k, r.now)
    ensures LeaseBacked(s.(slots := s.slots[SlotKey(r.account, r.slot) := lease],
                           claims := s.claims[ClaimKey(r.account, k.subscription) := lease]), x)
  {
  }

  /** The job row after a committed claim. */
  function JobAfterClaim(current: Job, i: Item, r: ClaimRequest): Job {
    if ClaimsCanary(i, r) then CanaryClaimedJob(current) else current
  }

  lemma ClaimedItemFollows(readItem: Item, current: Item, r: ClaimRequest)
    requires ItemOk(readItem) && ItemFollows(readItem, current) && ItemUnchanged(readItem, current) && ItemOk(current)
    requires MayClaim(readItem, r.now) && IsEpoch(r.now + r.leaseSeconds) && 0 <= r.slot < MAX_SLOTS
    ensures ItemOk(ClaimedItem(readItem, r)) && ItemFollows(current, ClaimedItem(readItem, r))
  {
  }

  /** A committed claim leaves every counter exact. */
  lemma ClaimKeepsCounters(j: JobId, items: map<ItemKey, Item>, k: ItemKey, c: Job, readItem: Item, r: ClaimRequest)
    requires k.job == j && k in items && JobOk(c) && CountersAgree(c, j, items) && c.state == Running
    requires ItemFollows(readItem, items[k]) && ItemUnchanged(readItem, items[k]) && MayClaim(readItem, r.now)
    requires if ClaimsCanary(readItem, r) then !c.mutationStarted else c.canaryApproved
    ensures var n := JobAfterClaim(c, readItem, r);
            JobOk(n) && JobFollows(c, n) && CountersAgree(n, j, items[k := ClaimedItem(readItem, r)])
  {
    hide Total;
    TotalsAfterReplace(j, items, k, ClaimedItem(readItem, r));
  }

  /** The claiming item holds exactly the rows written with it. */
  lemma ClaimBacksItself(s: System, k: ItemKey, n: Job, readItem: Item, r: ClaimRequest)
    requires k.job in s.jobs && r.slot < n.accountConcurrency
    ensures var lease := Lease(k, ClaimedAttempt(readItem), r.now + r.leaseSeconds);
            LeaseBacked(WriteItemAndJob(s, k, ClaimedItem(readItem, r), n,
                                        s.slots[SlotKey(r.account, r.slot) := lease],
                                        s.claims[ClaimKey(r.account, k.subscription) := lease]), k)
  {
  }

  lemma ClaimSparesAllOthers(s: System, k: ItemKey, r: ClaimRequest, lease: Lease)
    requires Inv(s) && r.now <= s.now
    requires SlotFree(s, SlotKey(r.account, r.slot), r.now)
    requires ClaimFree(s, ClaimKey(r.account, k.subscription), k, r.now)
    ensures forall x | x in s.items && x != k ::
              x.job in s.jobs && LeaseBacked(s.(slots := s.slots[SlotKey(r.account, r.slot) := lease],
                                               claims := s.claims[ClaimKey(r.account, k.subscription) := lease]), x)
  {
    hide Inv;
    hide LeaseBacked;
    SameRows(s);
    forall x | x in s.items && x != k
      ensures x.job in s.jobs && LeaseBacked(s.(slots := s.slots[SlotKey(r.account, r.slot) := lease],
                                               claims := s.claims[ClaimKey(r.account, k.subscription) := lease]), x)
    {
      ClaimSparesOtherLeases(s, k, r, lease, x);
    }
  }

  /** The rows a claim writes. */
  lemma ClaimRows(s: System, k: ItemKey, readJob: Job, readItem: Item, r: ClaimRequest)
    requires k.job in s.jobs && (k.job, s.jobs[k.job]) in s.jobCopies
    requires ClaimsCanary(readItem, r) ==> readJob == s.jobs[k.job]
    ensures var lease := Lease(k, ClaimedAttempt(readItem), r.now + r.leaseSeconds);
            ClaimEffect(s, k, readJob, readItem, r) ==
            WriteItemAndJob(s, k, ClaimedItem(readItem, r), JobAfterClaim(s.jobs[k.job], readItem, r),
                            s.slots[SlotKey(r.account, r.slot) := lease],
                            s.claims[ClaimKey(r.account, k.subscription) := lease])
  {
    RewriteCurrentJob(s, k.job);
  }

  lemma ClaimKeepsInv(s: System, k: ItemKey, readJob: Job, readItem: Item, r: ClaimRequest)
    requires Inv(s) && ClaimCommits(s, k, readJob, readItem, r)
    ensures Inv(ClaimEffect(s, k, readJob, readItem, r))
  {
    hide Inv;
    hide CountersAgree;
    hide LeaseBacked;
    hide ItemOk;
    hide ItemFollows;
    hide ClaimEffect;
    hide ClaimedItem;
    hide WriteItemAndJob;
    var c := s.jobs[k.job];
    JobCopyFacts(s, k.job, readJob);
    ItemCopyFacts(s, k, readItem);
    CommittedCopyIsCurrent(readJob, c);
    var lease := Lease(k, ClaimedAttempt(readItem), r.now + r.leaseSeconds);
    ClaimKeepsCounters(k.job, s.items, k, c, readItem, r);
    ClaimedItemFollows(readItem, s.items[k], r);
    ClaimSparesAllOthers(s, k, r, lease);
    ClaimBacksItself(s, k, JobAfterClaim(c, readItem, r), readItem, r);
    ItemWriteKeepsInv(s, k, ClaimedItem(readItem, r), JobAfterClaim(c, readItem, r),
                      s.slots[SlotKey(r.account, r.slot) := lease],
                      s.claims[ClaimKey(r.account, k.subscription) := lease]);
    ClaimRows(s, k, readJob, readItem, r);
  }

  // ---------------------------------------------------------------- finishing

  /** A caller that finishes an item no worker has claimed is a cancellation. */
  lemma UnclaimedItemsEndByCancellation(c: Caller, readItem: Item)
    requires FinishValueOf(c).Some? && FinishValueOf(c).value.attempts == 0
    requires c.WebhookUpdate? ==> ItemOk(c.first)
    ensures c.CompleteCancellation? || c.RetryCancellation?
    ensures c.job.state == Canceling
  {
  }

  /** Only items of jobs whose preview completed are ever finished. */
  lemma FinishedJobsArePreviewed(s: System, k: ItemKey, readJob: Job, readItem: Item, c: Caller)
    requires Inv(s) && FinishCommits(s, k, readJob, readItem, c)
    ensures s.jobs[k.job].dryRun.Some?
  {
    hide Inv;
    hide Total;
    hide FinishValueOf;
    JobCopyFacts(s, k.job, readJob);
    if s.jobs[k.job].dryRun.None? {
      assert Previewed(s.items[k]);
      if c.WebhookUpdate? { ItemCopyFacts(s, k, c.first); }
      UnclaimedItemsEndByCancellation(c, readItem);
      JobCopyFacts(s, k.job, c.job);
    }
  }

  /** The item a finish writes is a good successor of the current row. */
  lemma FinishedItemFollows(readItem: Item, current: Item, c: Caller)
    requires ItemOk(readItem) && ItemFollows(readItem, current) && ItemUnchanged(readItem, current)
    requires FinishValueOf(c).Some? && FinishValueOf(c).value.attempts == readItem.attempts
    requires MayFinishFrom(readItem.state) && ValidItem(FinishedItem(readItem, FinishValueOf(c).value))
    requires c.CompleteCancellation? || c.RetryCancellation? || c.WebhookUpdate? ==> ItemOk(c.first)
    ensures var i := FinishedItem(readItem, FinishValueOf(c).value);
            ItemOk(i) && ItemFollows(current, i) && i.holder.None?
  {
  }

  /** The job row after a committed finish. */
  function JobAfterFinish(current: Job, readJob: Job, was: Item, becomes: Item): Job {
    if ChangesMetrics(readJob, was, becomes) then MetricsJob(current, was, becomes) else current
  }

  /** A finish leaves every counter exact, whether or not it writes the job row. */
  lemma FinishKeepsCounters(j: JobId, items: map<ItemKey, Item>, k: ItemKey, c: Job, readJob: Job, readItem: Item, i: Item)
    requires k.job == j && k in items && JobOk(c) && CountersAgree(c, j, items) && c.dryRun.Some?
    requires ItemFollows(readItem, items[k]) && ItemUnchanged(readItem, items[k])
    requires i.attempts == readItem.attempts && i.canary == readItem.canary && (i.canary ==> 0 < i.attempts)
    requires ChangesMetrics(readJob, readItem, i) ==> readJob == c
    ensures var n := JobAfterFinish(c, readJob, readItem, i);
            JobOk(n) && JobFollows(c, n) && CountersAgree(n, j, items[k := i])
  {
    hide Total;
    hide JobOk;
    hide JobFollows;
    FinishedJobFollows(c, readJob, readItem, i);
    TotalsAfterReplace(j, items, k, i);
  }

  lemma FinishedJobFollows(c: Job, readJob: Job, was: Item, becomes: Item)
    requires JobOk(c) && c.dryRun.Some?
    ensures var n := JobAfterFinish(c, readJob, was, becomes); JobOk(n) && JobFollows(c, n) && n.dryRun.Some?
  {
  }

  /** Giving a lease back never deletes a row that another item relies on. */
  lemma ReleaseSparesOtherLeases(s: System, k: ItemKey, attempt: int, slotKey: SlotKey, claimKey: ClaimKey, x: ItemKey)
    requires x in s.items && x.job in s.jobs && x != k && LeaseBacked(s, x)
    requires slotKey in s.slots && LeaseHeldBy(s.slots[slotKey], k, attempt)
    requires claimKey in s.claims && LeaseHeldBy(s.claims[claimKey], k, attempt)
    ensures LeaseBacked(s.(slots := s.slots - {slotKey}, claims := s.claims - {claimKey}), x)
  {
  }

  function SlotsAfterFinish(s: System, i: Item): map<SlotKey, Lease> {
    if i.holder.None? then s.slots else s.slots - {SlotKey(i.holder.value.account, i.holder.value.slot)}
  }

  function ClaimsAfterFinish(s: System, k: ItemKey, i: Item): map<ClaimKey, Lease> {
    if i.holder.None? then s.claims else s.claims - {ClaimKey(i.holder.value.account, k.subscription)}
  }

  lemma FinishSparesOtherLeases(s: System, k: ItemKey, readJob: Job, readItem: Item, c: Caller)
    requires Inv(s) && FinishCommits(s, k, readJob, readItem, c)
    ensures forall x | x in s.items && x != k ::
              x.job in s.jobs && LeaseBacked(s.(slots := SlotsAfterFinish(s, readItem),
                                               claims := ClaimsAfterFinish(s, k, readItem)), x)
  {
    hide Inv;
    hide FinishValueOf;
    hide LeaseBacked;
    SameRows(s);
    if readItem.holder.Some? {
      var slotKey := SlotKey(readItem.holder.value.account, readItem.holder.value.slot);
      var claimKey := ClaimKey(readItem.holder.value.account, k.subscription);
      forall x | x in s.items && x != k
        ensures x.job in s.jobs && LeaseBacked(s.(slots := s.slots - {slotKey}, claims := s.claims - {claimKey}), x)
      {
        ReleaseSparesOtherLeases(s, k, FinishValueOf(c).value.attempts, slotKey, claimKey, x);
      }
    }
  }

  lemma FinishKeepsInv(s: System, k: ItemKey, readJob: Job, readItem: Item, c: Caller)
    requires Inv(s) && FinishCommits(s, k, readJob, readItem, c)
    ensures Inv(FinishEffect(s, k, readJob, readItem, FinishValueOf(c).value))
  {
    hide Inv;
    hide CountersAgree;
    hide FinishValueOf;
    hide LeaseBacked;
    hide ItemOk;
    var v := FinishValueOf(c).value;
    var i := FinishedItem(readItem, v);
    var current := s.jobs[k.job];
    JobCopyFacts(s, k.job, readJob);
    ItemCopyFacts(s, k, readItem);
    if c.CompleteCancellation? || c.RetryCancellation? || c.WebhookUpdate? { ItemCopyFacts(s, k, c.first); }
    CommittedCopyIsCurrent(readJob, current);
    FinishedJobsArePreviewed(s, k, readJob, readItem, c);
    FinishedItemFollows(readItem, s.items[k], c);
    CanariesAreAttempted(i);
    FinishKeepsCounters(k.job, s.items, k, current, readJob, readItem, i);
    FinishSparesOtherLeases(s, k, readJob, readItem, c);
    var n := JobAfterFinish(current, readJob, readItem, i);
    var slots, claims := SlotsAfterFinish(s, readItem), ClaimsAfterFinish(s, k, readItem);
    ItemWithoutLease(WriteItemAndJob(s, k, i, n, slots, claims), k);
    ItemWriteKeepsInv(s, k, i, n, slots, claims);
    RewriteCurrentJob(s, k.job);
    assert FinishEffect(s, k, readJob, readItem, v) == WriteItemAndJob(s, k, i, n, slots, claims);
  }

  lemma CanariesAreAttempted(i: Item)
    requires ItemOk(i)
    ensures i.canary ==> 0 < i.attempts
  {
  }

  // ---------------------------------------------------------------- jobs

  /** When a preview completes nothing is applied or waiting for the provider yet. */
  lemma PreviewedCounts(j: JobId, items: map<ItemKey, Item>)
    requires OnlyPreviewed(j, items)
    ensures Total(Waiting, j, items) == 0 && Total(AppliedNow, j, items) == 0
  {
    TotalZero(Waiting, j, items);
    TotalZero(AppliedNow, j, items);
  }

  /** A completed preview hands its summed counts to the job. */
  lemma CompletionKeepsCounters(j: JobId, c: Job, expiresAt: int, items: map<ItemKey, Item>)
    requires c.state == Previewing && JobOk(c) && CountersAgree(c, j, items)
    ensures CountersAgree(CompletedPreviewJob(c, expiresAt), j, items)
  {
    hide Total;
    hide Weight;
    PreviewedCounts(j, items);
  }

  /** Every other job operation leaves the counters alone. */
  lemma CountersOnlySeeCounters(c: Job, n: Job, j: JobId, items: map<ItemKey, Item>)
    requires CountersAgree(c, j, items) && n.dryRun == c.dryRun && n.counts == c.counts && n.preview == c.preview
    requires n.awaitingProvider == c.awaitingProvider && n.appliedItems == c.appliedItems
    requires n.canaryClaims == c.canaryClaims && n.canaryCompleted == c.canaryCompleted
    requires c.canaryApproved ==> n.canaryApproved
    ensures CountersAgree(n, j, items)
  {
    hide Total;
    hide PreviewAgrees;
    hide OnlyPreviewed;
    hide ValidAggregate;
    hide AttemptedAreCanaries;
  }

  lemma JobUpdateKeepsShape(op: Op)
    requires JobUpdate(op).Some? && JobOk(JobUpdate(op).value.1)
    ensures var (j, c, n) := JobUpdate(op).value;
            && JobOk(n) && JobFollows(c, n)
            && (!op.CompletePreview? ==>
                  && n.dryRun == c.dryRun && n.counts == c.counts && n.preview == c.preview
                  && n.awaitingProvider == c.awaitingProvider && n.appliedItems == c.appliedItems
                  && n.canaryClaims == c.canaryClaims && n.canaryCompleted == c.canaryCompleted
                  && (c.canaryApproved ==> n.canaryApproved))
            && (op.CompletePreview? ==> c.state == Previewing && n == CompletedPreviewJob(c, op.expiresAt))
  {
    hide ValidAggregate;
    hide ValidCounts;
  }

  /** The row a job operation writes is a good successor of the copy it was computed from. */
  lemma JobUpdateKeepsCounters(op: Op, items: map<ItemKey, Item>)
    requires JobUpdate(op).Some?
    requires var (j, c, n) := JobUpdate(op).value; JobOk(c) && CountersAgree(c, j, items)
    ensures var (j, c, n) := JobUpdate(op).value; JobOk(n) && JobFollows(c, n) && CountersAgree(n, j, items)
  {
    hide CountersAgree;
    hide JobUpdate;
    hide JobOk;
    hide JobFollows;
    hide CompletedPreviewJob;
    JobUpdateKeepsShape(op);
    var (j, c, n) := JobUpdate(op).value;
    if op.CompletePreview? {
      CompletionKeepsCounters(j, c, op.expiresAt, items);
    } else {
      CountersOnlySeeCounters(c, n, j, items);
    }
  }

  lemma JobOpKeepsInv(s: System, op: Op)
    requires Inv(s) && JobUpdate(op).Some?
    requires var (j, c, n) := JobUpdate(op).value; (j, c) in s.jobCopies && j in s.jobs && JobUnchanged(c, s.jobs[j])
    ensures var (j, c, n) := JobUpdate(op).value; Inv(PutJob(s, j, n))
  {
    hide Inv;
    hide CountersAgree;
    hide JobUpdate;
    hide JobOk;
    var (j, read, n) := JobUpdate(op).value;
    JobCopyFacts(s, j, read);
    CommittedCopyIsCurrent(read, s.jobs[j]);
    JobUpdateKeepsCounters(op, s.items);
    JobWriteKeepsInv(s, j, n);
  }

  lemma TotalZeroWithoutItems(q: Measure, j: JobId, items: map<ItemKey, Item>)
    requires forall k | k in items :: k.job != j
    ensures Total(q, j, items) == 0
  {
    TotalZero(q, j, items);
  }

  lemma NewJobIsOk(n: Job, canarySize: int, accountConcurrency: int, policy: Policy, createdAt: int)
    requires 1 <= canarySize <= 25 && 1 <= accountConcurrency <= MAX_SLOTS
    requires n == NewJob(canarySize, accountConcurrency, policy, createdAt)
    ensures JobOk(n) && JobFollows(n, n)
    ensures n.dryRun.None? && n.preview == NO_PREVIEW && n.canaryClaims == 0 && n.canaryCompleted == 0
  {
  }

  lemma NoPreviewIsValid()
    ensures ValidAggregate(NO_PREVIEW)
  {
  }

  lemma NoItemsAgree(j: JobId, items: map<ItemKey, Item>, n: Job)
    requires forall k | k in items :: k.job != j
    requires n.dryRun.None? && n.preview == NO_PREVIEW && n.canaryClaims == 0 && n.canaryCompleted == 0
    ensures CountersAgree(n, j, items)
  {
    NoPreviewIsValid();
    hide ValidAggregate;
    hide Total;
    hide Weight;
    TotalZeroWithoutItems(Items, j, items);
    TotalZeroWithoutItems(InBucket(InPending), j, items);
    TotalZeroWithoutItems(InBucket(InApplied), j, items);
    TotalZeroWithoutItems(InBucket(InNeedsReview), j, items);
    TotalZeroWithoutItems(InBucket(InFailed), j, items);
    TotalZeroWithoutItems(CanaryTerminal, j, items);
    TotalZeroWithoutItems(Attempts, j, items);
    TotalZeroWithoutItems(DigestA, j, items);
    TotalZeroWithoutItems(DigestB, j, items);
  }

  lemma NoItemsBeforeCreation(s: System, j: JobId)
    requires Inv(s) && j !in s.jobs
    ensures forall k | k in s.items :: k.job != j
  {
  }

  lemma CreateKeepsInv(s: System, j: JobId, n: Job)
    requires Inv(s) && j !in s.jobs && JobOk(n) && JobFollows(n, n)
    requires n.dryRun.None? && n.preview == NO_PREVIEW && n.canaryClaims == 0 && n.canaryCompleted == 0
    ensures Inv(PutJob(s, j, n))
  {
    hide Total;
    hide CountersAgree;
    hide LeaseBacked;
    hide JobOk;
    hide JobFollows;
    assert CountersAgree(n, j, s.items) by {
      hide Inv;
      NoItemsBeforeCreation(s, j);
      NoItemsAgree(j, s.items, n);
    }
    var t := PutJob(s, j, n);
    forall k | k in t.items ensures LeaseBacked(t, k) {
      assert LeaseBacked(s, k);
      LeaseFrame(s, t, k);
    }
  }

  lemma TickKeepsInv(s: System, seconds: nat)
    requires Inv(s)
    ensures Inv(s.(now := s.now + seconds))
  {
    hide Total;
    hide CountersAgree;
    var t := s.(now := s.now + seconds);
    forall k | k in t.items ensures LeaseBacked(t, k) { assert LeaseBacked(s, k); }
  }

  /** Every operation keeps the invariant, committed or not. */
  lemma ApplyKeepsInv(s: System, op: Op)
    requires Inv(s)
    ensures Inv(Apply(s, op))
  {
    hide ReadsAreValid;
    hide Inv;
    if Commits(s, op) {
      match op
      case CreateJob(j, canarySize, accountConcurrency, policy, createdAt) =>
        var n := NewJob(canarySize, accountConcurrency, policy, createdAt);
        NewJobIsOk(n, canarySize, accountConcurrency, policy, createdAt);
        CreateKeepsInv(s, j, n);
      case PutPreviewItem(k, readJob, item) => PutPreviewKeepsInv(s, k, readJob, item);
      case RejectPreviewItem(k, readJob, readItem, reason, digest) =>
        RejectPreviewKeepsInv(s, k, readJob, readItem, reason, digest);
      case ClaimItem(k, readJob, readItem, request) => ClaimKeepsInv(s, k, readJob, readItem, request);
      case FinishItem(k, readJob, readItem, caller) => FinishKeepsInv(s, k, readJob, readItem, caller);
      case Tick(seconds) => TickKeepsInv(s, seconds);
      case _ => JobOpKeepsInv(s, op);
    }
  }

  /** The invariant holds in every state any run can reach. */
  lemma {:induction false} RunKeepsInv(s: System, ops: seq<Op>)
    requires Inv(s)
    ensures Inv(Run(s, ops))
    decreases |ops|
  {
    hide Inv;
    if ops == [] {
    } else {
      ApplyKeepsInv(s, ops[0]);
      RunKeepsInv(Apply(s, ops[0]), ops[1..]);
    }
  }
}
