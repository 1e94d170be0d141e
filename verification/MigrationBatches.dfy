/**
 What the worker's messages leave when nobody else runs: a batch of claims is full or leaves nothing of
 its page that could still be claimed, and every claimed item and every item of a cancellation page has
 its own outcome recorded.
 */
module MigrationBatches {
  import opened Types
  import opened MigrationRecords
  import opened MigrationProtocol
  import opened MigrationInvariant
  import opened MigrationSteps
  import opened MigrationStore
  import opened MigrationWorker
  import opened MigrationReplies
  import opened WorkIndex

  // ---------------------------------------------------------------- pages

  /** A page of a job's items, each once. */
  predicate IsPage(page: seq<(ItemKey, Item)>, j: JobId) {
    (forall y | y in page :: y.0.job == j) && (forall i, c | 0 <= i < c < |page| :: page[i].0 != page[c].0)
  }

  lemma RestIsPage(page: seq<(ItemKey, Item)>, j: JobId)
    requires IsPage(page, j) && page != []
    ensures IsPage(page[1..], j) && page[0].0.job == j
  {
  }

  predicate IsSelected(selected: seq<(ItemKey, Item)>, k: ItemKey) { exists i :: 0 <= i < |selected| && selected[i].0 == k }

  lemma SelectedOf(first: (ItemKey, Item), rest: seq<(ItemKey, Item)>)
    ensures forall k :: IsSelected([first] + rest, k) <==> k == first.0 || IsSelected(rest, k)
  {
    var all := [first] + rest;
    assert all[0] == first && forall i | 0 <= i < |rest| :: all[i + 1] == rest[i];
  }

  lemma FirstIsNotInRest(page: seq<(ItemKey, Item)>, j: JobId)
    requires IsPage(page, j) && page != []
    ensures forall k :: IsSelected(page, k) <==> k == page[0].0 || IsSelected(page[1..], k)
    ensures !IsSelected(page[1..], page[0].0)
  {
    SelectedOf(page[0], page[1..]);
    assert [page[0]] + page[1..] == page;
  }

  // ---------------------------------------------------------------- what a batch leaves

  /** Whether some slot of the account lets the worker claim an item from the row it has of it. */
  predicate IsClaimableBy(s: System, j: JobId, b: Batch, k: ItemKey, item: Item) {
    exists slot: nat :: slot < b.worker.accountConcurrency && CanClaim(s, j, b, k, item, slot)
  }

  lemma {:induction false} NoSlotMeansNoClaim(s: System, j: JobId, b: Batch, k: ItemKey, item: Item, from: nat)
    requires SlotFor(s, j, b, k, item, from).None?
    ensures forall slot: nat :: from <= slot < b.worker.accountConcurrency ==> !CanClaim(s, j, b, k, item, slot)
    decreases if from < b.worker.accountConcurrency then b.worker.accountConcurrency - from else 0
  {
    hide CanClaim;
    if from < b.worker.accountConcurrency { NoSlotMeansNoClaim(s, j, b, k, item, from + 1); }
  }

  lemma {:induction false} SlotIsClaimable(s: System, j: JobId, b: Batch, k: ItemKey, item: Item, from: nat)
    requires SlotFor(s, j, b, k, item, from).Some?
    ensures CanClaim(s, j, b, k, item, SlotFor(s, j, b, k, item, from).value)
    decreases if from < b.worker.accountConcurrency then b.worker.accountConcurrency - from else 0
  {
    hide CanClaim;
    if !CanClaim(s, j, b, k, item, from) { SlotIsClaimable(s, j, b, k, item, from + 1); }
  }

  lemma CanClaimCommits(s: System, j: JobId, b: Batch, k: ItemKey, item: Item, slot: nat)
    requires CanClaim(s, j, b, k, item, slot)
    ensures j in s.jobs && Commits(s, ClaimItem(k, s.jobs[j], item, RequestOf(b, slot)))
  {
  }

  /** The table after a claim, as far as later claims of other items look at it. */
  ghost predicate HasTaken(s: System, t: System, k: ItemKey, r: ClaimRequest) {
    var slot, claim := SlotKey(r.account, r.slot), ClaimKey(r.account, k.subscription);
    && k in s.items && k.job in s.jobs && k.job in t.jobs && t.now == s.now
    && (forall x: ItemKey | x != k :: (x in t.items <==> x in s.items) && (x in s.items ==> t.items[x] == s.items[x]))
    && (forall x: (ItemKey, Item) | x.0 != k :: x in t.itemCopies <==> x in s.itemCopies)
    && slot in t.slots && r.now < t.slots[slot].expiresAt
    && (forall y | y != slot && y in s.slots :: y in t.slots && t.slots[y] == s.slots[y])
    && claim in t.claims && r.now < t.claims[claim].expiresAt
    && (forall y | y != claim && y in s.claims :: y in t.claims && t.claims[y] == s.claims[y])
    && (|| t.jobs[k.job] == s.jobs[k.job]
        || (r.canaryBatch && !s.jobs[k.job].mutationStarted && t.jobs[k.job] == CanaryClaimedJob(s.jobs[k.job])))
  }

  lemma ClaimsTake(s: System, k: ItemKey, item: Item, r: ClaimRequest)
    requires k.job in s.jobs && ClaimCommits(s, k, s.jobs[k.job], item, r)
    ensures HasTaken(s, ClaimEffect(s, k, s.jobs[k.job], item, r), k, r)
  {
    hide MayClaim;
    hide ItemUnchanged;
  }

  /** The job row of a claim before another claim. */
  lemma JobAllowedBefore(c: Job, n: Job, item: Item, r: ClaimRequest, q: ClaimRequest)
    requires JobOk(c) && (n == c || (q.canaryBatch && !c.mutationStarted && n == CanaryClaimedJob(c)))
    requires r.canaryBatch == q.canaryBatch && JobAllowsClaim(n, item, r)
    requires if ClaimsCanary(item, r) then !n.mutationStarted else n.mutationStarted && n.canaryApproved
    ensures JobAllowsClaim(c, item, r) && c.state == Running && c.accountConcurrency == n.accountConcurrency
    ensures if ClaimsCanary(item, r) then !c.mutationStarted else c.mutationStarted && c.canaryApproved
  {
  }

  lemma ClaimableBefore(s: System, t: System, k: ItemKey, r: ClaimRequest, x: ItemKey, other: Item, q: ClaimRequest)
    requires HasTaken(s, t, k, r) && k != x && x.job == k.job && JobOk(s.jobs[k.job]) && (k.job, s.jobs[k.job]) in s.jobCopies
    requires q.canaryBatch == r.canaryBatch && q.account == r.account && q.now == r.now
    requires ClaimCommits(t, x, t.jobs[k.job], other, q)
    ensures ClaimCommits(s, x, s.jobs[k.job], other, q)
  {
    hide JobOk;
    hide JobAllowsClaim;
    hide MayClaim;
    hide ItemUnchanged;
    hide CanaryClaimedJob;
    hide ClaimsCanary;
    var c, n := s.jobs[k.job], t.jobs[k.job];
    JobAllowedBefore(c, n, other, q, r);
  }

  lemma TakenJobStays(s: System, t: System, k: ItemKey, r: ClaimRequest)
    requires HasTaken(s, t, k, r)
    ensures k.job in t.jobs
  {
  }

  lemma JobInRun(s: System, k: ItemKey)
    requires Inv(s) && k.job in s.jobs
    ensures JobOk(s.jobs[k.job]) && (k.job, s.jobs[k.job]) in s.jobCopies
  {
  }

  lemma CommittedClaim(s: System, k: ItemKey, c: Job, item: Item, r: ClaimRequest)
    ensures Commits(s, ClaimItem(k, c, item, r)) <==> ValidJob(c) && ValidItem(item) && ClaimCommits(s, k, c, item, r)
    ensures Commits(s, ClaimItem(k, c, item, r)) ==> Apply(s, ClaimItem(k, c, item, r)) == ClaimEffect(s, k, c, item, r)
  {
    hide ClaimCommits;
    hide ClaimEffect;
    hide ValidJob;
    hide ValidItem;
  }

  /** A claim only takes: what can be claimed after it could be claimed before it. */
  lemma ClaimsOnlyTake(s: System, j: JobId, b: Batch, k: ItemKey, item: Item, slot: nat, x: ItemKey, other: Item, at: nat)
    requires Inv(s) && k != x && k.job == j && x.job == j && CanClaim(s, j, b, k, item, slot)
    requires CanClaim(Apply(s, ClaimItem(k, s.jobs[j], item, RequestOf(b, slot))), j, b, x, other, at)
    ensures CanClaim(s, j, b, x, other, at)
  {
    hide Commits;
    hide Apply;
    hide Inv;
    hide CountersAgree;
    hide JobFollows;
    hide JobOk;
    hide ValidJob;
    hide ValidItem;
    hide ClaimCommits;
    hide ClaimEffect;
    hide HasTaken;
    var first, second := RequestOf(b, slot), RequestOf(b, at);
    JobInRun(s, k);
    CommittedClaim(s, k, s.jobs[j], item, first);
    ClaimsTake(s, k, item, first);
    var t := ClaimEffect(s, k, s.jobs[j], item, first);
    TakenJobStays(s, t, k, first);
    CommittedClaim(t, x, t.jobs[j], other, second);
    ClaimableBefore(s, t, k, first, x, other, second);
    CommittedClaim(s, x, s.jobs[j], other, second);
  }

  lemma UnclaimableAfterClaim(s: System, j: JobId, b: Batch, k: ItemKey, item: Item, slot: nat, x: ItemKey, other: Item)
    requires Inv(s) && k != x && k.job == j && x.job == j && CanClaim(s, j, b, k, item, slot)
    requires !IsClaimableBy(s, j, b, x, other)
    ensures !IsClaimableBy(Apply(s, ClaimItem(k, s.jobs[j], item, RequestOf(b, slot))), j, b, x, other)
  {
    CanClaimCommits(s, j, b, k, item, slot);
    hide Inv;
    hide CanClaim;
    hide Apply;
    var t := Apply(s, ClaimItem(k, s.jobs[j], item, RequestOf(b, slot)));
    if at: nat :| at < b.worker.accountConcurrency && CanClaim(t, j, b, x, other, at) {
      ClaimsOnlyTake(s, j, b, k, item, slot, x, other, at);
      assert false;
    }
  }

  /** What cannot be claimed stays so through the rest of a batch. */
  lemma {:induction false} UnclaimableStays(s: System, j: JobId, b: Batch, page: seq<(ItemKey, Item)>, room: int,
                                            x: ItemKey, other: Item)
    requires Inv(s) && x.job == j && IsPage(page, j) && !IsSelected(page, x)
    requires !IsClaimableBy(s, j, b, x, other)
    ensures !IsClaimableBy(ClaimedPage(s, j, b, page, room).0, j, b, x, other)
    decreases |page|
  {
    hide Inv;
    hide CanClaim;
    hide MayClaim;
    hide SlotFor;
    hide Apply;
    hide JobRead;
    hide IsClaimableBy;
    hide IsPage;
    hide IsSelected;
    if page != [] && 0 < room && !(MayClaim(page[0].1, b.now) && JobRead(s, j).Unreadable?) {
      RestIsPage(page, j);
      FirstIsNotInRest(page, j);
      var (k, item) := page[0];
      var slot := if MayClaim(item, b.now) then SlotFor(s, j, b, k, item, 0) else None;
      if slot.None? || j !in s.jobs {
        UnclaimableStays(s, j, b, page[1..], room, x, other);
      } else {
        var op := ClaimItem(k, s.jobs[j], item, RequestOf(b, slot.value));
        SlotIsClaimable(s, j, b, k, item, 0);
        UnclaimableAfterClaim(s, j, b, k, item, slot.value, x, other);
        ApplyKeepsInv(s, op);
        UnclaimableStays(Apply(s, op), j, b, page[1..], room - 1, x, other);
      }
    }
  }

  /** No item of the page but the selected ones can be claimed. */
  predicate LeavesNothing(t: System, j: JobId, b: Batch, page: seq<(ItemKey, Item)>, selected: seq<(ItemKey, Item)>) {
    forall i | 0 <= i < |page| :: IsSelected(selected, page[i].0) || !IsClaimableBy(t, j, b, page[i].0, page[i].1)
  }

  lemma LeavesNothingOfMore(t: System, j: JobId, b: Batch, page: seq<(ItemKey, Item)>,
                            first: seq<(ItemKey, Item)>, rest: seq<(ItemKey, Item)>)
    requires page != [] && LeavesNothing(t, j, b, page[1..], rest)
    requires IsSelected(first + rest, page[0].0) || !IsClaimableBy(t, j, b, page[0].0, page[0].1)
    ensures LeavesNothing(t, j, b, page, first + rest)
  {
    hide IsClaimableBy;
    forall i | 0 < i < |page| ensures IsSelected(first + rest, page[i].0) || !IsClaimableBy(t, j, b, page[i].0, page[i].1) {
      assert page[1..][i - 1] == page[i];
      if c :| 0 <= c < |rest| && rest[c].0 == page[i].0 { assert (first + rest)[|first| + c] == rest[c]; }
    }
  }

  /** A batch that meets nobody else and does not raise is full, or leaves no item of its page that the worker
      could still claim in any of its slots. */
  lemma {:induction false} BatchesAreMaximal(s: System, j: JobId, b: Batch, page: seq<(ItemKey, Item)>, room: int)
    requires Inv(s) && IsPage(page, j) && j in s.jobs
    ensures var (t, selected, ok) := ClaimedPage(s, j, b, page, room);
            ok && |selected| < room ==> LeavesNothing(t, j, b, page, selected)
    decreases |page|
  {
    hide Inv;
    hide CanClaim;
    hide MayClaim;
    hide SlotFor;
    hide Apply;
    hide ClaimedItem;
    hide IsClaimableBy;
    hide IsPage;
    hide IsSelected;
    hide LeavesNothing;
    hide JobRead;
    EmptyLeavesNothing(s, j, b);
    if page != [] && 0 < room && !(MayClaim(page[0].1, b.now) && JobRead(s, j).Unreadable?) {
      RestIsPage(page, j);
      FirstIsNotInRest(page, j);
      var (k, item) := page[0];
      var slot := if MayClaim(item, b.now) then SlotFor(s, j, b, k, item, 0) else None;
      if slot.None? {
        NothingToClaim(s, j, b, k, item);
        UnclaimableStays(s, j, b, page[1..], room, k, item);
        BatchesAreMaximal(s, j, b, page[1..], room);
        var rest := ClaimedPage(s, j, b, page[1..], room);
        assert [] + rest.1 == rest.1;
        if rest.2 && |rest.1| < room { LeavesNothingOfMore(rest.0, j, b, page, [], rest.1); }
      } else {
        var op := ClaimItem(k, s.jobs[j], item, RequestOf(b, slot.value));
        ApplyKeepsInv(s, op);
        JobsStay(s, op, j);
        BatchesAreMaximal(Apply(s, op), j, b, page[1..], room - 1);
        var rest := ClaimedPage(Apply(s, op), j, b, page[1..], room - 1);
        var first := [(k, ClaimedItem(item, RequestOf(b, slot.value)))];
        SelectedOf(first[0], rest.1);
        if rest.2 && |rest.1| < room - 1 { LeavesNothingOfMore(rest.0, j, b, page, first, rest.1); }
      }
    }
  }

  lemma EmptyLeavesNothing(s: System, j: JobId, b: Batch)
    ensures LeavesNothing(s, j, b, [], [])
  {
  }

  lemma ClaimNeedsClaimable(s: System, j: JobId, b: Batch, k: ItemKey, item: Item)
    requires IsClaimableBy(s, j, b, k, item)
    ensures MayClaim(item, b.now)
  {
  }

  lemma NothingToClaim(s: System, j: JobId, b: Batch, k: ItemKey, item: Item)
    requires MayClaim(item, b.now) ==> SlotFor(s, j, b, k, item, 0).None?
    ensures !IsClaimableBy(s, j, b, k, item)
  {
    hide CanClaim;
    hide MayClaim;
    hide SlotFor;
    if MayClaim(item, b.now) { NoSlotMeansNoClaim(s, j, b, k, item, 0); }
    if IsClaimableBy(s, j, b, k, item) { ClaimNeedsClaimable(s, j, b, k, item); }
  }

  lemma JobsStay(s: System, op: Op, j: JobId)
    requires op.ClaimItem? && j in s.jobs
    ensures j in Apply(s, op).jobs
  {
    hide Commits;
  }

  // ---------------------------------------------------------------- the rows of a page

  /** An item row, if there is one. */
  function RowAt(s: System, k: ItemKey): Option<Item> { if k in s.items then Some(s.items[k]) else None }

  lemma FinishesSpareOthers(s: System, k: ItemKey, caller: Caller, x: ItemKey)
    requires k != x
    ensures RowAt(FinishedBy(s, k, caller), x) == RowAt(s, x)
  {
    hide ValidJob;
    hide ValidItem;
    hide FinishValueOf;
    hide FinishedItem;
    hide ChangesMetrics;
    hide MetricsJob;
    hide FinishCommits;
  }

  lemma FinishesKeepInv(s: System, k: ItemKey, caller: Caller)
    requires Inv(s)
    ensures var t := FinishedBy(s, k, caller); Inv(t) && s.jobCopies <= t.jobCopies && s.jobs.Keys <= t.jobs.Keys
  {
    hide Inv;
    hide ValidJob;
    hide ValidItem;
    hide FinishValueOf;
    hide FinishedItem;
    hide Apply;
    if FinishReady(s, k, caller) {
      ApplyKeepsInv(s, FinishItem(k, s.jobs[k.job], s.items[k], caller));
      ApplyRemembersJobs(s, FinishItem(k, s.jobs[k.job], s.items[k], caller));
    }
  }

  lemma ApplyRemembersJobs(s: System, op: Op)
    requires op.FinishItem?
    ensures s.jobCopies <= Apply(s, op).jobCopies && s.jobs.Keys <= Apply(s, op).jobs.Keys
  {
    hide Commits;
    hide ChangesMetrics;
    hide FinishedItem;
    hide MetricsJob;
  }

  /** What a finish of one item leaves alone. */
  ghost predicate IsLocal(s: System, t: System, k: ItemKey) {
    && Inv(t) && s.jobCopies <= t.jobCopies && s.jobs.Keys <= t.jobs.Keys
    && forall x | x != k :: RowAt(t, x) == RowAt(s, x)
  }

  lemma FinishesAreLocal(s: System, k: ItemKey, caller: Caller)
    requires Inv(s)
    ensures IsLocal(s, FinishedBy(s, k, caller), k)
  {
    hide Inv;
    hide FinishedBy;
    FinishesKeepInv(s, k, caller);
    forall x | x != k ensures RowAt(FinishedBy(s, k, caller), x) == RowAt(s, x) { FinishesSpareOthers(s, k, caller, x); }
  }

  lemma ClaimStoresRow(s: System, k: ItemKey, c: Job, item: Item, r: ClaimRequest, x: ItemKey)
    requires Commits(s, ClaimItem(k, c, item, r))
    ensures RowAt(Apply(s, ClaimItem(k, c, item, r)), x) == if x == k then Some(ClaimedItem(item, r)) else RowAt(s, x)
  {
    CommittedClaim(s, k, c, item, r);
    hide Commits;
    hide ClaimedItem;
    hide CanaryClaimedJob;
    hide ClaimsCanary;
  }

  /** The rows a batch answers are those it stored, one for each item of its page it claimed; all others stay. */
  ghost predicate AreStored(s: System, t: System, page: seq<(ItemKey, Item)>, selected: seq<(ItemKey, Item)>) {
    && Inv(t) && s.jobs.Keys <= t.jobs.Keys
    && (forall k | IsSelected(selected, k) :: IsSelected(page, k))
    && (forall i | 0 <= i < |selected| :: selected[i].1.state == Applying && RowAt(t, selected[i].0) == Some(selected[i].1))
    && (forall i, c | 0 <= i < c < |selected| :: selected[i].0 != selected[c].0)
    && (forall k | !IsSelected(selected, k) :: RowAt(t, k) == RowAt(s, k))
  }

  /** A batch stores the rows it answers, one for each, and leaves every other row. */
  lemma NothingIsStored(s: System, page: seq<(ItemKey, Item)>)
    requires Inv(s)
    ensures AreStored(s, s, page, [])
  {
    hide Inv;
    hide RowAt;
  }

  lemma SkippedIsNotStored(s: System, t: System, page: seq<(ItemKey, Item)>, selected: seq<(ItemKey, Item)>)
    requires page != [] && AreStored(s, t, page[1..], selected)
    ensures AreStored(s, t, page, selected)
  {
    hide Inv;
    hide RowAt;
    forall k | IsSelected(selected, k) ensures IsSelected(page, k) {
      var i :| 0 <= i < |page[1..]| && page[1..][i].0 == k;
      assert page[i + 1].0 == k;
    }
  }

  lemma {:induction false} ClaimedRowsAreStored(s: System, j: JobId, b: Batch, page: seq<(ItemKey, Item)>, room: int)
    requires Inv(s) && IsPage(page, j) && j in s.jobs
    ensures var (t, selected, _) := ClaimedPage(s, j, b, page, room); AreStored(s, t, page, selected)
    decreases |page|
  {
    hide Inv;
    hide CanClaim;
    hide MayClaim;
    hide SlotFor;
    hide Apply;
    hide ClaimedItem;
    hide AreStored;
    hide IsPage;
    hide JobRead;
    NothingIsStored(s, page);
    if page != [] && 0 < room && !(MayClaim(page[0].1, b.now) && JobRead(s, j).Unreadable?) {
      RestIsPage(page, j);
      var (k, item) := page[0];
      var slot := if MayClaim(item, b.now) then SlotFor(s, j, b, k, item, 0) else None;
      if slot.None? {
        ClaimedRowsAreStored(s, j, b, page[1..], room);
        SkippedIsNotStored(s, ClaimedPage(s, j, b, page[1..], room).0, page, ClaimedPage(s, j, b, page[1..], room).1);
      } else {
        var op := ClaimItem(k, s.jobs[j], item, RequestOf(b, slot.value));
        var t := Apply(s, op);
        ApplyKeepsInv(s, op);
        JobsStay(s, op, j);
        SlotIsClaimable(s, j, b, k, item, 0);
        CanClaimCommits(s, j, b, k, item, slot.value);
        ClaimedRowsAreStored(t, j, b, page[1..], room - 1);
        var rest := ClaimedPage(t, j, b, page[1..], room - 1);
        FirstIsStored(s, k, s.jobs[j], item, RequestOf(b, slot.value), rest.0, page, rest.1);
      }
    }
  }

  lemma ClaimedItemsAreApplying(item: Item, r: ClaimRequest)
    ensures ClaimedItem(item, r).state == Applying
  {
  }

  lemma FirstIsStored(s: System, k: ItemKey, c: Job, item: Item, r: ClaimRequest, u: System,
                      page: seq<(ItemKey, Item)>, rest: seq<(ItemKey, Item)>)
    requires page != [] && page[0].0 == k && IsPage(page, k.job)
    requires Commits(s, ClaimItem(k, c, item, r)) && AreStored(Apply(s, ClaimItem(k, c, item, r)), u, page[1..], rest)
    ensures AreStored(s, u, page, [(k, ClaimedItem(item, r))] + rest)
  {
    hide Commits;
    hide Apply;
    hide Inv;
    hide RowAt;
    hide ClaimedItem;
    hide IsSelected;
    hide IsPage;
    var selected := [(k, ClaimedItem(item, r))] + rest;
    ClaimStoresRow(s, k, c, item, r, k);
    ClaimedItemsAreApplying(item, r);
    forall x | x in s.jobs ensures x in Apply(s, ClaimItem(k, c, item, r)).jobs { JobsStay(s, ClaimItem(k, c, item, r), x); }
    FirstIsNotInRest(page, k.job);
    SelectedOf((k, ClaimedItem(item, r)), rest);
    assert selected[0] == (k, ClaimedItem(item, r));
    forall i | 0 < i < |selected| ensures selected[i] == rest[i - 1] && selected[i].0 != k { RowIsSelected(rest, i - 1); }
    forall x | !IsSelected(selected, x) ensures RowAt(u, x) == RowAt(s, x) { ClaimStoresRow(s, k, c, item, r, x); }
  }

  lemma RowIsSelected(rows: seq<(ItemKey, Item)>, i: nat)
    requires i < |rows|
    ensures IsSelected(rows, rows[i].0)
  {
  }

  // ---------------------------------------------------------------- the answers of a batch

  /** The row of an item after its answer was recorded, against the row before. */
  predicate IsAnswered(was: Option<Item>, now: Option<Item>, attempts: int, a: Applied, at: int) {
    && was.Some? && now.Some? && 1 <= attempts <= 5
    && (AnswerLeaves(was.value, now.value, attempts, a, at, true) || AnswerLeaves(was.value, now.value, attempts, a, at, false))
  }

  lemma OneAnswerIsRecorded(s: System, k: ItemKey, attempts: int, a: Applied, at: int)
    requires Inv(s) && 1 <= attempts <= 5 && GoodAnswer(a)
    ensures var t := AppliedBy(s, k, attempts, a, at);
            && IsLocal(s, t, k)
            && (ApplySucceeds(s, k, attempts, a, at) ==> IsAnswered(RowAt(s, k), RowAt(t, k), attempts, a, at))
  {
    hide Inv;
    hide FinishedBy;
    hide FinishSucceeds;
    hide AnswerLeaves;
    hide CallerFor;
    hide ReviewFor;
    AnswerOutcome(s, k, attempts, a, at);
    FinishesAreLocal(s, k, CallerFor(attempts, a, at));
    FinishesAreLocal(s, k, ReviewFor(attempts, a));
  }

  /** A list of answers that is recorded to its end leaves every item with its own answer, and every other row as
      it was. */
  lemma {:induction false} AllAnswersAreRecorded(s: System, selected: seq<(ItemKey, Item)>, answers: map<ItemKey, Applied>, at: int)
    requires Inv(s) && (forall i, c | 0 <= i < c < |selected| :: selected[i].0 != selected[c].0)
    requires forall x | x in selected :: 1 <= x.1.attempts <= 5 && x.0 in answers && GoodAnswer(answers[x.0])
    ensures var (t, done) := AppliedAll(s, selected, answers, at);
            && Inv(t) && s.jobs.Keys <= t.jobs.Keys
            && (forall k | !IsSelected(selected, k) :: RowAt(t, k) == RowAt(s, k))
            && (done ==> forall i | 0 <= i < |selected| ::
                           IsAnswered(RowAt(s, selected[i].0), RowAt(t, selected[i].0), selected[i].1.attempts, answers[selected[i].0], at))
    decreases |selected|
  {
    hide Inv;
    hide AppliedBy;
    hide ApplySucceeds;
    hide IsAnswered;
    hide RowAt;
    if selected != [] {
      var (k, item) := selected[0];
      var t := AppliedBy(s, k, item.attempts, answers[k], at);
      OneAnswerIsRecorded(s, k, item.attempts, answers[k], at);
      var rest := selected[1..];
      assert IsSelected(selected, k) && !IsSelected(rest, k);
      forall x | IsSelected(rest, x) ensures IsSelected(selected, x) {
        var i :| 0 <= i < |rest| && rest[i].0 == x;
        assert selected[i + 1].0 == x;
      }
      if ApplySucceeds(s, k, item.attempts, answers[k], at) {
        AllAnswersAreRecorded(t, rest, answers, at);
        forall i | 1 <= i < |selected| ensures selected[i] == rest[i - 1] && selected[i].0 != k {}
      }
    }
  }

  lemma StoredAttempts(t: System, k: ItemKey, i: Item)
    requires Inv(t) && RowAt(t, k) == Some(i) && i.state == Applying
    ensures 1 <= i.attempts <= 5
  {
    hide CountersAgree;
    hide LeaseBacked;
    assert (k, t.items[k]) in t.itemCopies;
    ItemCopyFacts(t, k, t.items[k]);
    hide Inv;
  }

  lemma LooksSpareItems(s: System, j: JobId, found: WorkReads, x: ItemKey)
    ensures RowAt(ContinuedBy(s, j, found), x) == RowAt(s, x)
  {
    hide ReadsLoad;
    hide ReadsAreValid;
    hide ContinueTarget;
    hide JobUnchanged;
  }

  /** An execution message that claims its batch and has all its answers recorded leaves every item it claimed
      with its own answer, recorded on the row the claim stored, and every other item as it was; it then looks at
      the job and replies as that look says. */
  lemma ExecutionRecordsEveryClaim(s: System, j: JobId, b: Batch, page: seq<(ItemKey, Item)>, answers: map<ItemKey, Applied>,
                                   found: WorkReads)
    requires Inv(s) && (forall y | y in page :: y.0.job == j) && j in s.jobs
    requires forall i, c | 0 <= i < c < |page| :: page[i].0 != page[c].0
    requires forall y | y in page :: y.0 in answers && GoodAnswer(answers[y.0])
    ensures var (claimed, selected, ok) := ClaimedPage(s, j, b, page, LimitOf(b));
            var t := ExecutedAlone(s, j, b, true, page, answers, found).0;
            ok && AppliedAll(claimed, selected, answers, b.now).1 ==>
              && (forall i | 0 <= i < |selected| ::
                    && selected[i].0 in answers
                    && IsAnswered(Some(selected[i].1), RowAt(t, selected[i].0), selected[i].1.attempts, answers[selected[i].0], b.now))
              && (forall k | !IsSelected(selected, k) :: RowAt(t, k) == RowAt(s, k))
              && var applied := AppliedAll(claimed, selected, answers, b.now).0;
                 var reply := ExecutedAlone(s, j, b, true, page, answers, found).1;
                 && j in applied.jobs
                 && exists r: Continuation ::
                      && IsLookedAt(applied, t, j, found, r)
                      && reply == (if r.Refused? then Raised else if r.LookAgain? then Again(r.seconds) else Nothing)
  {
    hide Inv;
    hide ClaimedPage;
    hide AppliedAll;
    hide ContinuedBy;
    hide ContinueReply;
    hide IsLookedAt;
    hide IsAnswered;
    hide GoodAnswer;
    var (claimed, selected, ok) := ClaimedPage(s, j, b, page, LimitOf(b));
    ClaimedRowsAreStored(s, j, b, page, LimitOf(b));
    forall x | x in selected ensures 1 <= x.1.attempts <= 5 && x.0 in answers && GoodAnswer(answers[x.0]) {
      var i :| 0 <= i < |selected| && selected[i] == x;
      assert IsSelected(selected, x.0);
      StoredAttempts(claimed, x.0, x.1);
      var c :| 0 <= c < |page| && page[c].0 == x.0;
      assert page[c] in page;
    }
    hide RowAt;
    AllAnswersAreRecorded(claimed, selected, answers, b.now);
    var applied := AppliedAll(claimed, selected, answers, b.now).0;
    forall x ensures RowAt(ContinuedBy(applied, j, found), x) == RowAt(applied, x) { LooksSpareItems(applied, j, found, x); }
    if ok && AppliedAll(claimed, selected, answers, b.now).1 {
      LookIsAnsweredExactly(applied, j, b.now, found);
      assert IsLookedAt(applied, ContinuedBy(applied, j, found), j, found, ContinueReply(applied, j, b.now, found));
    }
  }

  // ---------------------------------------------------------------- a page of a cancellation

  /** One item of the page went through its cancellation between two tables: its row changed as one step on it
      changes it, and it waits as that step says. */
  ghost predicate IsUndone(s: System, t: System, k: ItemKey, item: Item, u: Undone, at: int, wait: Option<int>) {
    exists m: System, n: System, recorded: bool ::
      RowAt(m, k) == RowAt(s, k) && RowAt(n, k) == RowAt(t, k) && UndoLeaves(m, n, k, item, u, at, recorded, wait)
  }

  lemma EndsAreLocal(s: System, worker: Job, k: ItemKey, state: ItemState, reason: Option<Reason>)
    requires Inv(s)
    ensures IsLocal(s, EndedBy(s, k, worker, state, reason), k)
  {
    hide Inv;
    hide FinishedBy;
    hide RowAt;
    if EndsItem(s, k, state, reason) { FinishesAreLocal(s, k, CompleteCancellation(worker, s.items[k], state, reason)); }
  }

  lemma RetriesAreLocal(s: System, k: ItemKey, attempts: int, next: Option<int>)
    requires Inv(s)
    ensures IsLocal(s, RetriedBy(s, k, attempts, next), k)
  {
    hide Inv;
    hide FinishedBy;
    hide RowAt;
    if RetryMeets(s, k, attempts, next) && IsNextRetry(s.items[k], attempts) {
      FinishesAreLocal(s, k, RetryCancellation(s.jobs[k.job], s.items[k], attempts, next));
    }
  }

  lemma CancellationsAreLocal(s: System, worker: Job, k: ItemKey, item: Item, u: Undone, at: int)
    requires Inv(s)
    ensures IsLocal(s, CanceledOne(s, worker, k, item, u, at).0, k)
  {
    hide Inv;
    hide EndedBy;
    hide EndSucceeds;
    hide RetriedBy;
    hide RetrySucceeds;
    hide Backoff;
    hide RowAt;
    EndsAreLocal(s, worker, k, Skipped, None);
    EndsAreLocal(s, worker, k, NeedsReview, Some("provider-unknown"));
    match u
    case StillOpen =>
    case Ends(state, reason) => EndsAreLocal(s, worker, k, state, reason);
    case Refuses(why) => EndsAreLocal(s, worker, k, NeedsReview, Some(why));
    case CannotUndo(_, jitter) =>
      var attempts := item.cancellationAttempts + 1;
      RetriesAreLocal(s, k, attempts, if attempts < MAX_ATTEMPTS then Some(at + Backoff(attempts, jitter)) else None);
  }

  lemma OneIsUndone(s: System, worker: Job, k: ItemKey, item: Item, u: Undone, at: int)
    requires Inv(s) && (k.job, worker) in s.jobCopies
    ensures var (t, left) := CanceledOne(s, worker, k, item, u, at);
            && Inv(t) && (k.job, worker) in t.jobCopies && (forall x | x != k :: RowAt(t, x) == RowAt(s, x))
            && (!left.refused ==> IsUndone(s, t, k, item, u, at, left.wait))
  {
    hide Inv;
    hide CanceledOne;
    hide UndoLeaves;
    hide EndSucceeds;
    CancellationsAreLocal(s, worker, k, item, u, at);
    UndoOutcome(s, worker, k, item, u, at);
  }

  /** A page whose last row is left alone by what follows, and the other way round. */
  lemma UndoneAcross(s: System, m: System, t: System, k: ItemKey, item: Item, u: Undone, at: int, wait: Option<int>)
    requires IsUndone(s, m, k, item, u, at, wait) && RowAt(m, k) == RowAt(t, k)
    ensures IsUndone(s, t, k, item, u, at, wait)
  {
    hide RowAt;
    hide UndoLeaves;
  }

  lemma UndoneFrom(s: System, m: System, t: System, k: ItemKey, item: Item, u: Undone, at: int, wait: Option<int>)
    requires IsUndone(m, t, k, item, u, at, wait) && RowAt(m, k) == RowAt(s, k)
    ensures IsUndone(s, t, k, item, u, at, wait)
  {
    hide RowAt;
    hide UndoLeaves;
  }

  /** What a page comes to: every item goes through its cancellation, and the page is looked at again exactly when
      some item waits, no later than any of them. `waits` says how long each item waits. */
  ghost predicate IsPageUndone(s: System, t: System, page: seq<(ItemKey, Item)>, undone: map<ItemKey, Undone>, at: int,
                               waits: seq<Option<int>>, pending: bool, delay: int) {
    && |waits| == |page|
    && (forall i | 0 <= i < |page| :: page[i].0 in undone && IsUndone(s, t, page[i].0, page[i].1, undone[page[i].0], at, waits[i]))
    && (forall i | 0 <= i < |page| && waits[i].Some? :: pending && delay <= waits[i].value)
    && (forall k | !IsSelected(page, k) :: RowAt(t, k) == RowAt(s, k))
  }

  /** Another look is needed exactly if one was needed before or some item waits, and comes at the soonest of the
      times. */
  predicate IsSoonest(waits: seq<Option<int>>, pending: bool, delay: int, again: bool, wait: int) {
    && wait <= delay
    && (again <==> pending || exists i :: 0 <= i < |waits| && waits[i].Some?)
    && (wait == delay || exists i :: 0 <= i < |waits| && waits[i] == Some(wait))
  }

  lemma SoonestGoesBack(first: Option<int>, rest: seq<Option<int>>, pending: bool, delay: int, again: bool, wait: int)
    requires IsSoonest(rest, pending || first.Some?, if first.Some? && first.value < delay then first.value else delay, again, wait)
    ensures IsSoonest([first] + rest, pending, delay, again, wait)
  {
    var waits := [first] + rest;
    assert waits[0] == first && forall i | 0 <= i < |rest| :: waits[i + 1] == rest[i];
  }

  lemma SoonestIsBefore(first: Option<int>, rest: seq<Option<int>>, pending: bool, delay: int, again: bool, wait: int)
    requires IsSoonest(rest, pending || first.Some?, if first.Some? && first.value < delay then first.value else delay, again, wait)
    ensures first.Some? ==> again && wait <= first.value
  {
  }

  lemma NothingIsUndone(s: System, undone: map<ItemKey, Undone>, at: int, pending: bool, delay: int)
    ensures IsPageUndone(s, s, [], undone, at, [], pending, delay) && IsSoonest([], pending, delay, pending, delay)
  {
    hide RowAt;
  }

  /** A page of a cancellation of which nothing is refused. */
  lemma {:induction false} PagesAreCanceled(s: System, j: JobId, worker: Job, page: seq<(ItemKey, Item)>,
                                            undone: map<ItemKey, Undone>, at: int, pending: bool, delay: int)
      returns (waits: seq<Option<int>>)
    requires Inv(s) && (j, worker) in s.jobCopies && (forall y | y in page :: y.0.job == j && y.0 in undone)
    requires forall i, c | 0 <= i < c < |page| :: page[i].0 != page[c].0
    ensures var (t, refused, again, wait) := CanceledAll(s, worker, page, undone, at, pending, delay);
            !refused ==>
              IsPageUndone(s, t, page, undone, at, waits, again, wait) && IsSoonest(waits, pending, delay, again, wait)
    decreases |page|
  {
    hide Inv;
    hide CanceledOne;
    hide IsUndone;
    hide IsPageUndone;
    hide IsSoonest;
    hide RowAt;
    if page == [] {
      waits := [];
      NothingIsUndone(s, undone, at, pending, delay);
    } else {
      var (k, item) := page[0];
      assert page[0] in page;
      var (m, left) := CanceledOne(s, worker, k, item, undone[k], at);
      OneIsUndone(s, worker, k, item, undone[k], at);
      if left.refused { return []; }
      var again := pending || left.wait.Some?;
      var soonest := if left.wait.Some? && left.wait.value < delay then left.wait.value else delay;
      var rest := PagesAreCanceled(m, j, worker, page[1..], undone, at, again, soonest);
      waits := [left.wait] + rest;
      var (t, refused, pends, wait) := CanceledAll(m, worker, page[1..], undone, at, again, soonest);
      if !refused {
        SoonestIsBefore(left.wait, rest, pending, delay, pends, wait);
        PageGoesBack(s, m, t, page, undone, at, left.wait, rest, pends, wait);
        SoonestGoesBack(left.wait, rest, pending, delay, pends, wait);
      }
    }
  }

  lemma PageGoesBack(s: System, m: System, t: System, page: seq<(ItemKey, Item)>, undone: map<ItemKey, Undone>, at: int,
                     first: Option<int>, rest: seq<Option<int>>, pending: bool, delay: int)
    requires page != [] && (forall i, c | 0 <= i < c < |page| :: page[i].0 != page[c].0) && page[0].0 in undone
    requires IsUndone(s, m, page[0].0, page[0].1, undone[page[0].0], at, first)
    requires forall x | x != page[0].0 :: RowAt(m, x) == RowAt(s, x)
    requires IsPageUndone(m, t, page[1..], undone, at, rest, pending, delay)
    requires first.Some? ==> pending && delay <= first.value
    ensures IsPageUndone(s, t, page, undone, at, [first] + rest, pending, delay)
  {
    hide IsUndone;
    hide RowAt;
    assert !IsSelected(page[1..], page[0].0);
    UndoneAcross(s, m, t, page[0].0, page[0].1, undone[page[0].0], at, first);
    var waits := [first] + rest;
    forall i | 1 <= i < |page| ensures page[i].0 in undone && IsUndone(s, t, page[i].0, page[i].1, undone[page[i].0], at, waits[i]) {
      assert page[1..][i - 1] == page[i];
      UndoneFrom(s, m, t, page[i].0, page[i].1, undone[page[i].0], at, rest[i - 1]);
    }
    forall x | !IsSelected(page, x) ensures RowAt(t, x) == RowAt(s, x) {
      assert page[0].0 != x;
      assert forall i | 0 <= i < |page[1..]| :: page[1..][i] == page[i + 1];
      assert !IsSelected(page[1..], x);
    }
  }

  // ---------------------------------------------------------------- the rows a batch claims

  /** A row claimed by a batch, against the row of its page: applying for the batch's account until its lease ends,
      one attempt further and a canary exactly if the mutation has not started, or, at the last attempt, as counted. */
  predicate IsClaimedRow(was: Item, now: Item, b: Batch) {
    var again := was.state == Applying && was.attempts == 5;
    && now.holder.Some? && now.holder.value == Holder(b.account, now.holder.value.slot, b.now + b.leaseSeconds)
    && 0 <= now.holder.value.slot < b.worker.accountConcurrency
    && now == was.(state := Applying, attempts := if again then 5 else was.attempts + 1, holder := now.holder,
                   nextAttemptAt := None, canary := if again then was.canary else !b.worker.mutationStarted)
  }

  lemma {:induction false} SlotsAreInRange(s: System, j: JobId, b: Batch, k: ItemKey, item: Item, from: nat)
    ensures var slot := SlotFor(s, j, b, k, item, from); slot.Some? ==> slot.value < b.worker.accountConcurrency
    decreases if from < b.worker.accountConcurrency then b.worker.accountConcurrency - from else 0
  {
    hide CanClaim;
    if from < b.worker.accountConcurrency { SlotsAreInRange(s, j, b, k, item, from + 1); }
  }

  /** The row a batch claimed of each item it answers, and that it asked for the claim at the revision and in the
      kind of batch its worker was started for. */
  lemma {:induction false} ClaimedRowsAre(s: System, j: JobId, b: Batch, page: seq<(ItemKey, Item)>, room: int)
    ensures var selected := ClaimedPage(s, j, b, page, room).1;
            forall x | x in selected :: exists y :: y in page && y.0 == x.0 && IsClaimedRow(y.1, x.1, b)
    decreases |page|
  {
    hide MayClaim;
    hide SlotFor;
    hide Apply;
    hide JobRead;
    if page != [] && 0 < room && !(MayClaim(page[0].1, b.now) && JobRead(s, j).Unreadable?) {
      var (k, item) := page[0];
      assert page[0] in page && forall y | y in page[1..] :: y in page;
      var slot := if MayClaim(item, b.now) then SlotFor(s, j, b, k, item, 0) else None;
      if slot.None? || j !in s.jobs {
        ClaimedRowsAre(s, j, b, page[1..], room);
      } else {
        SlotsAreInRange(s, j, b, k, item, 0);
        assert IsClaimedRow(item, ClaimedItem(item, RequestOf(b, slot.value)), b);
        ClaimedRowsAre(Apply(s, ClaimItem(k, s.jobs[j], item, RequestOf(b, slot.value))), j, b, page[1..], room - 1);
      }
    }
  }

  /** What every claim of a batch asks for, whoever runs in between. */
  lemma ClaimsOfBatch(op: Op, j: JobId, b: Batch, page: seq<(ItemKey, Item)>)
    requires IsClaimOf(op, j, b, page)
    ensures op.ClaimItem? && op.k.job == j && (op.k, op.readItem) in page
    ensures op.request == ClaimRequest(b.account, op.request.slot, b.now, b.leaseSeconds, b.worker.revision, !b.worker.mutationStarted)
  {
  }
}
