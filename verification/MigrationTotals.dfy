/**
 Sums over the items of one job. Every derived counter of a job is such a sum, so one set of
 lemmas about adding and replacing an item serves them all.
 */
module MigrationTotals {
  import opened Types
  import opened MigrationRecords

  datatype Measure =
    | Items | InBucket(bucket: Bucket) | Waiting | AppliedNow | Unfinished
    | CanaryTerminal | Attempts | DigestA | DigestB | CancellationWork

  function Weight(q: Measure, i: Item): int {
    match q
    case Items => 1
    case InBucket(b) => if CountBucket(i.state) == b then 1 else 0
    case Waiting => if IsAwaitingProvider(i.state) then 1 else 0
    case AppliedNow => if IsAppliedState(i.state) then 1 else 0
    case Unfinished => if IsCancellationTerminal(i.state) then 0 else 1
    case CanaryTerminal => if i.canary && IsTerminal(i.state) then 1 else 0
    case Attempts => i.attempts
    case DigestA => i.digest.a
    case DigestB => i.digest.b
    case CancellationWork => if IsCancellationTerminal(i.state) then 0 else MAX_ATTEMPTS + 1 - i.cancellationAttempts
  }

  function Share(q: Measure, j: JobId, k: ItemKey, i: Item): int {
    if k.job == j then Weight(q, i) else 0
  }

  ghost function Total(q: Measure, j: JobId, items: map<ItemKey, Item>): int
    decreases |items|
  {
    if items == map[] then 0
    else
      var k :| k in items;
      Share(q, j, k, items[k]) + Total(q, j, items - {k})
  }

  lemma TotalEmpty(q: Measure, j: JobId)
    ensures Total(q, j, map[]) == 0
  {
  }

  /** Any item can be split off the sum. */
  lemma {:induction false} TotalSplit(q: Measure, j: JobId, items: map<ItemKey, Item>, k: ItemKey)
    requires k in items
    ensures Total(q, j, items) == Share(q, j, k, items[k]) + Total(q, j, items - {k})
    decreases |items|
  {
    var c :| c in items && Total(q, j, items) == Share(q, j, c, items[c]) + Total(q, j, items - {c});
    if c != k {
      TotalSplit(q, j, items - {c}, k);
      TotalSplit(q, j, items - {k}, c);
      assert items - {c} - {k} == items - {k} - {c};
    }
  }

  /** Writing one item changes the sum by the difference of the two shares. */
  lemma TotalPut(q: Measure, j: JobId, items: map<ItemKey, Item>, k: ItemKey, i: Item)
    ensures Total(q, j, items[k := i])
         == Total(q, j, items) + Share(q, j, k, i) - (if k in items then Share(q, j, k, items[k]) else 0)
  {
    TotalSplit(q, j, items[k := i], k);
    if k in items {
      TotalSplit(q, j, items, k);
      assert items[k := i] - {k} == items - {k};
    } else {
      assert items[k := i] - {k} == items;
    }
  }

  /** A sum of measures adds up item by item. */
  lemma {:induction false} TotalSum(q: Measure, q1: Measure, q2: Measure, j: JobId, items: map<ItemKey, Item>)
    requires forall k | k in items && k.job == j :: Weight(q, items[k]) == Weight(q1, items[k]) + Weight(q2, items[k])
    ensures Total(q, j, items) == Total(q1, j, items) + Total(q2, j, items)
    decreases |items|
  {
    hide Total;
    if items == map[] {
      TotalEmpty(q, j);
      TotalEmpty(q1, j);
      TotalEmpty(q2, j);
    } else {
      var k :| k in items;
      TotalSplit(q, j, items, k);
      TotalSplit(q1, j, items, k);
      TotalSplit(q2, j, items, k);
      TotalSum(q, q1, q2, j, items - {k});
    }
  }

  /** Pointwise order carries over to the sums; equal sums force equal items. */
  lemma {:induction false} TotalOrder(q: Measure, q1: Measure, j: JobId, items: map<ItemKey, Item>)
    requires forall k | k in items && k.job == j :: Weight(q, items[k]) <= Weight(q1, items[k])
    ensures Total(q, j, items) <= Total(q1, j, items)
    ensures Total(q, j, items) == Total(q1, j, items)
        ==> forall k | k in items && k.job == j :: Weight(q, items[k]) == Weight(q1, items[k])
    decreases |items|
  {
    hide Total;
    if items == map[] {
      TotalEmpty(q, j);
      TotalEmpty(q1, j);
    } else {
      var k :| k in items;
      TotalSplit(q, j, items, k);
      TotalSplit(q1, j, items, k);
      TotalOrder(q, q1, j, items - {k});
    }
  }

  /** A sum of non-negative shares is zero exactly when every share is. */
  lemma {:induction false} TotalZero(q: Measure, j: JobId, items: map<ItemKey, Item>)
    requires forall k | k in items && k.job == j :: 0 <= Weight(q, items[k])
    ensures 0 <= Total(q, j, items)
    ensures Total(q, j, items) == 0 <==> forall k | k in items && k.job == j :: Weight(q, items[k]) == 0
    decreases |items|
  {
    hide Total;
    if items == map[] {
      TotalEmpty(q, j);
    } else {
      var k :| k in items;
      TotalSplit(q, j, items, k);
      TotalZero(q, j, items - {k});
      forall x | x in items && x.job == j && x != k ensures x in items - {k} {}
    }
  }

  lemma BoundStep(rest: int, n: int, w: nat, share: int, unit: int)
    requires 0 <= rest <= n * w
    requires 0 <= unit <= 1 && 0 <= share <= (if unit == 1 then w else 0)
    ensures 0 <= share + rest <= (unit + n) * w
  {
    assert (unit + n) * w == unit * w + n * w;
  }

  /** Items that weigh between 0 and w sum to at most w times their number. */
  lemma {:induction false} TotalBound(q: Measure, w: nat, j: JobId, items: map<ItemKey, Item>)
    requires forall k | k in items && k.job == j :: 0 <= Weight(q, items[k]) <= w
    ensures 0 <= Total(q, j, items) <= Total(Items, j, items) * w
    decreases |items|
  {
    hide Total;
    if items == map[] {
      TotalEmpty(q, j);
      TotalEmpty(Items, j);
    } else {
      var k :| k in items;
      TotalSplit(q, j, items, k);
      TotalSplit(Items, j, items, k);
      TotalBound(q, w, j, items - {k});
      BoundStep(Total(q, j, items - {k}), Total(Items, j, items - {k}), w, Share(q, j, k, items[k]), Share(Items, j, k, items[k]));
    }
  }

  /** The four buckets partition the items. */
  lemma {:induction false} BucketsPartition(j: JobId, items: map<ItemKey, Item>)
    ensures Total(Items, j, items)
         == Total(InBucket(InPending), j, items) + Total(InBucket(InApplied), j, items)
          + Total(InBucket(InNeedsReview), j, items) + Total(InBucket(InFailed), j, items)
    decreases |items|
  {
    hide Total;
    if items == map[] {
      TotalEmpty(Items, j);
      TotalEmpty(InBucket(InPending), j);
      TotalEmpty(InBucket(InApplied), j);
      TotalEmpty(InBucket(InNeedsReview), j);
      TotalEmpty(InBucket(InFailed), j);
    } else {
      var k :| k in items;
      TotalSplit(Items, j, items, k);
      TotalSplit(InBucket(InPending), j, items, k);
      TotalSplit(InBucket(InApplied), j, items, k);
      TotalSplit(InBucket(InNeedsReview), j, items, k);
      TotalSplit(InBucket(InFailed), j, items, k);
      BucketsPartition(j, items - {k});
    }
  }

  /** The items cancellation still has to end are the pending ones and the applied ones. */
  lemma UnfinishedIsPendingPlusApplied(j: JobId, items: map<ItemKey, Item>)
    ensures Total(Unfinished, j, items) == Total(InBucket(InPending), j, items) + Total(AppliedNow, j, items)
  {
    TotalSum(Unfinished, InBucket(InPending), AppliedNow, j, items);
  }
}
