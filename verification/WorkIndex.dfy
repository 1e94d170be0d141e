/**
 The work index of the migration items: one partition per open state, sorted by a text key made of
 the zero-padded due time and the item id. Proved here: the text order is the order by due time and
 id, the due test on keys is the due test on times, and the delay after which execution looks at a
 job again is the earliest moment at which one of its items needs it.
 */
module WorkIndex {
  import opened Types
  import opened TextOrder
  import opened MigrationRecords
  import opened MigrationProtocol
  import opened MigrationTotals
  import opened MigrationInvariant
  import opened MigrationSteps
  import opened MigrationCounters
  import opened MigrationCanary
  import opened MigrationLoads
  import opened MigrationCancellation

  // ---------------------------------------------------------------- padded numbers

  function Pow10(width: nat): nat { if width == 0 then 1 else 10 * Pow10(width - 1) }

  /** The last `width` decimal digits of a number. */
  function Padded(n: nat, width: nat): (s: string)
    ensures |s| == width
  {
    if width == 0 then "" else Padded(n / 10, width - 1) + [('0' as int + n % 10) as char]
  }

  /** Numbers of one width order as their digits do. */
  lemma {:induction false} PaddedOrder(n: nat, m: nat, width: nat)
    requires n < Pow10(width) && m < Pow10(width)
    ensures AtMost(Padded(n, width), Padded(m, width)) <==> n <= m
    ensures Padded(n, width) == Padded(m, width) <==> n == m
    decreases width
  {
    if width == 0 {
    } else {
      var a, b := Padded(n / 10, width - 1), Padded(m / 10, width - 1);
      var x, y := ('0' as int + n % 10) as char, ('0' as int + m % 10) as char;
      PaddedOrder(n / 10, m / 10, width - 1);
      CompareHeads(a, [x], b, [y]);
      assert Padded(n, width)[..width - 1] == a && Padded(m, width)[..width - 1] == b;
      assert Padded(n, width)[width - 1] == x && Padded(m, width)[width - 1] == y;
      assert AtMost([x], [y]) <==> x <= y;
      assert n == 10 * (n / 10) + n % 10 && m == 10 * (m / 10) + m % 10;
    }
  }

  lemma TenDigits()
    ensures Pow10(10) == MAX_EPOCH + 1
  {
    assert Pow10(5) == 100_000;
    assert Pow10(6) == 1_000_000 && Pow10(8) == 100_000_000;
  }

  // ---------------------------------------------------------------- index entries

  /** The due time an item is filed under; None keeps it out of the index. */
  function DueAt(i: Item): Option<int> {
    if IsWorkState(i.state) && i.cancellationNextAttemptAt.Some? then i.cancellationNextAttemptAt
    else
      match i.state
      case Pending | PendingPayment | PendingCustomerAction | Applied => Some(0)
      case RetryableFailure => i.nextAttemptAt
      case Applying => if i.holder.Some? then Some(i.holder.value.expiresAt) else None
      case _ => None
  }

  predicate IsIndexed(i: Item) { DueAt(i).Some? && 0 <= DueAt(i).value <= MAX_EPOCH }

  /** The text key of an item in the partition of its state. */
  function SortKey(due: nat, id: string): string { Padded(due, 10) + "#" + id }

  /** Item ids are lower-case letters, digits and hyphens, all of them below the tilde. */
  predicate IsItemId(id: string) { forall c | c in id :: c < '~' }

  /** An item is in the index exactly while it is in an open state, and then under a due time of at
      most ten digits: the time of its next cancellation attempt if it has one; otherwise zero while it is
      pending, waits for the provider or is applied, and the time from which on it can be claimed while it
      waits for a retry or is leased. */
  lemma OpenItemsAreIndexed(i: Item)
    requires ItemOk(i)
    ensures IsIndexed(i) <==> i.state in {Pending, Applying, RetryableFailure, PendingPayment, PendingCustomerAction, Applied}
    ensures IsWorkState(i.state) <==> IsIndexed(i)
    ensures DueAt(i).Some? <==> IsIndexed(i)
    ensures IsIndexed(i) && i.cancellationNextAttemptAt.Some? ==> DueAt(i) == i.cancellationNextAttemptAt
    ensures IsIndexed(i) && i.cancellationNextAttemptAt.None? ==>
              if i.state == Applying || i.state == RetryableFailure
              then forall at: int :: IsClaimable(i, at) <==> DueAt(i).value <= at
              else DueAt(i) == Some(0)
  {
  }

  /** The text order of keys is the order by due time, then by id. */
  lemma KeyOrderIsDueOrder(d: nat, id: string, d': nat, id': string)
    requires d <= MAX_EPOCH && d' <= MAX_EPOCH
    ensures AtMost(SortKey(d, id), SortKey(d', id')) <==> d < d' || (d == d' && AtMost(id, id'))
  {
    TenDigits();
    PaddedOrder(d, d', 10);
    CompareHeads(Padded(d, 10), "#" + id, Padded(d', 10), "#" + id');
    CompareHeads("#", id, "#", id');
    assert SortKey(d, id) == Padded(d, 10) + ("#" + id) && SortKey(d', id') == Padded(d', 10) + ("#" + id');
  }

  /** Comparing a key with the bound made of a time and a tilde tests the due time alone. */
  lemma DueTestIsExact(d: nat, id: string, at: nat)
    requires d <= MAX_EPOCH && at <= MAX_EPOCH && IsItemId(id)
    ensures AtMost(SortKey(d, id), SortKey(at, "~")) <==> d <= at
  {
    KeyOrderIsDueOrder(d, id, at, "~");
    assert AtMost(id, "~") by { if id != "" { assert id[0] in id; } }
  }

  // ---------------------------------------------------------------- queries

  datatype Row = Row(key: string, k: ItemKey, item: Item)

  function KeyOf(k: ItemKey, i: Item): string
    requires IsIndexed(i)
  {
    SortKey(DueAt(i).value, k.subscription)
  }

  function DueOf(row: Row): int { if DueAt(row.item).Some? then DueAt(row.item).value else 0 }

  predicate IsRow(row: Row) {
    IsIndexed(row.item) && row.key == KeyOf(row.k, row.item) && IsItemId(row.k.subscription)
  }

  predicate InKeyOrder(rows: seq<Row>) {
    forall a, b | 0 <= a < b < |rows| :: AtMost(rows[a].key, rows[b].key)
  }

  /** The partition of one state of one job, in key order. */
  predicate Lists(rows: seq<Row>, j: JobId, state: ItemState, items: map<ItemKey, Item>) {
    && (forall row | row in rows ::
          && row.k in items && row.k.job == j && row.item == items[row.k]
          && row.item.state == state && IsRow(row))
    && (forall k | k in items && k.job == j && items[k].state == state :: exists row :: row in rows && row.k == k)
    && InKeyOrder(rows)
  }

  /** A query with a limit and an optional bound on the key. */
  function Query(rows: seq<Row>, limit: nat, bound: Option<string>): seq<Row> {
    if rows == [] || limit == 0 then []
    else if bound.Some? && !AtMost(rows[0].key, bound.value) then Query(rows[1..], limit, bound)
    else [rows[0]] + Query(rows[1..], limit - 1, bound)
  }

  function DueBound(at: Option<nat>): Option<string> {
    if at.Some? then Some(SortKey(at.value, "~")) else None
  }

  predicate IsDue(row: Row, at: Option<nat>) { at.Some? ==> DueOf(row) <= at.value }

  lemma RowsAreInDueOrder(rows: seq<Row>)
    requires (forall row | row in rows :: IsRow(row)) && InKeyOrder(rows)
    ensures forall a, b | 0 <= a < b < |rows| :: DueOf(rows[a]) <= DueOf(rows[b])
  {
    forall a, b | 0 <= a < b < |rows| ensures DueOf(rows[a]) <= DueOf(rows[b]) {
      assert IsRow(rows[a]) && IsRow(rows[b]);
      KeyOrderIsDueOrder(DueOf(rows[a]), rows[a].k.subscription, DueOf(rows[b]), rows[b].k.subscription);
    }
  }

  lemma {:induction false} NothingDue(rows: seq<Row>, limit: nat, bound: string)
    requires forall row | row in rows :: !AtMost(row.key, bound)
    ensures Query(rows, limit, Some(bound)) == []
    decreases |rows|
  {
    if rows == [] {
    } else {
      NothingDue(rows[1..], limit, bound);
    }
  }

  /** A query returns the first rows of the partition: only due ones, and either as many as it may
      or all that are due. */
  lemma {:induction false} QueryReturnsFirstDue(rows: seq<Row>, limit: nat, at: Option<nat>)
    requires (forall row | row in rows :: IsRow(row)) && InKeyOrder(rows)
    requires at.Some? ==> at.value <= MAX_EPOCH
    ensures var r := Query(rows, limit, DueBound(at));
            && |r| <= limit && r <= rows
            && (forall row | row in r :: IsDue(row, at))
            && (|r| < limit ==> forall row | row in rows[|r|..] :: !IsDue(row, at))
    decreases |rows|
  {
    if rows == [] || limit == 0 {
    } else {
      assert IsRow(rows[0]);
      if at.Some? { DueTestIsExact(DueOf(rows[0]), rows[0].k.subscription, at.value); }
      if !IsDue(rows[0], at) {
        RowsAreInDueOrder(rows);
        forall row | row in rows ensures !IsDue(row, at) && !AtMost(row.key, SortKey(at.value, "~")) {
          assert IsRow(row);
          DueTestIsExact(DueOf(row), row.k.subscription, at.value);
        }
        NothingDue(rows, limit, SortKey(at.value, "~"));
      } else {
        var rest := Query(rows[1..], limit - 1, DueBound(at));
        QueryReturnsFirstDue(rows[1..], limit - 1, at);
        assert Query(rows, limit, DueBound(at)) == [rows[0]] + rest;
        assert rows == [rows[0]] + rows[1..];
      }
    }
  }

  // ---------------------------------------------------------------- the next look at a job

  /** What the five limit-one queries of the execution step return. */
  datatype WorkReads = WorkReads(
    pending: Option<Item>, dueRetry: Option<Item>, nextRetry: Option<Item>,
    dueLease: Option<Item>, nextLease: Option<Item>)

  function First(rows: seq<Row>): Option<Item> { if rows == [] then None else Some(rows[0].item) }

  /** The reads of an index that lists exactly the current items. */
  ghost predicate ExactReads(found: WorkReads, j: JobId, items: map<ItemKey, Item>, at: nat) {
    exists pending, retries, leases ::
      && Lists(pending, j, Pending, items) && Lists(retries, j, RetryableFailure, items) && Lists(leases, j, Applying, items)
      && found == WorkReads(First(Query(pending, 1, None)),
                            First(Query(retries, 1, DueBound(Some(at)))), First(Query(retries, 1, None)),
                            First(Query(leases, 1, DueBound(Some(at)))), First(Query(leases, 1, None)))
  }

  predicate Loads(r: Option<Item>) { r.Some? ==> ValidItem(r.value) }

  /** No answer holds a row that its validator refuses. */
  predicate ReadsLoad(found: WorkReads) {
    Loads(found.pending) && Loads(found.dueRetry) && Loads(found.nextRetry) && Loads(found.dueLease) && Loads(found.nextLease)
  }

  /** The soonest time stored in the two items that will become due. */
  function NextWakeup(found: WorkReads): Option<int> {
    var retry := if found.nextRetry.Some? then found.nextRetry.value.nextAttemptAt else None;
    var lease := if found.nextLease.Some? && found.nextLease.value.holder.Some?
                 then Some(found.nextLease.value.holder.value.expiresAt) else None;
    if retry.None? then lease
    else if lease.None? then retry
    else Some(if retry.value < lease.value then retry.value else lease.value)
  }

  /** The delay before the next look at a job with open items; None when nothing needs a look. */
  function WorkDelay(job: Job, found: WorkReads, at: int): Option<int> {
    if found.pending.Some? || found.dueRetry.Some? || found.dueLease.Some? then Some(0)
    else if NextWakeup(found).Some? then
      var wait := NextWakeup(found).value - at;
      Some(if wait < 1 then 1 else if wait > 900 then 900 else wait)
    else if job.awaitingProvider == job.counts.pending then None
    else Some(2)
  }

  predicate SomeClaimable(j: JobId, items: map<ItemKey, Item>, at: int) {
    exists k :: k in items && k.job == j && IsClaimable(items[k], at)
  }

  /** The items of a job that become claimable at a time of their own. */
  predicate IsTimed(i: Item) { i.state == RetryableFailure || i.state == Applying }

  predicate SomeTimed(j: JobId, items: map<ItemKey, Item>) {
    exists k :: k in items && k.job == j && IsTimed(items[k])
  }

  /** The first time at which a job has a claimable item. */
  predicate IsEarliest(t: int, j: JobId, items: map<ItemKey, Item>) {
    && (exists k :: k in items && k.job == j && IsTimed(items[k]) && DueAt(items[k]) == Some(t))
    && (forall k | k in items && k.job == j && IsTimed(items[k]) :: DueAt(items[k]).Some? && t <= DueAt(items[k]).value)
  }

  predicate NoneCanceling(j: JobId, items: map<ItemKey, Item>) {
    forall k | k in items && k.job == j :: items[k].cancellationNextAttemptAt.None?
  }

  predicate InPartition(k: ItemKey, j: JobId, state: ItemState, items: map<ItemKey, Item>) {
    k in items && k.job == j && items[k].state == state
  }

  function DueTime(i: Item): int { if DueAt(i).Some? then DueAt(i).value else 0 }

  /** The answer of a limit-one query on an exact partition: its earliest item, if that is due. */
  ghost predicate IsFirst(r: Option<Item>, j: JobId, state: ItemState, items: map<ItemKey, Item>, at: Option<nat>) {
    && (r.None? ==> forall k | InPartition(k, j, state, items) :: at.Some? && at.value < DueTime(items[k]))
    && (r.Some? ==>
          && (exists k :: InPartition(k, j, state, items) && items[k] == r.value)
          && (at.Some? ==> DueTime(r.value) <= at.value)
          && forall k | InPartition(k, j, state, items) :: DueTime(r.value) <= DueTime(items[k]))
  }

  /** Every item of the partition has its row. */
  lemma RowOf(rows: seq<Row>, j: JobId, state: ItemState, items: map<ItemKey, Item>, k: ItemKey) returns (a: nat)
    requires Lists(rows, j, state, items) && InPartition(k, j, state, items)
    ensures a < |rows| && rows[a].item == items[k] && DueOf(rows[a]) == DueTime(items[k])
  {
    var row :| row in rows && row.k == k;
    a :| a < |rows| && rows[a] == row;
  }

  lemma ListedRows(rows: seq<Row>, j: JobId, state: ItemState, items: map<ItemKey, Item>)
    requires Lists(rows, j, state, items)
    ensures InKeyOrder(rows)
    ensures forall row | row in rows ::
              IsRow(row) && InPartition(row.k, j, state, items) && items[row.k] == row.item && DueOf(row) == DueTime(row.item)
  {
  }

  /** Against the first answer, any item of the partition: later, or not yet due if there is no answer. */
  lemma FirstIsBefore(rows: seq<Row>, j: JobId, state: ItemState, items: map<ItemKey, Item>, at: Option<nat>, k: ItemKey)
    requires Lists(rows, j, state, items) && (at.Some? ==> at.value <= MAX_EPOCH) && InPartition(k, j, state, items)
    ensures rows != [] && if Query(rows, 1, DueBound(at)) == [] then at.Some? && at.value < DueTime(items[k])
                          else DueOf(rows[0]) <= DueTime(items[k])
  {
    hide Query;
    hide DueBound;
    hide IsRow;
    hide AtMost;
    hide DueAt;
    hide Lists;
    hide InKeyOrder;
    ListedRows(rows, j, state, items);
    RowsAreInDueOrder(rows);
    QueryReturnsFirstDue(rows, 1, at);
    var a := RowOf(rows, j, state, items, k);
    if Query(rows, 1, DueBound(at)) == [] { assert rows[0..] == rows && !IsDue(rows[a], at); }
  }

  lemma FirstIsEarliest(rows: seq<Row>, j: JobId, state: ItemState, items: map<ItemKey, Item>, at: Option<nat>)
    requires Lists(rows, j, state, items) && (at.Some? ==> at.value <= MAX_EPOCH)
    ensures IsFirst(First(Query(rows, 1, DueBound(at))), j, state, items, at)
  {
    hide Query;
    hide DueBound;
    hide IsRow;
    hide AtMost;
    hide DueAt;
    hide Lists;
    hide InKeyOrder;
    ListedRows(rows, j, state, items);
    QueryReturnsFirstDue(rows, 1, at);
    var r := Query(rows, 1, DueBound(at));
    if r != [] { assert r[0] == rows[0] && r[0] in r && r[0] in rows && InPartition(rows[0].k, j, state, items); }
    forall k | InPartition(k, j, state, items)
      ensures if r == [] then at.Some? && at.value < DueTime(items[k]) else DueTime(rows[0].item) <= DueTime(items[k])
    {
      FirstIsBefore(rows, j, state, items, at, k);
    }
  }

  /** Without pending, retrying or applying items the pending bucket is the awaiting one. */
  lemma OpenItemsAwaitProvider(s: System, j: JobId)
    requires Inv(s) && j in s.jobs && s.jobs[j].dryRun.Some?
    requires forall k | k in s.items && k.job == j :: s.items[k].state != Pending && !IsTimed(s.items[k])
    ensures s.jobs[j].awaitingProvider == s.jobs[j].counts.pending
  {
    hide Inv;
    hide Total;
    hide JobOk;
    JobCounts(s, j);
    TotalOrder(Waiting, InBucket(InPending), j, s.items);
    TotalOrder(InBucket(InPending), Waiting, j, s.items);
  }

  /** What the two reads of a timed state say together. */
  lemma TimedReads(next: Option<Item>, due: Option<Item>, j: JobId, state: ItemState, items: map<ItemKey, Item>, at: nat)
    requires IsFirst(next, j, state, items, None) && IsFirst(due, j, state, items, Some(at))
    requires state == RetryableFailure || state == Applying
    requires NoneCanceling(j, items) && forall k | k in items :: ItemOk(items[k])
    ensures next.Some? <==> exists k :: InPartition(k, j, state, items)
    ensures due.Some? <==> exists k :: InPartition(k, j, state, items) && IsClaimable(items[k], at)
    ensures next.Some? ==>
              next.value.state == state && (state == Applying ==> next.value.holder.Some?)
              && DueAt(next.value) == Some(DueTime(next.value))
              && DueAt(next.value) == (if state == Applying then Some(next.value.holder.value.expiresAt) else next.value.nextAttemptAt)
  {
    forall k | InPartition(k, j, state, items) ensures IsClaimable(items[k], at) <==> DueTime(items[k]) <= at {
      assert ItemOk(items[k]);
    }
    if next.Some? {
      var k :| InPartition(k, j, state, items) && items[k] == next.value;
      assert ItemOk(items[k]);
    }
    if due.Some? {
      var k :| InPartition(k, j, state, items) && items[k] == due.value;
    }
  }

  /** What the five reads say when they are exact. */
  lemma ReadFacts(j: JobId, found: WorkReads, items: map<ItemKey, Item>, at: nat)
    requires ExactReads(found, j, items, at) && 1 <= at <= MAX_EPOCH
    ensures IsFirst(found.pending, j, Pending, items, None)
    ensures IsFirst(found.nextRetry, j, RetryableFailure, items, None) && IsFirst(found.dueRetry, j, RetryableFailure, items, Some(at))
    ensures IsFirst(found.nextLease, j, Applying, items, None) && IsFirst(found.dueLease, j, Applying, items, Some(at))
  {
    hide Lists;
    hide Query;
    hide IsFirst;
    hide First;
    var pending, retries, leases :|
      && Lists(pending, j, Pending, items) && Lists(retries, j, RetryableFailure, items) && Lists(leases, j, Applying, items)
      && found == WorkReads(First(Query(pending, 1, None)),
                            First(Query(retries, 1, DueBound(Some(at)))), First(Query(retries, 1, None)),
                            First(Query(leases, 1, DueBound(Some(at)))), First(Query(leases, 1, None)));
    FirstIsEarliest(pending, j, Pending, items, None);
    FirstIsEarliest(retries, j, RetryableFailure, items, Some(at));
    FirstIsEarliest(retries, j, RetryableFailure, items, None);
    FirstIsEarliest(leases, j, Applying, items, Some(at));
    FirstIsEarliest(leases, j, Applying, items, None);
  }

  lemma ClaimableByState(j: JobId, items: map<ItemKey, Item>, at: int)
    ensures SomeClaimable(j, items, at) <==>
              || (exists k :: InPartition(k, j, Pending, items))
              || (exists k :: InPartition(k, j, RetryableFailure, items) && IsClaimable(items[k], at))
              || (exists k :: InPartition(k, j, Applying, items) && IsClaimable(items[k], at))
    ensures SomeTimed(j, items) <==>
              (exists k :: InPartition(k, j, RetryableFailure, items)) || (exists k :: InPartition(k, j, Applying, items))
  {
    if SomeClaimable(j, items, at) {
      var k :| k in items && k.job == j && IsClaimable(items[k], at);
      assert InPartition(k, j, items[k].state, items);
    }
    if k :| InPartition(k, j, Pending, items) { assert IsClaimable(items[k], at); }
    if SomeTimed(j, items) {
      var k :| k in items && k.job == j && IsTimed(items[k]);
      assert InPartition(k, j, items[k].state, items);
    }
  }

  /** The soonest of the two stored times is the earliest due time of all timed items. */
  lemma WakeupIsEarliest(j: JobId, found: WorkReads, items: map<ItemKey, Item>)
    requires IsFirst(found.nextRetry, j, RetryableFailure, items, None) && IsFirst(found.nextLease, j, Applying, items, None)
    requires found.nextRetry.Some? ==>
               found.nextRetry.value.nextAttemptAt == Some(DueTime(found.nextRetry.value)) == DueAt(found.nextRetry.value)
    requires found.nextLease.Some? ==>
               found.nextLease.value.holder.Some? && Some(found.nextLease.value.holder.value.expiresAt) == DueAt(found.nextLease.value)
    requires forall k | k in items && k.job == j && IsTimed(items[k]) :: DueAt(items[k]).Some?
    ensures NextWakeup(found).Some? <==> found.nextRetry.Some? || found.nextLease.Some?
    ensures NextWakeup(found).Some? ==> IsEarliest(NextWakeup(found).value, j, items)
  {
    hide DueAt;
    if NextWakeup(found).Some? {
      var t := NextWakeup(found).value;
      if found.nextRetry.Some? && found.nextRetry.value.nextAttemptAt == Some(t) {
        var k :| InPartition(k, j, RetryableFailure, items) && items[k] == found.nextRetry.value;
        assert IsTimed(items[k]);
      } else {
        var k :| InPartition(k, j, Applying, items) && items[k] == found.nextLease.value;
        assert IsTimed(items[k]);
      }
      forall k | k in items && k.job == j && IsTimed(items[k]) ensures t <= DueAt(items[k]).value {
        assert InPartition(k, j, items[k].state, items);
      }
    }
  }

  /** What the delay has to be: zero exactly when some item can be claimed now; otherwise
      the time until the first one can, kept between one second and fifteen minutes; and no delay
      when every open item waits for the provider. */
  predicate IsRightDelay(delay: Option<int>, j: JobId, items: map<ItemKey, Item>, found: WorkReads, at: int) {
    && (delay == Some(0) <==> SomeClaimable(j, items, at))
    && (!SomeClaimable(j, items, at) && SomeTimed(j, items) ==>
          && NextWakeup(found).Some? && IsEarliest(NextWakeup(found).value, j, items)
          && at < NextWakeup(found).value
          && delay == Some(if NextWakeup(found).value - at > 900 then 900 else NextWakeup(found).value - at))
    && (!SomeClaimable(j, items, at) && !SomeTimed(j, items) ==> delay == None)
  }

  lemma DelayIsEarliestWakeup(s: System, j: JobId, found: WorkReads, at: nat)
    requires Inv(s) && j in s.jobs && s.jobs[j].dryRun.Some? && 1 <= at <= MAX_EPOCH
    requires ExactReads(found, j, s.items, at) && NoneCanceling(j, s.items)
    ensures IsRightDelay(WorkDelay(s.jobs[j], found, at), j, s.items, found, at)
  {
    hide Inv;
    hide IsFirst;
    hide ExactReads;
    hide NextWakeup;
    hide IsEarliest;
    CurrentItemsAreOk(s);
    ReadFacts(j, found, s.items, at);
    TimedReads(found.nextRetry, found.dueRetry, j, RetryableFailure, s.items, at);
    TimedReads(found.nextLease, found.dueLease, j, Applying, s.items, at);
    PendingRead(found.pending, j, s.items);
    ClaimableByState(j, s.items, at);
    TimedItemsAreDue(j, s.items);
    WakeupIsEarliest(j, found, s.items);
    hide ItemOk;
    hide DueAt;
    if !SomeClaimable(j, s.items, at) {
      if SomeTimed(j, s.items) {
        EarliestIsLater(NextWakeup(found).value, j, s.items, at);
      } else {
        forall k | k in s.items && k.job == j ensures s.items[k].state != Pending && !IsTimed(s.items[k]) {
          assert !IsClaimable(s.items[k], at);
        }
        OpenItemsAwaitProvider(s, j);
      }
    }
  }

  lemma PendingRead(r: Option<Item>, j: JobId, items: map<ItemKey, Item>)
    requires IsFirst(r, j, Pending, items, None)
    ensures r.Some? <==> exists k :: InPartition(k, j, Pending, items)
  {
  }

  lemma TimedItemsAreDue(j: JobId, items: map<ItemKey, Item>)
    requires NoneCanceling(j, items) && forall k | k in items :: ItemOk(items[k])
    ensures forall k | k in items && k.job == j && IsTimed(items[k]) ::
              DueAt(items[k]) == if items[k].state == Applying && items[k].holder.Some?
                                 then Some(items[k].holder.value.expiresAt) else items[k].nextAttemptAt
    ensures forall k | k in items && k.job == j && IsTimed(items[k]) :: DueAt(items[k]).Some?
  {
    forall k | k in items && k.job == j && IsTimed(items[k])
      ensures DueAt(items[k]).Some?
              && DueAt(items[k]) == if items[k].state == Applying && items[k].holder.Some?
                                    then Some(items[k].holder.value.expiresAt) else items[k].nextAttemptAt
    {
      assert ItemOk(items[k]);
    }
  }

  lemma EarliestIsLater(t: int, j: JobId, items: map<ItemKey, Item>, at: int)
    requires IsEarliest(t, j, items) && !SomeClaimable(j, items, at)
    requires NoneCanceling(j, items) && forall k | k in items :: ItemOk(items[k])
    ensures at < t
  {
    var k :| k in items && k.job == j && IsTimed(items[k]) && DueAt(items[k]) == Some(t);
    assert ItemOk(items[k]) && !IsClaimable(items[k], at);
  }

  lemma CurrentItemsAreOk(s: System)
    requires Inv(s)
    ensures forall k | k in s.items :: ItemOk(s.items[k])
  {
    hide Total;
    hide CountersAgree;
    hide LeaseBacked;
    forall k | k in s.items ensures ItemOk(s.items[k]) { assert (k, s.items[k]) in s.itemCopies; }
  }

  /** A due query answers with the same row as the query without a bound, or with none. */
  lemma DueIsFirst(rows: seq<Row>, at: nat)
    requires InKeyOrder(rows) && at <= MAX_EPOCH && forall row | row in rows :: IsRow(row)
    ensures First(Query(rows, 1, DueBound(Some(at)))).Some? ==>
              First(Query(rows, 1, DueBound(Some(at)))) == First(Query(rows, 1, None))
  {
    QueryReturnsFirstDue(rows, 1, Some(at));
    QueryReturnsFirstDue(rows, 1, None);
  }

  lemma DueLeaseIsNextLease(j: JobId, found: WorkReads, items: map<ItemKey, Item>, at: nat)
    requires ExactReads(found, j, items, at) && at <= MAX_EPOCH
    ensures found.dueLease.Some? ==> found.dueLease == found.nextLease
  {
    var pending, retries, leases :|
      && Lists(pending, j, Pending, items) && Lists(retries, j, RetryableFailure, items) && Lists(leases, j, Applying, items)
      && found == WorkReads(First(Query(pending, 1, None)),
                            First(Query(retries, 1, DueBound(Some(at)))), First(Query(retries, 1, None)),
                            First(Query(leases, 1, DueBound(Some(at)))), First(Query(leases, 1, None)));
    hide Query;
    hide First;
    hide DueBound;
    DueIsFirst(leases, at);
  }

  /** An answer that cannot be loaded is an applying item with a reason. */
  lemma AnswerLoadsExactly(r: Option<Item>, j: JobId, state: ItemState, items: map<ItemKey, Item>, at: Option<nat>)
    requires IsFirst(r, j, state, items, at) && forall k | k in items :: ItemOk(items[k])
    ensures Loads(r) <==> !(r.Some? && state == Applying && r.value.reason.Some?)
  {
    hide ItemOk;
    hide ValidItem;
    if r.Some? {
      var k :| InPartition(k, j, state, items) && items[k] == r.value;
      RefusedItemHasReason(items[k]);
    }
  }

  /** With exact reads the step raises on its answers exactly when the applying item whose lease ends
      first has a reason, as a re-claimed retry does. */
  lemma ReadsLoadExactly(s: System, j: JobId, found: WorkReads, at: nat)
    requires Inv(s) && ExactReads(found, j, s.items, at) && 1 <= at <= MAX_EPOCH
    ensures ReadsLoad(found) <==> !(found.nextLease.Some? && found.nextLease.value.reason.Some?)
  {
    hide Inv;
    hide IsFirst;
    hide Loads;
    hide ItemOk;
    CurrentItemsAreOk(s);
    ReadFacts(j, found, s.items, at);
    DueLeaseIsNextLease(j, found, s.items, at);
    hide ExactReads;
    AnswerLoadsExactly(found.pending, j, Pending, s.items, None);
    AnswerLoadsExactly(found.dueRetry, j, RetryableFailure, s.items, Some(at));
    AnswerLoadsExactly(found.nextRetry, j, RetryableFailure, s.items, None);
    AnswerLoadsExactly(found.dueLease, j, Applying, s.items, Some(at));
    AnswerLoadsExactly(found.nextLease, j, Applying, s.items, None);
  }

  /** For every running job of every run, with exact reads: the answers can be loaded exactly unless the
      applying item whose lease ends first is a re-claimed retry, and then the next look comes when the
      first item needs it; the two-second fallback is never taken. */
  lemma ExecutionWakesOnTime(ops: seq<Op>, j: JobId, found: WorkReads, at: nat)
    requires var s := Run(EMPTY, ops);
             j in s.jobs && s.jobs[j].state == Running && ExactReads(found, j, s.items, at)
    requires 1 <= at <= MAX_EPOCH
    ensures ReadsLoad(found) <==> !(found.nextLease.Some? && found.nextLease.value.reason.Some?)
    ensures var s := Run(EMPTY, ops); IsRightDelay(WorkDelay(s.jobs[j], found, at), j, s.items, found, at)
  {
    hide Run;
    hide Inv;
    hide ExactReads;
    hide WorkDelay;
    hide IsRightDelay;
    var s := Run(EMPTY, ops);
    EmptyInv();
    RunKeepsInv(EMPTY, ops);
    RunKeepsDueTimes(EMPTY, ops);
    JobIsOk(s, j);
    ReadsLoadExactly(s, j, found, at);
    hide ReadsLoad;
    DelayIsEarliestWakeup(s, j, found, at);
  }
}
