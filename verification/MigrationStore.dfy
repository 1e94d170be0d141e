/**
 The store's operations as a worker runs them: reads, local computation and conditional writes,
 with other workers running in between. Every method is proved to be a run of the atomic steps of
 the protocol, so whatever holds of all runs holds of the table the store leaves behind.
 */
module MigrationStore {
  import opened Types
  import opened MigrationRecords
  import opened MigrationProtocol
  import opened MigrationInvariant
  import opened MigrationSteps
  import opened WorkIndex

  // ---------------------------------------------------------------- runs with an author

  /** A step of this worker or of another one. */
  datatype Step = Mine(op: Op) | Other(op: Op)

  function Ops(steps: seq<Step>): (ops: seq<Op>)
    ensures |ops| == |steps|
  {
    if steps == [] then [] else [steps[0].op] + Ops(steps[1..])
  }

  function Others(ops: seq<Op>): (steps: seq<Step>) {
    if ops == [] then [] else [Other(ops[0])] + Others(ops[1..])
  }

  /** This worker's steps of a run that committed, in order. */
  function Committed(s: System, steps: seq<Step>): seq<Op>
    decreases |steps|
  {
    if steps == [] then [] else
    var first := if steps[0].Mine? && Commits(s, steps[0].op) then [steps[0].op] else [];
    first + Committed(Apply(s, steps[0].op), steps[1..])
  }

  lemma {:induction false} RunAppend(s: System, a: seq<Op>, b: seq<Op>)
    ensures Run(s, a + b) == Run(Run(s, a), b)
    decreases |a|
  {
    hide Apply;
    if a == [] {
      assert a + b == b;
    } else {
      assert (a + b)[0] == a[0] && (a + b)[1..] == a[1..] + b;
      RunAppend(Apply(s, a[0]), a[1..], b);
    }
  }

  lemma {:induction false} StepsAppend(s: System, a: seq<Step>, b: seq<Step>)
    ensures Run(s, Ops(a + b)) == Run(Run(s, Ops(a)), Ops(b))
    ensures Committed(s, a + b) == Committed(s, a) + Committed(Run(s, Ops(a)), b)
    decreases |a|
  {
    hide Apply;
    hide Commits;
    if a == [] {
      assert a + b == b;
    } else {
      assert (a + b)[0] == a[0] && (a + b)[1..] == a[1..] + b;
      assert Ops(a) == [a[0].op] + Ops(a[1..]);
      StepsAppend(Apply(s, a[0].op), a[1..], b);
    }
  }

  lemma {:induction false} OthersAreNotMine(s: System, ops: seq<Op>)
    ensures Ops(Others(ops)) == ops && Committed(s, Others(ops)) == []
    ensures forall x | x in Others(ops) :: x.Other?
    decreases |ops|
  {
    hide Apply;
    hide Commits;
    if ops == [] {
    } else {
      var steps, rest := Others(ops), Others(ops[1..]);
      assert steps == [Other(ops[0])] + rest && steps[1..] == rest;
      OthersAreNotMine(Apply(s, ops[0]), ops[1..]);
      assert Ops(steps) == [ops[0]] + Ops(rest);
      assert forall x | x in steps :: x == Other(ops[0]) || x in rest;
    }
  }

  lemma OneStep(s: System, x: Step)
    ensures Run(s, Ops([x])) == Apply(s, x.op)
    ensures Committed(s, [x]) == if x.Mine? && Commits(s, x.op) then [x.op] else []
  {
    hide Apply;
    hide Commits;
    var t := Apply(s, x.op);
    assert Ops([x]) == [x.op];
    assert Run(s, [x.op]) == Run(t, []) == t;
    assert [x][1..] == [];
  }

  lemma NoSteps(s: System)
    ensures Run(s, Ops([])) == s && Committed(s, []) == [] && ClaimedRows([]) == []
  {
  }

  // ---------------------------------------------------------------- turns of the others

  /** Some turn of the others offers an operation. */
  ghost predicate Offers(turn: nat -> seq<Op>, op: Op) { exists n: nat :: op in turn(n) }

  /** Every step of another worker in a trace is one that a turn offers. */
  ghost predicate Offered(steps: seq<Step>, turn: nat -> seq<Op>) {
    forall x | x in steps && x.Other? :: Offers(turn, x.op)
  }

  /** Nobody else runs. */
  ghost predicate Quiet(turn: nat -> seq<Op>) { forall n: nat :: turn(n) == [] }

  lemma OfferedAppend(a: seq<Step>, b: seq<Step>, turn: nat -> seq<Op>)
    requires Offered(a, turn) && Offered(b, turn)
    ensures Offered(a + b, turn)
  {
  }

  lemma OfferedMine(steps: seq<Step>, op: Op, turn: nat -> seq<Op>)
    requires Offered(steps, turn)
    ensures Offered(steps + [Mine(op)], turn)
  {
  }

  lemma {:induction false} OthersComeFrom(ops: seq<Op>)
    ensures forall x | x in Others(ops) :: x.op in ops
    decreases |ops|
  {
    if ops == [] {
    } else {
      OthersComeFrom(ops[1..]);
    }
  }

  lemma TurnIsOffered(turn: nat -> seq<Op>, n: nat)
    ensures Offered(Others(turn(n)), turn)
  {
    OthersComeFrom(turn(n));
    forall x | x in Others(turn(n)) ensures Offers(turn, x.op) { assert x.op in turn(n); }
  }

  /** A call that starts at a later turn. */
  lemma LaterTurns(turn: nat -> seq<Op>, later: nat -> seq<Op>, d: nat, steps: seq<Step>)
    requires forall n: nat :: later(n) == turn(n + d)
    ensures Offered(steps, later) ==> Offered(steps, turn)
    ensures Quiet(turn) ==> Quiet(later)
  {
    if Offered(steps, later) {
      forall x | x in steps && x.Other? ensures Offers(turn, x.op) {
        var n: nat :| x.op in later(n);
        assert x.op in turn(n + d);
      }
    }
  }

  // ---------------------------------------------------------------- what a read remembers

  /** Every current row is among the recorded versions, and every version is of a row that exists. */
  predicate Recorded(s: System) {
    && (forall j | j in s.jobs :: (j, s.jobs[j]) in s.jobCopies)
    && (forall k | k in s.items :: (k, s.items[k]) in s.itemCopies)
    && (forall c | c in s.jobCopies :: c.0 in s.jobs)
    && (forall c | c in s.itemCopies :: c.0 in s.items && c.0.job in s.jobs)
  }

  /** Versions are never forgotten and the clock never goes back. */
  predicate Later(s: System, t: System) {
    s.jobCopies <= t.jobCopies && s.itemCopies <= t.itemCopies && s.now <= t.now
  }

  lemma PutJobIsLater(s: System, j: JobId, job: Job)
    requires Recorded(s)
    ensures Recorded(PutJob(s, j, job)) && Later(s, PutJob(s, j, job))
  {
  }

  lemma PutItemIsLater(s: System, k: ItemKey, item: Item)
    requires Recorded(s) && k.job in s.jobs
    ensures Recorded(PutItem(s, k, item)) && Later(s, PutItem(s, k, item))
  {
  }

  lemma LeaseRowsAreNotRecorded(s: System, slots: map<SlotKey, Lease>, claims: map<ClaimKey, Lease>)
    requires Recorded(s)
    ensures Recorded(s.(slots := slots, claims := claims)) && Later(s, s.(slots := slots, claims := claims))
  {
  }

  lemma CommitFacts(s: System, op: Op)
    requires Commits(s, op)
    ensures op.PutPreviewItem? || op.RejectPreviewItem? || op.ClaimItem? || op.FinishItem? ==> op.k.job in s.jobs
    ensures op.PutPreviewItem? ==> AddPreviewItem(op.readJob.preview, op.item).Some?
    ensures op.RejectPreviewItem? ==>
              ReplacePreviewItem(op.readJob.preview, op.readItem, RejectedItem(op.readItem, op.reason, op.digest)).Some?
    ensures !(op.PutPreviewItem? || op.RejectPreviewItem? || op.ClaimItem? || op.FinishItem? || op.CreateJob? || op.Tick?)
        ==> JobUpdate(op).Some?
    ensures op.FinishItem? ==> FinishValueOf(op.caller).Some?
  {
    hide AddPreviewItem;
    hide ReplacePreviewItem;
    hide JobUpdate;
    hide FinishValueOf;
  }

  lemma ClaimIsLater(s: System, k: ItemKey, readJob: Job, readItem: Item, r: ClaimRequest)
    requires Recorded(s) && k.job in s.jobs
    ensures var t := ClaimEffect(s, k, readJob, readItem, r); Recorded(t) && Later(s, t)
  {
    hide Recorded;
    var lease := Lease(k, ClaimedAttempt(readItem), r.now + r.leaseSeconds);
    var s1 := PutItem(s, k, ClaimedItem(readItem, r));
    var s2 := s1.(slots := s1.slots[SlotKey(r.account, r.slot) := lease],
                  claims := s1.claims[ClaimKey(r.account, k.subscription) := lease]);
    PutItemIsLater(s, k, ClaimedItem(readItem, r));
    LeaseRowsAreNotRecorded(s1, s2.slots, s2.claims);
    PutJobIsLater(s2, k.job, CanaryClaimedJob(readJob));
  }

  lemma FinishIsLater(s: System, k: ItemKey, readJob: Job, readItem: Item, v: FinishValue)
    requires Recorded(s) && k.job in s.jobs
    ensures var t := FinishEffect(s, k, readJob, readItem, v); Recorded(t) && Later(s, t)
  {
    hide Recorded;
    hide ChangesMetrics;
    hide MetricsJob;
    hide FinishedItem;
    var updated := FinishedItem(readItem, v);
    var s1 := PutItem(s, k, updated);
    var s2 := if readItem.holder.None? then s1
              else s1.(claims := s1.claims - {ClaimKey(readItem.holder.value.account, k.subscription)},
                       slots := s1.slots - {SlotKey(readItem.holder.value.account, readItem.holder.value.slot)});
    PutItemIsLater(s, k, updated);
    LeaseRowsAreNotRecorded(s1, s2.slots, s2.claims);
    PutJobIsLater(s2, k.job, MetricsJob(readJob, readItem, updated));
  }

  lemma ApplyIsLater(s: System, op: Op)
    requires Recorded(s)
    ensures Recorded(Apply(s, op)) && Later(s, Apply(s, op))
  {
    hide Recorded;
    hide Later;
    hide Commits;
    hide ClaimEffect;
    hide FinishEffect;
    hide AddPreviewItem;
    hide ReplacePreviewItem;
    hide JobUpdate;
    hide PutJob;
    hide PutItem;
    if Commits(s, op) {
      CommitFacts(s, op);
      var t := Effect(s, op);
      match op
      case PutPreviewItem(k, readJob, item) =>
        PutItemIsLater(s, k, item);
        var s1 := PutItem(s, k, item);
        PutJobIsLater(s1, k.job, readJob.(preview := AddPreviewItem(readJob.preview, item).value));
        LaterIsTransitive(s, s1, t);
      case RejectPreviewItem(k, readJob, readItem, reason, digest) =>
        var updated := RejectedItem(readItem, reason, digest);
        PutItemIsLater(s, k, updated);
        var s1 := PutItem(s, k, updated);
        PutJobIsLater(s1, k.job, readJob.(preview := ReplacePreviewItem(readJob.preview, readItem, updated).value));
        LaterIsTransitive(s, s1, t);
      case ClaimItem(k, readJob, readItem, request) => ClaimIsLater(s, k, readJob, readItem, request);
      case FinishItem(k, readJob, readItem, caller) => FinishIsLater(s, k, readJob, readItem, FinishValueOf(caller).value);
      case Tick(seconds) => ClockIsNotRecorded(s, seconds);
      case CreateJob(j, canarySize, accountConcurrency, policy, createdAt) =>
        PutJobIsLater(s, j, NewJob(canarySize, accountConcurrency, policy, createdAt));
      case _ => PutJobIsLater(s, JobUpdate(op).value.0, JobUpdate(op).value.2);
    } else {
      NothingIsLater(s);
    }
  }

  lemma ClockIsNotRecorded(s: System, seconds: nat)
    requires Recorded(s)
    ensures Recorded(s.(now := s.now + seconds)) && Later(s, s.(now := s.now + seconds))
  {
  }

  lemma NothingIsLater(s: System)
    ensures Later(s, s)
  {
  }

  lemma LaterIsTransitive(s: System, t: System, u: System)
    requires Later(s, t) && Later(t, u)
    ensures Later(s, u)
  {
  }

  lemma {:induction false} RunIsLater(s: System, ops: seq<Op>)
    requires Recorded(s)
    ensures Recorded(Run(s, ops)) && Later(s, Run(s, ops))
    decreases |ops|
  {
    hide Apply;
    hide Recorded;
    if ops == [] {
    } else {
      ApplyIsLater(s, ops[0]);
      RunIsLater(Apply(s, ops[0]), ops[1..]);
    }
  }

  lemma InvIsRecorded(s: System)
    requires Inv(s)
    ensures Recorded(s)
  {
    hide CountersAgree;
    hide LeaseBacked;
    hide JobOk;
    hide JobFollows;
    hide ItemOk;
    hide ItemFollows;
  }

  lemma FoundIsCurrent(s: System, j: JobId)
    ensures JobRead(s, j).Found? <==> j in s.jobs && ValidJob(s.jobs[j])
    ensures JobRead(s, j).Found? ==> JobRead(s, j).value == s.jobs[j]
  {
    hide ValidJob;
  }

  lemma LoadedJobIsCopy(s: System, j: JobId)
    requires Inv(s) && j in s.jobs
    ensures (j, s.jobs[j]) in s.jobCopies
  {
    hide Inv;
    InvIsRecorded(s);
  }

  lemma LoadedItemIsCopy(s: System, k: ItemKey)
    requires Inv(s) && k in s.items
    ensures (k, s.items[k]) in s.itemCopies
  {
    hide Inv;
    InvIsRecorded(s);
  }

  // ---------------------------------------------------------------- results

  /** A store call ends normally or raises. */
  datatype Outcome = Done | Conflict

  /** A load finds no row, raises on a row its validator refuses, or returns the row. */
  datatype Read<T> = Absent | Unreadable | Found(value: T)

  function JobRead(s: System, j: JobId): Read<Job> {
    if j !in s.jobs then Absent else if ValidJob(s.jobs[j]) then Found(s.jobs[j]) else Unreadable
  }

  function ItemRead(s: System, k: ItemKey): Read<Item> {
    if k !in s.items then Absent else if ValidItem(s.items[k]) then Found(s.items[k]) else Unreadable
  }

  datatype Continuation = Stop | Refused | LookAgain(job: Job, seconds: int)

  /** What one worker started for an execution message claims with. */
  datatype Batch = Batch(worker: Job, account: AccountKey, now: int, leaseSeconds: int)

  predicate IsCanaryBatch(b: Batch) { !b.worker.mutationStarted }

  function RequestOf(b: Batch, slot: int): ClaimRequest {
    ClaimRequest(b.account, slot, b.now, b.leaseSeconds, b.worker.revision, IsCanaryBatch(b))
  }

  function LimitOf(b: Batch): int { if IsCanaryBatch(b) then b.worker.canarySize else b.worker.accountConcurrency }

  /** A claim of this batch on one of the items its queries returned. */
  predicate IsClaimOf(op: Op, j: JobId, b: Batch, page: seq<(ItemKey, Item)>) {
    && op.ClaimItem? && op.k.job == j && (op.k, op.readItem) in page
    && op.request == RequestOf(b, op.request.slot) && 0 <= op.request.slot < b.worker.accountConcurrency
  }

  function ClaimedRows(ops: seq<Op>): seq<(ItemKey, Item)> {
    if ops == [] then [] else
    (if ops[0].ClaimItem? then [(ops[0].k, ClaimedItem(ops[0].readItem, ops[0].request))] else []) + ClaimedRows(ops[1..])
  }

  lemma {:induction false} ClaimedRowsAppend(a: seq<Op>, b: seq<Op>)
    ensures ClaimedRows(a + b) == ClaimedRows(a) + ClaimedRows(b)
    decreases |a|
  {
    hide ClaimedItem;
    if a == [] {
      assert a + b == b;
    } else {
      assert (a + b)[0] == a[0] && (a + b)[1..] == a[1..] + b;
      ClaimedRowsAppend(a[1..], b);
    }
  }

  lemma ClaimedRow(op: Op)
    requires op.ClaimItem?
    ensures ClaimedRows([op]) == [(op.k, ClaimedItem(op.readItem, op.request))]
  {
    hide ClaimedItem;
    assert ClaimedRows([op][1..]) == [];
  }

  /** Rows an index returns when it lags behind nothing: claimable, each item once. */
  predicate AreFresh(rows: seq<(ItemKey, Item)>, at: int) {
    && (forall x | x in rows :: IsClaimable(x.1, at))
    && (forall a, b | 0 <= a < b < |rows| :: rows[a].0 != rows[b].0)
  }

  /** The item of every claimable row is on the page. */
  predicate KeepsClaimable(rows: seq<(ItemKey, Item)>, at: int, page: seq<(ItemKey, Item)>) {
    forall x | x in rows && IsClaimable(x.1, at) :: exists y :: y in page && y.0 == x.0
  }

  predicate HasItem(page: seq<(ItemKey, Item)>, k: ItemKey) { exists y :: y in page && y.0 == k }

  predicate DistinctItems(page: seq<(ItemKey, Item)>) {
    forall a, b | 0 <= a < b < |page| :: page[a].0 != page[b].0
  }

  /** A page after the claimable rows of new items of one answer. */
  function Picked(page: seq<(ItemKey, Item)>, answer: seq<(ItemKey, Item)>, at: int): seq<(ItemKey, Item)>
    decreases |answer|
  {
    if answer == [] then page
    else
      var next := if !HasItem(page, answer[0].0) && IsClaimable(answer[0].1, at) then page + [answer[0]] else page;
      Picked(next, answer[1..], at)
  }

  /** The next answer, asked for as many rows as the page still has room for. */
  function PickedUpTo(page: seq<(ItemKey, Item)>, answer: seq<(ItemKey, Item)>, at: int, limit: int): seq<(ItemKey, Item)> {
    if limit <= |page| then page else Picked(page, AskedRows(page, answer, limit), at)
  }

  /** The rows of the next answer that are asked for, and loaded. */
  function AskedRows(page: seq<(ItemKey, Item)>, answer: seq<(ItemKey, Item)>, limit: int): seq<(ItemKey, Item)> {
    if limit <= |page| then [] else answer[..if |answer| < limit - |page| then |answer| else limit - |page|]
  }

  predicate AnswerLoads(page: seq<(ItemKey, Item)>, answer: seq<(ItemKey, Item)>, limit: int) {
    forall x | x in AskedRows(page, answer, limit) :: ValidItem(x.1)
  }

  /** All rows the three queries return can be loaded. */
  predicate QueriesLoad(applying: seq<(ItemKey, Item)>, retries: seq<(ItemKey, Item)>, pending: seq<(ItemKey, Item)>, at: int, limit: int) {
    var first := PickedUpTo([], applying, at, limit);
    var second := PickedUpTo(first, retries, at, limit);
    AnswerLoads([], applying, limit) && AnswerLoads(first, retries, limit) && AnswerLoads(second, pending, limit)
  }

  lemma {:induction false} PickedRows(page: seq<(ItemKey, Item)>, answer: seq<(ItemKey, Item)>, at: int)
    requires DistinctItems(page)
    ensures var r := Picked(page, answer, at);
            && page <= r && |r| <= |page| + |answer| && DistinctItems(r)
            && (forall x | x in r :: x in page || (x in answer && IsClaimable(x.1, at)))
            && KeepsClaimable(answer, at, r)
    decreases |answer|
  {
    hide IsClaimable;
    if answer == [] {
    } else {
      var next := if !HasItem(page, answer[0].0) && IsClaimable(answer[0].1, at) then page + [answer[0]] else page;
      NextIsDistinct(page, answer[0]);
      PickedRows(next, answer[1..], at);
      var r := Picked(page, answer, at);
      assert r == Picked(next, answer[1..], at);
      assert next <= r;
      if IsClaimable(answer[0].1, at) {
        assert HasItem(next, answer[0].0) by { if next != page { assert answer[0] in next; } }
        var y :| y in next && y.0 == answer[0].0;
        assert y in r;
      }
      forall x | x in answer && IsClaimable(x.1, at) ensures HasItem(r, x.0) {
        if x != answer[0] { assert x in answer[1..]; }
      }
    }
  }

  lemma NextIsDistinct(page: seq<(ItemKey, Item)>, row: (ItemKey, Item))
    requires DistinctItems(page)
    ensures !HasItem(page, row.0) ==> DistinctItems(page + [row])
  {
    if !HasItem(page, row.0) {
      forall a | 0 <= a < |page| ensures page[a].0 != row.0 { assert page[a] in page; }
    }
  }

  lemma {:induction false} PickedFresh(page: seq<(ItemKey, Item)>, answer: seq<(ItemKey, Item)>, at: int)
    requires AreFresh(page + answer, at)
    ensures Picked(page, answer, at) == page + answer
    decreases |answer|
  {
    hide IsClaimable;
    if answer == [] {
      assert page + answer == page;
    } else {
      var rows := page + answer;
      assert rows[|page|] == answer[0] && rows[|page|] in rows;
      assert !HasItem(page, answer[0].0) by {
        forall y | y in page ensures y.0 != answer[0].0 {
          var a :| 0 <= a < |page| && page[a] == y;
          assert rows[a] == y;
        }
      }
      assert (page + [answer[0]]) + answer[1..] == rows;
      PickedFresh(page + [answer[0]], answer[1..], at);
    }
  }

  /** Fresh rows are picked in order. */
  lemma FreshAnswerIsPicked(before: seq<(ItemKey, Item)>, page: seq<(ItemKey, Item)>, answer: seq<(ItemKey, Item)>, at: int, limit: int)
    requires 1 <= limit && |page| <= limit && |page| <= |before| && AreFresh(before + answer, at)
    requires page == before[..if |before| < limit then |before| else limit]
    ensures var rows := before + answer;
            PickedUpTo(page, answer, at, limit) == rows[..if |rows| < limit then |rows| else limit]
  {
    hide IsClaimable;
    hide Picked;
    hide AreFresh;
    var rows := before + answer;
    if |page| < limit {
      var cut := AskedRows(page, answer, limit);
      assert page == before && rows[..|before| + |cut|] == page + cut;
      FreshPrefix(rows, at, |before| + |cut|);
      PickedFresh(page, cut, at);
    } else {
      assert rows[..limit] == before[..limit];
    }
  }

  /** While all rows fit, every claimable row of the answer gets onto the page or is on it. */
  lemma AnswerIsKept(before: seq<(ItemKey, Item)>, page: seq<(ItemKey, Item)>, answer: seq<(ItemKey, Item)>, at: int, limit: int)
    requires 1 <= limit && DistinctItems(page) && |page| <= |before| && |before| + |answer| <= limit && KeepsClaimable(before, at, page)
    ensures KeepsClaimable(before + answer, at, PickedUpTo(page, answer, at, limit))
  {
    hide IsClaimable;
    hide Picked;
    var rows, r := before + answer, PickedUpTo(page, answer, at, limit);
    PickedRows(page, answer, at);
    assert |page| < limit ==> AskedRows(page, answer, limit) == answer;
    assert |page| == limit ==> answer == [];
    forall x | x in rows && IsClaimable(x.1, at) ensures exists y :: y in r && y.0 == x.0 {
      if x in before {
        var y :| y in page && y.0 == x.0;
        assert y in r;
      }
    }
  }

  /** One answer in its place among the rows. */
  lemma AnswerIsPicked(before: seq<(ItemKey, Item)>, page: seq<(ItemKey, Item)>, answer: seq<(ItemKey, Item)>, at: int, limit: int)
    requires 1 <= limit && DistinctItems(page) && |page| <= limit && |page| <= |before|
    requires AreFresh(before, at) ==> page == before[..if |before| < limit then |before| else limit]
    requires |before| <= limit ==> KeepsClaimable(before, at, page)
    ensures var r := PickedUpTo(page, answer, at, limit); var rows := before + answer;
            && DistinctItems(r) && |r| <= limit && |r| <= |rows|
            && (forall x | x in r :: x in page || (x in AskedRows(page, answer, limit) && x in answer && IsClaimable(x.1, at)))
            && (AreFresh(rows, at) ==> r == rows[..if |rows| < limit then |rows| else limit])
            && (|rows| <= limit ==> KeepsClaimable(rows, at, r))
  {
    hide IsClaimable;
    hide Picked;
    hide AreFresh;
    hide KeepsClaimable;
    var rows := before + answer;
    if |page| < limit { PickedRows(page, AskedRows(page, answer, limit), at); }
    if AreFresh(rows, at) {
      FreshPrefix(rows, at, |before|);
      assert rows[..|before|] == before;
      FreshAnswerIsPicked(before, page, answer, at, limit);
    }
    if |rows| <= limit { AnswerIsKept(before, page, answer, at, limit); }
  }

  lemma PickedLoad(page: seq<(ItemKey, Item)>, answer: seq<(ItemKey, Item)>, at: int, limit: int)
    requires DistinctItems(page) && AnswerLoads(page, answer, limit)
    ensures forall x | x in PickedUpTo(page, answer, at, limit) :: x in page || ValidItem(x.1)
  {
    hide ValidItem;
    hide IsClaimable;
    hide Picked;
    if |page| < limit { PickedRows(page, AskedRows(page, answer, limit), at); }
  }

  lemma FreshPrefix(rows: seq<(ItemKey, Item)>, at: int, n: nat)
    requires AreFresh(rows, at) && n <= |rows|
    ensures AreFresh(rows[..n], at)
  {
    hide IsClaimable;
  }

  // ---------------------------------------------------------------- what a call does on its own

  predicate CanClaim(s: System, j: JobId, b: Batch, k: ItemKey, item: Item, slot: int) {
    j in s.jobs && Commits(s, ClaimItem(k, s.jobs[j], item, RequestOf(b, slot)))
  }

  /** The lowest slot from which an item can be claimed. */
  function SlotFor(s: System, j: JobId, b: Batch, k: ItemKey, item: Item, slot: nat): Option<nat>
    decreases if slot < b.worker.accountConcurrency then b.worker.accountConcurrency - slot else 0
  {
    if slot >= b.worker.accountConcurrency then None
    else if CanClaim(s, j, b, k, item, slot) then Some(slot)
    else SlotFor(s, j, b, k, item, slot + 1)
  }

  /** The claims of a batch when nobody else runs: the items of the page in order, each in its lowest
      free slot, up to the limit; the call raises at the first item for which the job cannot be loaded. */
  function ClaimedPage(s: System, j: JobId, b: Batch, page: seq<(ItemKey, Item)>, room: int): (System, seq<(ItemKey, Item)>, bool)
    decreases |page|
  {
    if page == [] || room <= 0 then (s, [], true)
    else if MayClaim(page[0].1, b.now) && JobRead(s, j).Unreadable? then (s, [], false)
    else
      var (k, item) := page[0];
      var slot := if MayClaim(item, b.now) then SlotFor(s, j, b, k, item, 0) else None;
      if slot.None? || j !in s.jobs then ClaimedPage(s, j, b, page[1..], room)
      else
        var r := RequestOf(b, slot.value);
        var rest := ClaimedPage(Apply(s, ClaimItem(k, s.jobs[j], item, r)), j, b, page[1..], room - 1);
        (rest.0, [(k, ClaimedItem(item, r))] + rest.1, rest.2)
  }

  /** The tests a finish passes before its transaction. */
  predicate FinishReady(s: System, k: ItemKey, caller: Caller) {
    && k.job in s.jobs && k in s.items && ValidJob(s.jobs[k.job]) && ValidItem(s.items[k])
    && FinishValueOf(caller).Some? && MayFinishFrom(s.items[k].state)
    && s.items[k].attempts == FinishValueOf(caller).value.attempts
    && ValidItem(FinishedItem(s.items[k], FinishValueOf(caller).value))
  }

  /** The table after a finish computed from the current rows. */
  function FinishedBy(s: System, k: ItemKey, caller: Caller): System {
    if FinishReady(s, k, caller) then Apply(s, FinishItem(k, s.jobs[k.job], s.items[k], caller)) else s
  }

  predicate FinishSucceeds(s: System, k: ItemKey, caller: Caller) {
    && FinishReady(s, k, caller)
    && (|| Commits(s, FinishItem(k, s.jobs[k.job], s.items[k], caller))
        || s.items[k].state == FinishValueOf(caller).value.state)
  }

  predicate EndsItem(s: System, k: ItemKey, state: ItemState, reason: Option<Reason>) {
    (state == NeedsReview) == reason.Some? && ItemRead(s, k).Found? && !IsCancellationTerminal(s.items[k].state)
  }

  function EndedBy(s: System, k: ItemKey, worker: Job, state: ItemState, reason: Option<Reason>): System {
    if EndsItem(s, k, state, reason) then FinishedBy(s, k, CompleteCancellation(worker, s.items[k], state, reason)) else s
  }

  predicate EndSucceeds(s: System, k: ItemKey, worker: Job, state: ItemState, reason: Option<Reason>) {
    && (state == NeedsReview) == reason.Some? && ItemRead(s, k).Found?
    && (IsCancellationTerminal(s.items[k].state)
        || FinishSucceeds(s, k, CompleteCancellation(worker, s.items[k], state, reason)))
  }

  /** A retry of a cancellation that is well formed and meets its open item. */
  predicate RetryMeets(s: System, k: ItemKey, attempts: int, nextAttemptAt: Option<int>) {
    && 1 <= attempts <= MAX_ATTEMPTS && (attempts < MAX_ATTEMPTS) == nextAttemptAt.Some?
    && JobRead(s, k.job).Found? && s.jobs[k.job].state == Canceling && ItemRead(s, k).Found?
  }

  predicate IsStoredRetry(i: Item, attempts: int, nextAttemptAt: Option<int>) {
    i.cancellationAttempts == attempts && i.cancellationNextAttemptAt == nextAttemptAt
  }

  predicate IsNextRetry(i: Item, attempts: int) {
    !IsCancellationTerminal(i.state) && i.cancellationAttempts == attempts - 1
  }

  function RetriedBy(s: System, k: ItemKey, attempts: int, nextAttemptAt: Option<int>): System {
    if RetryMeets(s, k, attempts, nextAttemptAt) && IsNextRetry(s.items[k], attempts)
    then FinishedBy(s, k, RetryCancellation(s.jobs[k.job], s.items[k], attempts, nextAttemptAt)) else s
  }

  predicate RetrySucceeds(s: System, k: ItemKey, attempts: int, nextAttemptAt: Option<int>) {
    && RetryMeets(s, k, attempts, nextAttemptAt)
    && (|| IsCancellationTerminal(s.items[k].state)
        || IsStoredRetry(s.items[k], attempts, nextAttemptAt)
        || (IsNextRetry(s.items[k], attempts)
            && FinishSucceeds(s, k, RetryCancellation(s.jobs[k.job], s.items[k], attempts, nextAttemptAt))))
  }

  /** A webhook that asks nothing of an item: it is late, wants no state, or wants the stored one. */
  predicate AsksNothing(job: Job, i: Item, updateApplied: bool, sourceCount: nat, targetCount: nat, event: Event) {
    var target := WebhookTarget(job, i, updateApplied, sourceCount, targetCount);
    WebhookIsLate(job, i, event) || target.None? || (i.state == target.value.0 && i.reason == target.value.1)
  }

  function ReconciledBy(s: System, k: ItemKey, updateApplied: bool, sourceCount: nat, targetCount: nat, event: Event): System {
    if JobRead(s, k.job).Found? && ItemRead(s, k).Found? && WebhookMayFinish(s.items[k].state)
       && !AsksNothing(s.jobs[k.job], s.items[k], updateApplied, sourceCount, targetCount, event)
    then FinishedBy(s, k, WebhookUpdate(s.jobs[k.job], s.items[k], updateApplied, sourceCount, targetCount, event)) else s
  }

  predicate ReconcileSucceeds(s: System, k: ItemKey, updateApplied: bool, sourceCount: nat, targetCount: nat, event: Event) {
    && JobRead(s, k.job).Found? && ItemRead(s, k).Found?
    && (|| AsksNothing(s.jobs[k.job], s.items[k], updateApplied, sourceCount, targetCount, event)
        || !WebhookMayFinish(s.items[k].state)
        || FinishSucceeds(s, k, WebhookUpdate(s.jobs[k.job], s.items[k], updateApplied, sourceCount, targetCount, event)))
  }

  // ---------------------------------------------------------------- what a finish leaves, row by row

  /** A finish that is done has committed: the row it met in the wanted state was its own. */
  lemma DoneFinishCommits(s: System, k: ItemKey, caller: Caller)
    requires Inv(s) && FinishSucceeds(s, k, caller) && CallerCopies(s, k, caller) && CallerReadsAreValid(caller)
    ensures Commits(s, FinishItem(k, s.jobs[k.job], s.items[k], caller))
    ensures var t := FinishedBy(s, k, caller); k in t.items && t.items[k] == FinishedItem(s.items[k], FinishValueOf(caller).value)
  {
    hide Inv;
    hide ValidJob;
    hide ValidItem;
    hide FinishValueOf;
    hide FinishedItem;
    hide FinishCommits;
    hide FinishEffect;
    FinishedHasNoLease(s.items[k], FinishValueOf(caller).value);
    LoadedJobIsCopy(s, k.job);
    LoadedItemIsCopy(s, k);
    var job, item := s.jobs[k.job], s.items[k];
    if item.holder.None? { LeaselessFinishCommits(s, k, job, item, caller); }
    FinishStores(s, k, job, item, FinishValueOf(caller).value);
  }

  lemma LeaselessFinishCommits(s: System, k: ItemKey, job: Job, item: Item, caller: Caller)
    requires k.job in s.jobs && s.jobs[k.job] == job && k in s.items && s.items[k] == item && item.holder.None?
    requires (k.job, job) in s.jobCopies && (k, item) in s.itemCopies && CallerCopies(s, k, caller) && FinishValueOf(caller).Some?
    requires MayFinishFrom(item.state) && item.attempts == FinishValueOf(caller).value.attempts
    requires ValidItem(FinishedItem(item, FinishValueOf(caller).value))
    ensures FinishCommits(s, k, job, item, caller)
  {
    hide ValidItem;
    hide FinishValueOf;
    hide FinishedItem;
    hide ChangesMetrics;
    hide MayFinishFrom;
    hide CallerCopies;
  }

  lemma FinishStores(s: System, k: ItemKey, job: Job, item: Item, v: FinishValue)
    ensures var t := FinishEffect(s, k, job, item, v); k in t.items && t.items[k] == FinishedItem(item, v)
  {
    hide FinishedItem;
    hide ChangesMetrics;
    hide MetricsJob;
  }

  lemma FinishedHasNoLease(i: Item, v: FinishValue)
    requires ValidItem(i) && ValidItem(FinishedItem(i, v))
    ensures v.state != Applying && (i.holder.Some? ==> i.state == Applying)
  {
  }

  /** The row keeps everything but what a finish of an item always clears and what is named here. */
  predicate IsRewritten(was: Item, now: Item, state: ItemState, reason: Option<Reason>, event: Event) {
    if was.state == state && was.reason == reason then now == was
    else now == was.(state := state, reason := reason, holder := None, nextAttemptAt := None, lastEvent := Some(event))
  }

  predicate IsUntouchable(state: ItemState) {
    state == Pending || state == Reverted || state == Skipped || state == NeedsReview || state == PermanentFailure
  }

  /** What a webhook that is done leaves of the item row. Late webhooks and settled items change nothing.
      A canceling job has its item reverted exactly when the source price is back and the target price
      is gone. Elsewhere an applied update with only the target price applies the item, an expired one
      with only the source price expires it if it waits for the provider, and any other mix of prices
      is a drift. */
  predicate WebhookLeaves(job: Job, was: Item, now: Item, updateApplied: bool, sourceCount: nat, targetCount: nat, event: Event) {
    var onlySource, onlyTarget := sourceCount == 1 && targetCount == 0, sourceCount == 0 && targetCount == 1;
    if event.createdAt < job.createdAt || (was.lastEvent.Some? && event.createdAt < was.lastEvent.value.createdAt) then now == was
    else if IsUntouchable(was.state) then now == was
    else if job.state == Canceling then
      if onlySource then IsRewritten(was, now, Reverted, None, event)
      else IsRewritten(was, now, NeedsReview, Some("source-drift"), event)
    else if updateApplied && onlyTarget then IsRewritten(was, now, PendingUpdateApplied, None, event)
    else if !updateApplied && onlySource then
      if was.state == PendingPayment || was.state == PendingCustomerAction
      then IsRewritten(was, now, PendingUpdateExpired, Some("payment-failed"), event) else now == was
    else IsRewritten(was, now, NeedsReview, Some("source-drift"), event)
  }

  lemma WebhookValueLeaves(job: Job, was: Item, now: Item, updateApplied: bool, sourceCount: nat, targetCount: nat, event: Event)
    requires if AsksNothing(job, was, updateApplied, sourceCount, targetCount, event) || !WebhookMayFinish(was.state) then now == was
             else var v := FinishValueOf(WebhookUpdate(job, was, updateApplied, sourceCount, targetCount, event));
                  v.Some? && now == FinishedItem(was, v.value)
    ensures WebhookLeaves(job, was, now, updateApplied, sourceCount, targetCount, event)
  {
  }

  lemma DoneWebhookLeaves(s: System, k: ItemKey, updateApplied: bool, sourceCount: nat, targetCount: nat, event: Event)
    requires Inv(s) && ReconcileSucceeds(s, k, updateApplied, sourceCount, targetCount, event)
    ensures var t := ReconciledBy(s, k, updateApplied, sourceCount, targetCount, event);
            k in t.items && WebhookLeaves(s.jobs[k.job], s.items[k], t.items[k], updateApplied, sourceCount, targetCount, event)
  {
    hide Inv;
    hide ValidJob;
    hide ValidItem;
    hide FinishValueOf;
    hide FinishedItem;
    hide WebhookLeaves;
    hide AsksNothing;
    hide WebhookMayFinish;
    hide FinishedBy;
    hide FinishSucceeds;
    hide Commits;
    var job, was := s.jobs[k.job], s.items[k];
    var t := ReconciledBy(s, k, updateApplied, sourceCount, targetCount, event);
    if WebhookMayFinish(was.state) && !AsksNothing(job, was, updateApplied, sourceCount, targetCount, event) {
      LoadedJobIsCopy(s, k.job);
      LoadedItemIsCopy(s, k);
      var caller := WebhookUpdate(job, was, updateApplied, sourceCount, targetCount, event);
      WebhookAsks(job, was, updateApplied, sourceCount, targetCount, event);
      DoneFinishCommits(s, k, caller);
    }
    WebhookValueLeaves(job, was, t.items[k], updateApplied, sourceCount, targetCount, event);
  }

  lemma WebhookAsks(job: Job, item: Item, updateApplied: bool, sourceCount: nat, targetCount: nat, event: Event)
    requires WebhookMayFinish(item.state) && !AsksNothing(job, item, updateApplied, sourceCount, targetCount, event)
    ensures FinishValueOf(WebhookUpdate(job, item, updateApplied, sourceCount, targetCount, event)).Some?
  {
  }

  /** What an end of a cancellation that is done leaves of the item row. */
  predicate EndLeaves(was: Item, now: Item, state: ItemState, reason: Option<Reason>) {
    if IsCancellationTerminal(was.state) then now == was
    else now == was.(state := state, reason := reason, holder := None, nextAttemptAt := None, cancellationNextAttemptAt := None)
  }

  lemma EndValueLeaves(job: Job, was: Item, state: ItemState, reason: Option<Reason>)
    requires !IsCancellationTerminal(was.state) && FinishValueOf(CompleteCancellation(job, was, state, reason)).Some?
    ensures EndLeaves(was, FinishedItem(was, FinishValueOf(CompleteCancellation(job, was, state, reason)).value), state, reason)
  {
  }

  lemma DoneEndLeaves(s: System, k: ItemKey, worker: Job, state: ItemState, reason: Option<Reason>)
    requires Inv(s) && (k.job, worker) in s.jobCopies && EndSucceeds(s, k, worker, state, reason)
    ensures var t := EndedBy(s, k, worker, state, reason); k in t.items && EndLeaves(s.items[k], t.items[k], state, reason)
  {
    hide Inv;
    hide ValidJob;
    hide ValidItem;
    hide FinishValueOf;
    hide FinishedItem;
    hide FinishedBy;
    hide Commits;
    hide IsCancellationTerminal;
    if !IsCancellationTerminal(s.items[k].state) {
      LoadedItemIsCopy(s, k);
      DoneFinishCommits(s, k, CompleteCancellation(worker, s.items[k], state, reason));
      EndValueLeaves(worker, s.items[k], state, reason);
    }
  }

  /** What a counted cancellation failure that is done leaves of the item row. */
  predicate RetryLeaves(was: Item, now: Item, attempts: int, nextAttemptAt: Option<int>) {
    if IsCancellationTerminal(was.state) then now == was
    else if attempts < MAX_ATTEMPTS then now == was.(cancellationAttempts := attempts, cancellationNextAttemptAt := nextAttemptAt)
    else (was.cancellationAttempts == attempts && was.cancellationNextAttemptAt.None? && now == was)
         || now == was.(state := NeedsReview, reason := Some("retry-exhausted"), holder := None, nextAttemptAt := None,
                        cancellationAttempts := attempts, cancellationNextAttemptAt := None)
  }

  lemma RetryValueLeaves(job: Job, was: Item, attempts: int, nextAttemptAt: Option<int>)
    requires ValidItem(was) && FinishValueOf(RetryCancellation(job, was, attempts, nextAttemptAt)).Some?
    requires var n := FinishedItem(was, FinishValueOf(RetryCancellation(job, was, attempts, nextAttemptAt)).value); ValidItem(n)
    ensures RetryLeaves(was, FinishedItem(was, FinishValueOf(RetryCancellation(job, was, attempts, nextAttemptAt)).value), attempts, nextAttemptAt)
  {
  }

  lemma DoneRetryLeaves(s: System, k: ItemKey, attempts: int, nextAttemptAt: Option<int>)
    requires Inv(s) && RetrySucceeds(s, k, attempts, nextAttemptAt)
    ensures var t := RetriedBy(s, k, attempts, nextAttemptAt); k in t.items && RetryLeaves(s.items[k], t.items[k], attempts, nextAttemptAt)
  {
    hide Inv;
    hide ValidJob;
    hide ValidItem;
    hide FinishValueOf;
    hide FinishedItem;
    hide FinishedBy;
    hide Commits;
    hide IsCancellationTerminal;
    if IsNextRetry(s.items[k], attempts) {
      LoadedJobIsCopy(s, k.job);
      LoadedItemIsCopy(s, k);
      DoneFinishCommits(s, k, RetryCancellation(s.jobs[k.job], s.items[k], attempts, nextAttemptAt));
      RetryValueLeaves(s.jobs[k.job], s.items[k], attempts, nextAttemptAt);
    }
  }

  lemma RefusedFinishIsNothing(s: System, k: ItemKey, caller: Caller)
    requires !FinishSucceeds(s, k, caller)
    ensures FinishedBy(s, k, caller) == s
  {
    hide Commits;
  }

  /** The three calls, done or refused. */
  lemma WebhookOutcome(s: System, k: ItemKey, updateApplied: bool, sourceCount: nat, targetCount: nat, event: Event)
    requires Inv(s)
    ensures var t := ReconciledBy(s, k, updateApplied, sourceCount, targetCount, event);
            if ReconcileSucceeds(s, k, updateApplied, sourceCount, targetCount, event)
            then k in t.items && WebhookLeaves(s.jobs[k.job], s.items[k], t.items[k], updateApplied, sourceCount, targetCount, event)
            else t == s
  {
    hide Inv;
    hide WebhookLeaves;
    hide AsksNothing;
    hide FinishSucceeds;
    hide FinishedBy;
    if ReconcileSucceeds(s, k, updateApplied, sourceCount, targetCount, event) {
      DoneWebhookLeaves(s, k, updateApplied, sourceCount, targetCount, event);
    } else if JobRead(s, k.job).Found? && ItemRead(s, k).Found? {
      RefusedFinishIsNothing(s, k, WebhookUpdate(s.jobs[k.job], s.items[k], updateApplied, sourceCount, targetCount, event));
    }
  }

  lemma EndOutcome(s: System, k: ItemKey, worker: Job, state: ItemState, reason: Option<Reason>)
    requires Inv(s) && (k.job, worker) in s.jobCopies
    ensures var t := EndedBy(s, k, worker, state, reason);
            if EndSucceeds(s, k, worker, state, reason) then k in t.items && EndLeaves(s.items[k], t.items[k], state, reason)
            else t == s
  {
    hide Inv;
    hide EndLeaves;
    hide FinishSucceeds;
    hide FinishedBy;
    if EndSucceeds(s, k, worker, state, reason) {
      DoneEndLeaves(s, k, worker, state, reason);
    } else if EndsItem(s, k, state, reason) {
      RefusedFinishIsNothing(s, k, CompleteCancellation(worker, s.items[k], state, reason));
    }
  }

  lemma RetryOutcome(s: System, k: ItemKey, attempts: int, nextAttemptAt: Option<int>)
    requires Inv(s)
    ensures var t := RetriedBy(s, k, attempts, nextAttemptAt);
            if RetrySucceeds(s, k, attempts, nextAttemptAt) then k in t.items && RetryLeaves(s.items[k], t.items[k], attempts, nextAttemptAt)
            else t == s
  {
    hide Inv;
    hide RetryLeaves;
    hide FinishSucceeds;
    hide FinishedBy;
    if RetrySucceeds(s, k, attempts, nextAttemptAt) {
      DoneRetryLeaves(s, k, attempts, nextAttemptAt);
    } else if RetryMeets(s, k, attempts, nextAttemptAt) && IsNextRetry(s.items[k], attempts) {
      RefusedFinishIsNothing(s, k, RetryCancellation(s.jobs[k.job], s.items[k], attempts, nextAttemptAt));
    }
  }

  /** What the execution step answers when nobody else runs. */
  function ContinueReply(s: System, j: JobId, at: int, found: WorkReads): Continuation {
    if JobRead(s, j).Unreadable? then Refused
    else if j !in s.jobs || s.jobs[j].state != Running then Stop
    else if !ReadsLoad(found) then Refused
    else if ContinueTarget(s.jobs[j]).Some? then Stop
    else
      var delay := WorkDelay(s.jobs[j], found, at);
      if delay.Some? then LookAgain(s.jobs[j], delay.value) else Stop
  }

  function ContinuedBy(s: System, j: JobId, found: WorkReads): System {
    if j in s.jobs && ReadsLoad(found) then Apply(s, Op.ContinueExecution(j, s.jobs[j])) else s
  }

  /** A claim of one item when nobody else runs: its lowest slot, or none. */
  predicate IsClaimedAlone(s: System, t: System, j: JobId, b: Batch, k: ItemKey, item: Item, claimed: Option<Item>) {
    var slot := SlotFor(s, j, b, k, item, 0);
    if claimed.None? then slot == None && t == s
    else
      && slot.Some? && j in s.jobs && claimed.value == ClaimedItem(item, RequestOf(b, slot.value))
      && t == Apply(s, ClaimItem(k, s.jobs[j], item, RequestOf(b, slot.value)))
  }

  /** The claims of a batch so far, and those to come. */
  predicate IsPageSoFar(s: System, t: System, j: JobId, b: Batch, page: seq<(ItemKey, Item)>, i: nat, selected: seq<(ItemKey, Item)>)
    requires i <= |page|
  {
    var rest := ClaimedPage(t, j, b, page[i..], LimitOf(b) - |selected|);
    ClaimedPage(s, j, b, page, LimitOf(b)) == (rest.0, selected + rest.1, rest.2)
  }

  lemma PageStarts(s: System, j: JobId, b: Batch, page: seq<(ItemKey, Item)>)
    ensures IsPageSoFar(s, s, j, b, page, 0, [])
  {
    hide ClaimedPage;
    assert page[0..] == page;
    var rest := ClaimedPage(s, j, b, page, LimitOf(b));
    assert [] + rest.1 == rest.1;
  }

  lemma PageGoesOn(s: System, m: System, t: System, j: JobId, b: Batch, page: seq<(ItemKey, Item)>, i: nat,
                   selected: seq<(ItemKey, Item)>, claimed: Option<Item>)
    requires i < |page| && |selected| < LimitOf(b) && IsPageSoFar(s, m, j, b, page, i, selected)
    requires if MayClaim(page[i].1, b.now) then IsClaimedAlone(m, t, j, b, page[i].0, page[i].1, claimed) && !JobRead(m, j).Unreadable?
             else claimed.None? && t == m
    ensures IsPageSoFar(s, t, j, b, page, i + 1, if claimed.Some? then selected + [(page[i].0, claimed.value)] else selected)
  {
    hide SlotFor;
    hide MayClaim;
    hide ClaimedItem;
    hide Apply;
    var rest := page[i..];
    assert rest[0] == page[i] && rest[1..] == page[i + 1..];
    if claimed.Some? {
      var row, more := [(page[i].0, claimed.value)], ClaimedPage(t, j, b, page[i + 1..], LimitOf(b) - |selected| - 1);
      assert selected + (row + more.1) == (selected + row) + more.1;
    }
  }

  lemma NothingClaimed(s: System, t: System, j: JobId, b: Batch, k: ItemKey, item: Item)
    requires IsClaimedAlone(s, t, j, b, k, item, None)
    ensures t == s
  {
    hide SlotFor;
  }

  lemma PageEnds(s: System, t: System, j: JobId, b: Batch, page: seq<(ItemKey, Item)>, i: nat, selected: seq<(ItemKey, Item)>)
    requires i <= |page| && IsPageSoFar(s, t, j, b, page, i, selected) && (i == |page| || |selected| == LimitOf(b))
    ensures ClaimedPage(s, j, b, page, LimitOf(b)) == (t, selected, true)
  {
    assert selected + [] == selected;
  }

  lemma PageRaises(s: System, t: System, j: JobId, b: Batch, page: seq<(ItemKey, Item)>, i: nat, selected: seq<(ItemKey, Item)>)
    requires i < |page| && IsPageSoFar(s, t, j, b, page, i, selected) && |selected| < LimitOf(b)
    requires MayClaim(page[i].1, b.now) && JobRead(t, j).Unreadable?
    ensures ClaimedPage(s, j, b, page, LimitOf(b)) == (t, selected, false)
  {
    assert page[i..][0] == page[i];
    assert selected + [] == selected;
  }

  lemma ClaimIsApplying(s: System, k: ItemKey, item: Item, b: Batch)
    requires Inv(s) && (k, item) in s.itemCopies && MayClaim(item, b.now)
    ensures forall slot ::
              var i := ClaimedItem(item, RequestOf(b, slot)); i.state == Applying && 1 <= i.attempts <= MAX_ATTEMPTS
  {
    ItemCopyFacts(s, k, item);
  }

  lemma WorkerHasSlots(s: System, j: JobId, worker: Job)
    requires Inv(s) && (j, worker) in s.jobCopies
    ensures 1 <= worker.accountConcurrency
  {
    JobCopyFacts(s, j, worker);
  }

  lemma NothingOffered(turn: nat -> seq<Op>)
    ensures Offered([], turn)
  {
  }

  /** Whether the job allows a claim does not depend on the slot. */
  lemma SlotsAreAlike(job: Job, item: Item, b: Batch, slot: int)
    ensures JobAllowsClaim(job, item, RequestOf(b, slot)) <==> JobAllowsClaim(job, item, RequestOf(b, 0))
  {
  }

  lemma SlotIsTried(s: System, t: System, j: JobId, b: Batch, k: ItemKey, item: Item, slot: nat, ok: bool)
    requires slot < b.worker.accountConcurrency && j in s.jobs
    requires SlotFor(s, j, b, k, item, 0) == SlotFor(s, j, b, k, item, slot)
    requires ok == Commits(s, ClaimItem(k, s.jobs[j], item, RequestOf(b, slot)))
    requires t == Apply(s, ClaimItem(k, s.jobs[j], item, RequestOf(b, slot)))
    ensures if ok then IsClaimedAlone(s, t, j, b, k, item, Some(ClaimedItem(item, RequestOf(b, slot))))
            else SlotFor(s, j, b, k, item, 0) == SlotFor(s, j, b, k, item, slot + 1) && t == s
  {
    hide Commits;
    hide ClaimedItem;
  }

  lemma NoSlotIsFree(s: System, t: System, j: JobId, b: Batch, k: ItemKey, item: Item, slot: nat)
    requires SlotFor(s, j, b, k, item, 0) == SlotFor(s, j, b, k, item, slot) && t == s
    requires slot >= b.worker.accountConcurrency || SlotFor(s, j, b, k, item, slot) == None
    ensures IsClaimedAlone(s, t, j, b, k, item, None)
  {
    hide CanClaim;
  }

  lemma {:induction false} NoSlotWhenRefused(s: System, j: JobId, b: Batch, k: ItemKey, item: Item, slot: nat)
    requires k.job == j && (j !in s.jobs || !ValidJob(s.jobs[j]) || !JobAllowsClaim(s.jobs[j], item, RequestOf(b, 0)))
    ensures SlotFor(s, j, b, k, item, slot) == None
    decreases if slot < b.worker.accountConcurrency then b.worker.accountConcurrency - slot else 0
  {
    if slot >= b.worker.accountConcurrency {
    } else {
      NoSlotWhenRefused(s, j, b, k, item, slot + 1);
    }
  }

  function PreviewedBy(s: System, k: ItemKey, item: Item): System {
    if k.job in s.jobs then Apply(s, Op.PutPreviewItem(k, s.jobs[k.job], item)) else s
  }

  lemma CurrentPreviewCommits(s: System, k: ItemKey, item: Item)
    requires Inv(s) && k.job in s.jobs && FreshItem(item) && ValidDigest(item.digest)
    ensures Commits(s, Op.PutPreviewItem(k, s.jobs[k.job], item)) <==>
              && k !in s.items && ValidJob(s.jobs[k.job]) && s.jobs[k.job].state == Previewing
              && AddPreviewItem(s.jobs[k.job].preview, item).Some?
    ensures !Commits(s, Op.PutPreviewItem(k, s.jobs[k.job], item)) ==> PreviewedBy(s, k, item) == s
  {
    hide Inv;
    hide FreshItem;
    hide AddPreviewItem;
    hide Effect;
    InvIsRecorded(s);
    assert (k.job, s.jobs[k.job]) in s.jobCopies;
    hide Recorded;
  }

  lemma RefusedChangesNothing(s: System, op: Op)
    ensures !Commits(s, op) ==> Apply(s, op) == s
  {
    hide Commits;
  }

  /** A canceling job that can be loaded and has nothing remaining: the index is asked for open items. */
  predicate AsksForWork(s: System, j: JobId) {
    JobRead(s, j).Found? && s.jobs[j].state == Canceling && s.jobs[j].cancellationRemaining == 0
  }

  /** A cancel of an ended job asks the index for an applied item. */
  predicate AsksIndex(job: Job, action: ControlAction) {
    (job.state == Completed || job.state == CompletedWithErrors) && action == ControlAction.Cancel && job.policy == NextRenewal
  }

  /** The answer can be loaded and names the schedule to undo. */
  predicate AnswersControl(job: Job, action: ControlAction, applied: Option<Item>) {
    AsksIndex(job, action) && applied.Some? ==> ValidItem(applied.value) && applied.value.scheduleId.Some?
  }

  /** When an operator's command is accepted: a pause of a job that is scheduled or running, a resume of
      a paused one, and a cancel of any job that has not ended or begun to cancel; of a completed one
      only under the next-renewal policy and while the index shows an applied item with its schedule. */
  predicate IsAccepted(job: Job, action: ControlAction, applied: Option<Item>) {
    match action
    case Pause => job.state == Scheduled || job.state == Running
    case Resume => job.state == Paused
    case Cancel =>
      match job.state
      case Previewing | AwaitingApproval | Scheduled | Running | Paused => true
      case Completed | CompletedWithErrors =>
        job.policy == NextRenewal && applied.Some? && ValidItem(applied.value) && applied.value.scheduleId.Some?
      case _ => false
  }

  /** What an accepted command leaves of the job row. A cancel ends a job that has not been approved at
      once and only asks for the cancellation of any other; a resume is the approval that a job waits for. */
  predicate ControlLeaves(was: Job, now: Job, action: ControlAction) {
    now == was.(state := match action
                         case Pause => Paused
                         case Resume => Running
                         case Cancel => if was.state == Previewing || was.state == AwaitingApproval then Canceled else CancelRequested,
                revision := was.revision + 1,
                canaryApproved := was.canaryApproved || (action == Resume && was.canaryApprovalRequired),
                canaryApprovalRequired := was.canaryApprovalRequired && action != Resume)
  }

  /** The target table of the commands against that. */
  lemma AcceptedExactly(job: Job, action: ControlAction, applied: Option<Item>)
    ensures IsAccepted(job, action, applied) <==>
              AnswersControl(job, action, applied) && ControlTarget(job, action, applied.Some?).Some?
  {
    hide ValidItem;
  }

  lemma AcceptedLeaves(job: Job, action: ControlAction, appliedFound: bool)
    requires ControlTarget(job, action, appliedFound).Some?
    ensures ControlLeaves(job, ControlledJob(job, ControlTarget(job, action, appliedFound).value, action), action)
  {
  }

  lemma ContinueIsUpdate(j: JobId, job: Job)
    ensures JobUpdate(Op.ContinueExecution(j, job))
         == if job.state == Running && ContinueTarget(job).Some?
            then Some((j, job, job.(state := ContinueTarget(job).value, revision := job.revision + 1,
                                    canaryApprovalRequired := PausesForCanary(job))))
            else None
  {
  }

  lemma ControlIsUpdate(j: JobId, job: Job, action: ControlAction, appliedFound: bool)
    requires ControlTarget(job, action, appliedFound).Some?
    ensures JobUpdate(Op.Control(j, job, job.revision, action, appliedFound))
         == Some((j, job, ControlledJob(job, ControlTarget(job, action, appliedFound).value, action)))
  {
  }

  lemma FinalizeIsUpdate(j: JobId, job: Job)
    requires job.state == Canceling && job.cancellationRemaining == 0
    ensures JobUpdate(Op.FinalizeCancellation(j, job, false)) == Some((j, job, job.(state := Canceled, revision := job.revision + 1)))
  {
  }

  lemma ContinueCommitsOnTarget(s: System, j: JobId, found: WorkReads)
    requires Inv(s) && j in s.jobs
    ensures Commits(s, Op.ContinueExecution(j, s.jobs[j])) <==>
              ValidJob(s.jobs[j]) && s.jobs[j].state == Running && ContinueTarget(s.jobs[j]).Some?
    ensures !Commits(s, Op.ContinueExecution(j, s.jobs[j])) || !ReadsLoad(found) ==> ContinuedBy(s, j, found) == s
  {
    hide Inv;
    hide Commits;
    hide Effect;
    hide JobUpdate;
    hide ContinueTarget;
    var op := Op.ContinueExecution(j, s.jobs[j]);
    ContinueIsUpdate(j, s.jobs[j]);
    hide ValidJob;
    if Commits(s, op) { CommitFacts(s, op); JobOpsReadValid(s, op); }
    if JobUpdate(op).Some? && ValidJob(s.jobs[j]) { CurrentJobOpsCommit(s, op, j); }
    RefusedChangesNothing(s, op);
  }

  lemma JobOpsReadValid(s: System, op: Op)
    requires Commits(s, op) && JobUpdate(op).Some?
    ensures ValidJob(JobUpdate(op).value.1)
  {
    UpdatesAreJobOps(op);
    hide ConditionsHold;
    hide JobUpdate;
    hide ValidJob;
  }

  /** A job transition computed from the current row commits if that can be loaded. */
  lemma CurrentJobOpsCommit(s: System, op: Op, j: JobId)
    requires Inv(s) && j in s.jobs && JobUpdate(op).Some? && JobUpdate(op).value.0 == j && JobUpdate(op).value.1 == s.jobs[j]
    requires ValidJob(s.jobs[j])
    ensures Commits(s, op)
  {
    LoadedJobIsCopy(s, j);
    hide Inv;
    hide ValidJob;
    UpdatesAreJobOps(op);
    hide JobUpdate;
  }

  // ---------------------------------------------------------------- the store

  class Store {
    var jobs: map<JobId, Job>
    var items: map<ItemKey, Item>
    var slots: map<SlotKey, Lease>
    var claims: map<ClaimKey, Lease>
    var now: int
    /** Every version of a row ever stored. */
    var jobCopies: set<(JobId, Job)>
    var itemCopies: set<(ItemKey, Item)>

    function Contents(): System
      reads this
    {
      System(jobs, items, slots, claims, now, jobCopies, itemCopies)
    }

    /** The protocol's invariant, which every run keeps. */
    ghost predicate Valid()
      reads this
    {
      Inv(Contents())
    }

    constructor ()
      ensures Valid() && Contents() == EMPTY
    {
      jobs, items, slots, claims, now := map[], map[], map[], map[], 1;
      jobCopies, itemCopies := {}, {};
      new;
      EmptyInv();
    }

    /** Loads and validates the row of a job. */
    method LoadJob(j: JobId) returns (job: Read<Job>)
      ensures job == JobRead(Contents(), j)
    {
      hide ValidJob;
      if j !in jobs { return Absent; }
      if !ValidJob(jobs[j]) { return Unreadable; }
      job := Found(jobs[j]);
    }

    /** Loads and validates the row of an item. */
    method LoadItem(k: ItemKey) returns (item: Read<Item>)
      ensures item == ItemRead(Contents(), k)
    {
      hide ValidItem;
      if k !in items { return Absent; }
      if !ValidItem(items[k]) { return Unreadable; }
      item := Found(items[k]);
    }

    // -------------------------------------------------------------- rows of a transaction

    method WriteJob(j: JobId, job: Job)
      modifies this
      ensures Contents() == PutJob(old(Contents()), j, job)
    {
      jobs := jobs[j := job];
      jobCopies := jobCopies + {(j, job)};
    }

    method WriteItem(k: ItemKey, item: Item)
      modifies this
      ensures Contents() == PutItem(old(Contents()), k, item)
    {
      items := items[k := item];
      itemCopies := itemCopies + {(k, item)};
    }

    /** The claim transaction: slot and claim puts, the job guard and the item transition, all or
        nothing. */
    method TransactClaim(k: ItemKey, readJob: Job, readItem: Item, r: ClaimRequest) returns (ok: bool)
      requires (k.job, readJob) in jobCopies && (k, readItem) in itemCopies && k.job in jobs && k in items
      requires 1 <= r.now <= now && 30 <= r.leaseSeconds <= 900 && IsEpoch(r.now + r.leaseSeconds)
      requires 0 <= r.slot < readJob.accountConcurrency
      requires MayClaim(readItem, r.now) && JobAllowsClaim(readJob, readItem, r)
      requires ValidJob(readJob) && ValidItem(readItem)
      modifies this
      ensures ok == Commits(old(Contents()), ClaimItem(k, readJob, readItem, r))
      ensures Contents() == Apply(old(Contents()), ClaimItem(k, readJob, readItem, r))
    {
      hide ValidJob;
      hide ValidItem;
      hide CanaryUnchanged;
      hide StillRunning;
      hide ItemUnchanged;
      hide Recorded;
      hide MayClaim;
      hide JobAllowsClaim;
      hide IsReconcileOnly;
      hide IsEpoch;
      hide ClaimedItem;
      var slotKey, claimKey := SlotKey(r.account, r.slot), ClaimKey(r.account, k.subscription);
      var reconcileOnly := IsReconcileOnly(readItem);
      var lease := Lease(k, if reconcileOnly then readItem.attempts else readItem.attempts + 1, r.now + r.leaseSeconds);
      ok := slotKey in slots ==> slots[slotKey].expiresAt <= r.now;
      ok := ok && (claimKey in claims ==> claims[claimKey].expiresAt <= r.now && claims[claimKey].owner == k);
      if !reconcileOnly && r.canaryBatch {
        ok := ok && CanaryUnchanged(readJob, jobs[k.job]);
      } else {
        ok := ok && StillRunning(readJob, jobs[k.job]);
      }
      ok := ok && ItemUnchanged(readItem, items[k]);
      if ok {
        WriteItem(k, ClaimedItem(readItem, r));
        slots := slots[slotKey := lease];
        claims := claims[claimKey := lease];
        if !reconcileOnly && r.canaryBatch {
          var next := readJob.canaryClaims + 1;
          WriteJob(k.job, readJob.(canaryClaims := next, mutationStarted := next >= readJob.canarySize));
        }
      }
    }

    // -------------------------------------------------------------- other workers

    /** Other workers run while this one waits for its next reply. */
    method RunOthers(turn: seq<Op>)
      modifies this
      ensures Contents() == Run(old(Contents()), turn)
    {
      ghost var before := Contents();
      for i := 0 to |turn|
        invariant Contents() == Run(before, turn[..i])
      {
        ghost var middle := Contents();
        OneOther(turn[i]);
        RunAppend(before, turn[..i], [turn[i]]);
        OneStep(middle, Other(turn[i]));
        assert turn[..i + 1] == turn[..i] + [turn[i]] && Ops([Other(turn[i])]) == [turn[i]];
      }
      assert turn[..|turn|] == turn;
    }

    method OneOther(op: Op)
      modifies this
      ensures Contents() == Apply(old(Contents()), op)
    {
      var t := Apply(Contents(), op);
      jobs, items, slots, claims, now := t.jobs, t.items, t.slots, t.claims, t.now;
      jobCopies, itemCopies := t.jobCopies, t.itemCopies;
    }

    // -------------------------------------------------------------- claiming

    /** Filters what the index returned for the three claimable states. The rows may be old; the call
        raises when one of them cannot be loaded. Fresh rows are returned in order up to the limit; in
        any case no claimable row is dropped while all rows fit the limit. */
    method QueryClaimable(applying: seq<(ItemKey, Item)>, retries: seq<(ItemKey, Item)>, pending: seq<(ItemKey, Item)>,
                          at: int, limit: int) returns (r: Outcome, page: seq<(ItemKey, Item)>)
      requires 1 <= limit
      ensures r == Done <==> QueriesLoad(applying, retries, pending, at, limit)
      ensures forall x | x in page :: IsClaimable(x.1, at) && (x in applying || x in retries || x in pending)
      ensures r == Done ==> forall x | x in page :: ValidItem(x.1)
      ensures DistinctItems(page) && |page| <= limit
      ensures r == Done ==>
                var rows := applying + retries + pending;
                && (AreFresh(rows, at) ==> page == rows[..if |rows| < limit then |rows| else limit])
                && (|rows| <= limit ==> KeepsClaimable(rows, at, page))
    {
      hide IsClaimable;
      hide PickedUpTo;
      hide AnswerLoads;
      hide ValidItem;
      r, page := Conflict, [];
      AnswerIsPicked([], [], applying, at, limit);
      var first, firstLoads := PickAnswer([], applying, at, limit);
      if !firstLoads { return; }
      assert [] + applying == applying;
      AnswerIsPicked(applying, first, retries, at, limit);
      var second, secondLoads := PickAnswer(first, retries, at, limit);
      if !secondLoads { return; }
      AnswerIsPicked(applying + retries, second, pending, at, limit);
      var third, thirdLoads := PickAnswer(second, pending, at, limit);
      if !thirdLoads { return; }
      PickedLoad([], applying, at, limit);
      PickedLoad(first, retries, at, limit);
      PickedLoad(second, pending, at, limit);
      r, page := Done, third;
    }

    method PickAnswer(page: seq<(ItemKey, Item)>, answer: seq<(ItemKey, Item)>, at: int, limit: int)
      returns (r: seq<(ItemKey, Item)>, loads: bool)
      ensures loads <==> AnswerLoads(page, answer, limit)
      ensures r == PickedUpTo(page, answer, at, limit)
    {
      hide IsClaimable;
      hide ValidItem;
      r, loads := page, true;
      var remaining := limit - |page|;
      if remaining <= 0 { return; }
      var rows := answer[..if |answer| < remaining then |answer| else remaining];
      for i := 0 to |rows|
        invariant Picked(page, rows, at) == Picked(r, rows[i..], at)
        invariant loads <==> forall x | x in rows[..i] :: ValidItem(x.1)
      {
        assert rows[i..][0] == rows[i] && rows[i..][1..] == rows[i + 1..];
        assert rows[..i + 1] == rows[..i] + [rows[i]];
        if !ValidItem(rows[i].1) { loads := false; }
        if !HasItem(r, rows[i].0) && IsClaimable(rows[i].1, at) { r := r + [rows[i]]; }
      }
      assert rows[..|rows|] == rows;
    }

    /** Tries the slots for one item in turn. Before each try other workers run, the job is read
        again, and others run once more before the transaction; the call raises when the job cannot be
        loaded. `turn` says who runs when. */
    method ClaimOne(j: JobId, b: Batch, k: ItemKey, item: Item, turn: nat -> seq<Op>, first: nat)
      returns (r: Outcome, claimed: Option<Item>, next: nat, ghost steps: seq<Step>)
      requires Valid() && (j, b.worker) in jobCopies && (k, item) in itemCopies && k.job == j && ValidItem(item)
      requires 1 <= b.now <= now && 30 <= b.leaseSeconds <= 900 && IsEpoch(b.now + b.leaseSeconds)
      requires MayClaim(item, b.now)
      modifies this
      ensures Valid() && Contents() == Run(old(Contents()), Ops(steps)) && Later(old(Contents()), Contents())
      ensures Offered(steps, turn) && forall x | x in steps && x.Mine? :: IsClaimOf(x.op, j, b, [(k, item)])
      ensures ClaimedRows(Committed(old(Contents()), steps)) == if claimed.Some? then [(k, claimed.value)] else []
      ensures claimed.Some? ==> claimed.value.state == Applying && 1 <= claimed.value.attempts <= MAX_ATTEMPTS
      ensures r == Conflict ==> claimed.None?
      ensures Quiet(turn) ==>
                && IsClaimedAlone(old(Contents()), Contents(), j, b, k, item, claimed)
                && (r == Conflict <==> JobRead(old(Contents()), j).Unreadable?)
    {
      hide ValidItem;
      hide ValidJob;
      hide Inv;
      hide Commits;
      hide Apply;
      hide Run;
      hide Committed;
      hide Recorded;
      hide Offered;
      hide Quiet;
      hide CanClaim;
      hide ClaimedItem;
      hide JobAllowsClaim;
      hide SlotFor;
      hide IsClaimedAlone;
      hide MayClaim;
      hide IsEpoch;
      hide JobRead;
      ghost var start := Contents();
      r, claimed, next, steps := Done, None, first, [];
      WorkerHasSlots(start, j, b.worker);
      ClaimIsApplying(start, k, item, b);
      var slot := 0;
      NothingIsLater(start);
      NoSteps(start);
      assert Offered([], turn) by { NothingOffered(turn); }
      while slot < b.worker.accountConcurrency && claimed.None?
        invariant 0 <= slot && (claimed.Some? ==> 0 < slot)
        invariant Valid() && Contents() == Run(start, Ops(steps)) && Later(start, Contents()) && Offered(steps, turn)
        invariant forall x | x in steps && x.Mine? :: IsClaimOf(x.op, j, b, [(k, item)])
        invariant ClaimedRows(Committed(start, steps)) == if claimed.Some? then [(k, claimed.value)] else []
        invariant claimed.Some? ==> claimed.value.state == Applying && 1 <= claimed.value.attempts <= MAX_ATTEMPTS
        invariant r == Done && (Quiet(turn) && 0 < slot ==> !JobRead(start, j).Unreadable?)
        invariant Quiet(turn) && claimed.None? ==>
                    Contents() == start && SlotFor(start, j, b, k, item, 0) == SlotFor(start, j, b, k, item, slot)
        invariant Quiet(turn) && claimed.Some? ==> IsClaimedAlone(start, Contents(), j, b, k, item, claimed)
        decreases if claimed.None? then b.worker.accountConcurrency - slot + 1 else 0
      {
        steps := Pause(turn, next, start, steps);
        var loaded := LoadJob(j);
        FoundIsCurrent(Contents(), j);
        var request := RequestOf(b, slot);
        if !loaded.Found? || !JobAllowsClaim(loaded.value, item, request) {
          if loaded.Unreadable? { r := Conflict; }
          if Quiet(turn) {
            if loaded.Found? { SlotsAreAlike(loaded.value, item, b, slot); }
            NoSlotWhenRefused(start, j, b, k, item, slot);
            NoSlotIsFree(start, Contents(), j, b, k, item, slot);
          }
          return;
        }
        LoadedJobIsCopy(Contents(), j);
        steps := Pause(turn, next + 1, start, steps);
        next := next + 2;
        ghost var op, committed := ClaimItem(k, loaded.value, item, request), Committed(start, steps);
        ClaimedRowsAppend(committed, [op]);
        ClaimedRow(op);
        OfferedMine(steps, op, turn);
        var ok, mine := CommitClaim(j, b, k, item, loaded.value, slot, start, steps);
        steps := mine;
        assert committed + [] == committed;
        if Quiet(turn) { SlotIsTried(start, Contents(), j, b, k, item, slot, ok); }
        if ok { claimed := Some(ClaimedItem(item, request)); }
        slot := slot + 1;
      }
      if Quiet(turn) && claimed.None? { NoSlotIsFree(start, Contents(), j, b, k, item, slot); }
    }

    /** Others run their turn; the trace of this worker grows by their steps. */
    method Pause(turn: nat -> seq<Op>, n: nat, ghost start: System, ghost before: seq<Step>) returns (ghost steps: seq<Step>)
      requires Valid() && Contents() == Run(start, Ops(before)) && Later(start, Contents()) && Offered(before, turn)
      modifies this
      ensures Valid() && Contents() == Run(start, Ops(steps)) && Later(start, Contents()) && Offered(steps, turn)
      ensures Later(old(Contents()), Contents())
      ensures Committed(start, steps) == Committed(start, before)
      ensures forall x | x in steps && x.Mine? :: x in before
      ensures Quiet(turn) ==> Contents() == old(Contents()) && steps == before
    {
      hide Inv;
      hide Commits;
      hide Apply;
      hide Committed;
      hide Offered;
      var ops := turn(n);
      steps := before + Others(ops);
      RunKeepsInv(Contents(), ops);
      InvIsRecorded(Contents());
      RunIsLater(Contents(), ops);
      LaterIsTransitive(start, Contents(), Run(Contents(), ops));
      StepsAppend(start, before, Others(ops));
      OthersAreNotMine(Contents(), ops);
      TurnIsOffered(turn, n);
      OfferedAppend(before, Others(ops), turn);
      if Quiet(turn) { assert before + [] == before; }
      RunOthers(ops);
    }

    /** One try: the claim transaction as a step of this worker. */
    method CommitClaim(j: JobId, b: Batch, k: ItemKey, item: Item, readJob: Job, slot: int,
                       ghost start: System, ghost before: seq<Step>)
      returns (ok: bool, ghost steps: seq<Step>)
      requires Valid() && Contents() == Run(start, Ops(before)) && Later(start, Contents())
      requires (j, b.worker) in jobCopies && (j, readJob) in jobCopies && (k, item) in itemCopies && k.job == j
      requires 1 <= b.now <= now && 30 <= b.leaseSeconds <= 900 && IsEpoch(b.now + b.leaseSeconds)
      requires 0 <= slot < b.worker.accountConcurrency
      requires MayClaim(item, b.now) && JobAllowsClaim(readJob, item, RequestOf(b, slot))
      requires ValidJob(readJob) && ValidItem(item)
      modifies this
      ensures Valid() && Contents() == Run(start, Ops(steps)) && Later(start, Contents())
      ensures steps == before + [Mine(ClaimItem(k, readJob, item, RequestOf(b, slot)))]
      ensures ok == Commits(old(Contents()), ClaimItem(k, readJob, item, RequestOf(b, slot)))
      ensures Contents() == Apply(old(Contents()), ClaimItem(k, readJob, item, RequestOf(b, slot)))
      ensures Committed(start, steps)
           == Committed(start, before) + if ok then [ClaimItem(k, readJob, item, RequestOf(b, slot))] else []
    {
      hide Inv;
      hide Commits;
      hide Apply;
      hide Run;
      hide Committed;
      hide Recorded;
      hide ValidJob;
      hide ValidItem;
      var op := ClaimItem(k, readJob, item, RequestOf(b, slot));
      steps := before + [Mine(op)];
      JobCopyFacts(Contents(), j, b.worker);
      JobCopyFacts(Contents(), j, readJob);
      ItemCopyFacts(Contents(), k, item);
      InvIsRecorded(Contents());
      ApplyKeepsInv(Contents(), op);
      ApplyIsLater(Contents(), op);
      LaterIsTransitive(start, Contents(), Apply(Contents(), op));
      StepsAppend(start, before, [Mine(op)]);
      OneStep(Contents(), Mine(op));
      ok := TransactClaim(k, readJob, item, RequestOf(b, slot));
    }

    /** Claims the returned items one by one, for one execution message. The run it takes part in
        shows exactly the returned claims as this worker's committed steps. */
    method ClaimItems(j: JobId, b: Batch, page: seq<(ItemKey, Item)>, turn: nat -> seq<Op>)
      returns (r: Outcome, selected: seq<(ItemKey, Item)>, ghost steps: seq<Step>)
      requires Valid() && (j, b.worker) in jobCopies
      requires forall x | x in page :: x in itemCopies && x.0.job == j && ValidItem(x.1)
      requires forall a, c | 0 <= a < c < |page| :: page[a].0 != page[c].0
      requires 1 <= b.now <= now && 30 <= b.leaseSeconds <= 900 && IsEpoch(b.now + b.leaseSeconds)
      requires 1 <= LimitOf(b)
      modifies this
      ensures Valid() && Contents() == Run(old(Contents()), Ops(steps)) && Later(old(Contents()), Contents())
      ensures selected == ClaimedRows(Committed(old(Contents()), steps))
      ensures Offered(steps, turn) && forall x | x in steps && x.Mine? :: IsClaimOf(x.op, j, b, page)
      ensures Quiet(turn) ==> (Contents(), selected, r == Done) == ClaimedPage(old(Contents()), j, b, page, LimitOf(b))
      ensures |selected| <= LimitOf(b)
      ensures forall a, c | 0 <= a < c < |selected| :: selected[a].0 != selected[c].0
      ensures forall x | x in selected ::
                && (exists c :: 0 <= c < |page| && page[c].0 == x.0)
                && x.1.state == Applying && 1 <= x.1.attempts <= MAX_ATTEMPTS
    {
      hide Inv;
      hide Commits;
      hide Apply;
      hide Run;
      hide Committed;
      hide ClaimedRows;
      hide Offered;
      hide Quiet;
      hide MayClaim;
      hide ClaimedPage;
      hide IsPageSoFar;
      hide IsClaimedAlone;
      hide ValidItem;
      hide ValidJob;
      ghost var start := Contents();
      NoSteps(start);
      NothingIsLater(start);
      NothingOffered(turn);
      PageStarts(start, j, b, page);
      r, selected, steps := Done, [], [];
      var next: nat := 0;
      for i := 0 to |page|
        invariant Valid() && Contents() == Run(start, Ops(steps)) && Later(start, Contents())
        invariant r == Done && selected == ClaimedRows(Committed(start, steps)) && Offered(steps, turn)
        invariant forall x | x in steps && x.Mine? :: IsClaimOf(x.op, j, b, page)
        invariant Quiet(turn) ==> IsPageSoFar(start, Contents(), j, b, page, i, selected)
        invariant |selected| <= LimitOf(b)
        invariant forall x | x in selected ::
                    && (exists c :: 0 <= c < i && page[c].0 == x.0)
                    && x.1.state == Applying && 1 <= x.1.attempts <= MAX_ATTEMPTS
        invariant forall a, c | 0 <= a < c < |selected| :: selected[a].0 != selected[c].0
      {
        if |selected| == LimitOf(b) {
          if Quiet(turn) { PageEnds(start, Contents(), j, b, page, i, selected); }
          return;
        }
        var (k, item) := page[i];
        assert (k, item) in page;
        ghost var before := Contents();
        ghost var was := selected;
        ghost var got: Option<Item> := None;
        if MayClaim(item, b.now) {
          ghost var middle := Contents();
          var outcome, claimed, after, more := ClaimOne(j, b, k, item, turn, next);
          next := after;
          StepsAppend(start, steps, more);
          ClaimedRowsAppend(Committed(start, steps), Committed(middle, more));
          LaterIsTransitive(start, middle, Contents());
          OfferedAppend(steps, more, turn);
          steps := steps + more;
          got := claimed;
          if claimed.Some? { selected := selected + [(k, claimed.value)]; }
          if outcome == Conflict {
            if Quiet(turn) { NothingClaimed(middle, Contents(), j, b, k, item); PageRaises(start, Contents(), j, b, page, i, selected); }
            r := Conflict;
            return;
          }
        }
        if Quiet(turn) { PageGoesOn(start, before, Contents(), j, b, page, i, was, got); }
      }
      if Quiet(turn) { PageEnds(start, Contents(), j, b, page, |page|, selected); }
    }

    // -------------------------------------------------------------- finishing an item

    /** The finish transaction: the item transition, the job counters if they change, and the
        release of the two lease rows if the item holds them. */
    method TransactFinish(k: ItemKey, readJob: Job, readItem: Item, caller: Caller, updated: Item, metrics: Option<Job>)
      returns (ok: bool)
      requires (k.job, readJob) in jobCopies && (k, readItem) in itemCopies && k.job in jobs && k in items
      requires CallerCopies(Contents(), k, caller) && FinishValueOf(caller).Some?
      requires MayFinishFrom(readItem.state) && readItem.attempts == FinishValueOf(caller).value.attempts
      requires ValidJob(readJob) && ValidItem(readItem) && CallerReadsAreValid(caller)
      requires updated == FinishedItem(readItem, FinishValueOf(caller).value) && ValidItem(updated)
      requires metrics == if ChangesMetrics(readJob, readItem, updated)
                          then Some(MetricsJob(readJob, readItem, updated)) else None
      modifies this
      ensures ok == Commits(old(Contents()), FinishItem(k, readJob, readItem, caller))
      ensures Contents() == Apply(old(Contents()), FinishItem(k, readJob, readItem, caller))
    {
      hide FinishValueOf;
      hide FinishedItem;
      hide MetricsJob;
      hide ChangesMetrics;
      hide ValidItem;
      hide CallerCopies;
      hide CallerReadsAreValid;
      hide ValidJob;
      hide ItemUnchanged;
      hide JobUnchanged;
      ok := ItemUnchanged(readItem, items[k]);
      if metrics.Some? { ok := ok && JobUnchanged(readJob, jobs[k.job]); }
      if readItem.holder.Some? {
        var claimKey := ClaimKey(readItem.holder.value.account, k.subscription);
        var slotKey := SlotKey(readItem.holder.value.account, readItem.holder.value.slot);
        ok := ok && claimKey in claims && LeaseHeldBy(claims[claimKey], k, readItem.attempts);
        ok := ok && slotKey in slots && LeaseHeldBy(slots[slotKey], k, readItem.attempts);
      }
      if ok {
        WriteItem(k, updated);
        if readItem.holder.Some? {
          claims := claims - {ClaimKey(readItem.holder.value.account, k.subscription)};
          slots := slots - {SlotKey(readItem.holder.value.account, readItem.holder.value.slot)};
        }
        if metrics.Some? { WriteJob(k.job, metrics.value); }
      }
    }

    /** The item row a finish writes, field by field. */
    method FinishedRow(item: Item, v: FinishValue) returns (updated: Item)
      ensures updated == FinishedItem(item, v)
    {
      updated := item.(state := v.state, reason := v.reason, scheduleId := v.scheduleId);
      if v.rollbackGuard.Some? { updated := updated.(rollbackGuard := v.rollbackGuard.value); }
      updated := updated.(holder := None, nextAttemptAt := v.nextAttemptAt);
      if v.cancellation.Some? {
        updated := updated.(cancellationAttempts := v.cancellation.value.0,
                            cancellationNextAttemptAt := v.cancellation.value.1);
      }
      if v.event.Some? { updated := updated.(lastEvent := v.event); }
    }

    /** The job row a finish writes, if it has to write one. */
    method MetricsRow(job: Job, item: Item, updated: Item) returns (metrics: Option<Job>)
      ensures metrics == if ChangesMetrics(job, item, updated) then Some(MetricsJob(job, item, updated)) else None
    {
      hide CountBucket;
      hide IsAwaitingProvider;
      hide IsAppliedState;
      hide IsTerminal;
      hide IsCancellationTerminal;
      var oldBucket, newBucket := CountBucket(item.state), CountBucket(updated.state);
      var oldWaiting, newWaiting := IsAwaitingProvider(item.state), IsAwaitingProvider(updated.state);
      var oldApplied, newApplied := IsAppliedState(item.state), IsAppliedState(updated.state);
      var completedCanary := item.canary && !IsTerminal(item.state) && IsTerminal(updated.state);
      var completedCancellation :=
        job.state == Canceling && !IsCancellationTerminal(item.state) && IsCancellationTerminal(updated.state);
      metrics := None;
      if oldBucket != newBucket || oldWaiting != newWaiting || oldApplied != newApplied
         || completedCanary || completedCancellation {
        var counts := job.counts;
        if oldBucket != newBucket { counts := AddTo(AddTo(counts, oldBucket, -1), newBucket, 1); }
        assert counts == MoveCount(job.counts, oldBucket, newBucket) by { SameBucketKeepsCounts(job.counts, oldBucket); }
        hide MoveCount;
        metrics := Some(job.(
          counts := counts,
          awaitingProvider := job.awaitingProvider + One(newWaiting) - One(oldWaiting),
          appliedItems := job.appliedItems + One(newApplied) - One(oldApplied),
          canaryCompleted := job.canaryCompleted + One(completedCanary),
          cancellationRemaining := job.cancellationRemaining - One(completedCancellation)));
      }
    }

    /** The finish transaction as a step of this worker. */
    method CommitFinish(k: ItemKey, readJob: Job, readItem: Item, caller: Caller, updated: Item, metrics: Option<Job>,
                        ghost start: System, ghost before: seq<Step>)
      returns (ok: bool, ghost steps: seq<Step>)
      requires Valid() && Contents() == Run(start, Ops(before)) && Later(start, Contents())
      requires (k.job, readJob) in jobCopies && (k, readItem) in itemCopies
      requires CallerCopies(Contents(), k, caller) && FinishValueOf(caller).Some?
      requires MayFinishFrom(readItem.state) && readItem.attempts == FinishValueOf(caller).value.attempts
      requires ValidJob(readJob) && ValidItem(readItem) && CallerReadsAreValid(caller)
      requires updated == FinishedItem(readItem, FinishValueOf(caller).value) && ValidItem(updated)
      requires metrics == if ChangesMetrics(readJob, readItem, updated)
                          then Some(MetricsJob(readJob, readItem, updated)) else None
      modifies this
      ensures Valid() && Contents() == Run(start, Ops(steps)) && Later(start, Contents())
      ensures Committed(start, steps)
           == Committed(start, before) + if ok then [FinishItem(k, readJob, readItem, caller)] else []
      ensures steps == before + [Mine(FinishItem(k, readJob, readItem, caller))]
      ensures ok == Commits(old(Contents()), FinishItem(k, readJob, readItem, caller))
      ensures Contents() == Apply(old(Contents()), FinishItem(k, readJob, readItem, caller))
    {
      hide Inv;
      hide Commits;
      hide Apply;
      hide Run;
      hide Committed;
      hide FinishValueOf;
      hide FinishedItem;
      hide MetricsJob;
      hide ChangesMetrics;
      hide ValidItem;
      hide CallerCopies;
      hide CallerReadsAreValid;
      hide ValidJob;
      hide Recorded;
      var op := FinishItem(k, readJob, readItem, caller);
      JobCopyFacts(Contents(), k.job, readJob);
      ItemCopyFacts(Contents(), k, readItem);
      InvIsRecorded(Contents());
      ApplyKeepsInv(Contents(), op);
      ApplyIsLater(Contents(), op);
      LaterIsTransitive(start, Contents(), Apply(Contents(), op));
      StepsAppend(start, before, [Mine(op)]);
      OneStep(Contents(), Mine(op));
      steps := before + [Mine(op)];
      ok := TransactFinish(k, readJob, readItem, caller, updated, metrics);
    }

    /** Reads the job and then the item; other workers run before each of the two. */
    method LoadBoth(k: ItemKey, turn: nat -> seq<Op>) returns (job: Read<Job>, item: Read<Item>, ghost steps: seq<Step>)
      requires Valid()
      modifies this
      ensures Valid() && Contents() == Run(old(Contents()), Ops(steps)) && Later(old(Contents()), Contents())
      ensures Committed(old(Contents()), steps) == [] && Offered(steps, turn)
      ensures job.Found? ==> (k.job, job.value) in jobCopies && ValidJob(job.value)
      ensures item.Found? ==> (k, item.value) in itemCopies && ValidItem(item.value)
      ensures Quiet(turn) ==>
                && Contents() == old(Contents())
                && job == JobRead(old(Contents()), k.job) && item == ItemRead(old(Contents()), k)
    {
      hide ValidJob;
      hide ValidItem;
      hide Inv;
      hide Commits;
      hide Apply;
      hide Run;
      hide Committed;
      hide Recorded;
      hide Offered;
      hide Quiet;
      ghost var start := Contents();
      NoSteps(start);
      NothingIsLater(start);
      NothingOffered(turn);
      steps := Pause(turn, 0, start, []);
      job := LoadJob(k.job);
      if k.job in jobs { LoadedJobIsCopy(Contents(), k.job); }
      steps := Pause(turn, 1, start, steps);
      item := LoadItem(k);
      if k in items { LoadedItemIsCopy(Contents(), k); }
    }

    /** The step all finishing calls share: load the job, load the item, compute, commit. Other
        workers run before each of the three. A refused transaction still counts as done when the
        item can be loaded and is found in the wanted state. */
    method Finish(k: ItemKey, caller: Caller, turn: nat -> seq<Op>)
      returns (r: Outcome, ghost steps: seq<Step>)
      requires Valid() && CallerCopies(Contents(), k, caller) && FinishValueOf(caller).Some? && CallerReadsAreValid(caller)
      modifies this
      ensures Valid() && Contents() == Run(old(Contents()), Ops(steps)) && Later(old(Contents()), Contents())
      ensures var mine := Committed(old(Contents()), steps);
              && |mine| <= 1
              && (forall op | op in mine :: op.FinishItem? && op.k == k && op.caller == caller)
              && (r == Done ==> mine != [] || (ItemRead(Contents(), k).Found? && items[k].state == FinishValueOf(caller).value.state))
              && (mine != [] ==> r == Done)
      ensures Offered(steps, turn)
      ensures Quiet(turn) ==> Contents() == FinishedBy(old(Contents()), k, caller)
      ensures Quiet(turn) ==> (r == Done <==> FinishSucceeds(old(Contents()), k, caller))
    {
      hide Inv;
      hide Commits;
      hide Apply;
      hide Run;
      hide Committed;
      hide FinishValueOf;
      hide FinishedItem;
      hide MetricsJob;
      hide ChangesMetrics;
      hide ValidItem;
      hide Recorded;
      hide Offered;
      hide Quiet;
      hide CallerCopies;
      hide CallerReadsAreValid;
      hide ValidJob;
      var v := FinishValueOf(caller).value;
      ghost var start := Contents();
      NoSteps(start);
      NothingIsLater(start);
      NothingOffered(turn);
      r, steps := Conflict, [];
      var job, item, first := LoadBoth(k, turn);
      steps := first;
      steps := Pause(turn, 2, start, steps);
      if !job.Found? || !item.Found? || !MayFinishFrom(item.value.state) || item.value.attempts != v.attempts { return; }
      var updated := FinishedRow(item.value, v);
      if !ValidItem(updated) { return; }
      var metrics := MetricsRow(job.value, item.value, updated);
      CallerCopiesStay(start, Contents(), k, caller);
      OfferedMine(steps, FinishItem(k, job.value, item.value, caller), turn);
      RefusedChangesNothing(Contents(), FinishItem(k, job.value, item.value, caller));
      hide Later;
      var ok, after := CommitFinish(k, job.value, item.value, caller, updated, metrics, start, steps);
      steps := after;
      if ok || (k in items && ValidItem(items[k]) && items[k].state == v.state) { r := Done; }
    }

    /** Ends an item of a canceling job. `worker` is the job as the canceller holds it. An item that has
        ended already is left as it is. */
    method CompleteCancellationItem(k: ItemKey, worker: Job, state: ItemState, reason: Option<Reason>, turn: nat -> seq<Op>)
      returns (r: Outcome, ghost steps: seq<Step>)
      requires Valid() && (k.job, worker) in jobCopies && worker.state == Canceling
      requires state == Reverted || state == Skipped || state == NeedsReview
      modifies this
      ensures Valid() && Contents() == Run(old(Contents()), Ops(steps)) && Later(old(Contents()), Contents())
      ensures var mine := Committed(old(Contents()), steps);
              && |mine| <= 1 && (mine != [] ==> r == Done)
              && forall op | op in mine ::
                   && op.FinishItem? && op.k == k && op.caller.CompleteCancellation?
                   && op.caller.state == state && op.caller.reason == reason && op.caller.job == worker
      ensures Offered(steps, turn)
      ensures Quiet(turn) ==> Contents() == EndedBy(old(Contents()), k, worker, state, reason)
      ensures Quiet(turn) ==> (r == Done <==> EndSucceeds(old(Contents()), k, worker, state, reason))
      ensures Quiet(turn) ==>
                if r == Done then k in old(items) && k in items && EndLeaves(old(items)[k], items[k], state, reason)
                else Contents() == old(Contents())
    {
      hide Inv;
      hide Commits;
      hide Apply;
      hide Run;
      hide Committed;
      hide FinishValueOf;
      hide Recorded;
      hide Offered;
      hide Quiet;
      hide FinishedBy;
      hide FinishSucceeds;
      hide EndLeaves;
      ghost var start := Contents();
      EndOutcome(start, k, worker, state, reason);
      NoSteps(start);
      NothingIsLater(start);
      NothingOffered(turn);
      r, steps := Conflict, [];
      if (state == NeedsReview) != reason.Some? { return; }
      steps := Pause(turn, 0, start, steps);
      var item := LoadItem(k);
      if k in items { LoadedItemIsCopy(Contents(), k); }
      if !item.Found? { return; }
      if IsCancellationTerminal(item.value.state) { r := Done; return; }
      var caller := CompleteCancellation(worker, item.value, state, reason);
      EndingIsReady(worker, item.value, state, reason);
      ghost var before := Contents();
      var later := (n: nat) => turn(n + 1);
      var outcome, more := Finish(k, caller, later);
      LaterTurns(turn, later, 1, more);
      OfferedAppend(steps, more, turn);
      StepsAppend(start, steps, more);
      LaterIsTransitive(start, before, Contents());
      assert Committed(start, steps) == [];
      assert [] + Committed(before, more) == Committed(before, more);
      steps := steps + more;
      r := outcome;
    }

    /** Counts a failed cancellation of an item. Asking again with the stored count and time changes
        nothing; any other count than the next one is refused. */
    method RetryCancellationItem(k: ItemKey, attempts: int, nextAttemptAt: Option<int>, turn: nat -> seq<Op>)
      returns (r: Outcome, again: bool, ghost steps: seq<Step>)
      requires Valid()
      modifies this
      ensures Valid() && Contents() == Run(old(Contents()), Ops(steps)) && Later(old(Contents()), Contents())
      ensures var mine := Committed(old(Contents()), steps);
              && |mine| <= 1
              && (mine != [] ==> r == Done && (again <==> attempts < MAX_ATTEMPTS))
              && forall op | op in mine ::
                   && op.FinishItem? && op.k == k && op.caller.RetryCancellation?
                   && op.caller.cancellationAttempts == attempts && op.caller.nextAttemptAt == nextAttemptAt
                   && op.caller.first.cancellationAttempts == attempts - 1 && op.caller.job.state == Canceling
      ensures Offered(steps, turn)
      ensures Quiet(turn) ==> Contents() == RetriedBy(old(Contents()), k, attempts, nextAttemptAt)
      ensures Quiet(turn) ==>
                && (r == Done <==> RetrySucceeds(old(Contents()), k, attempts, nextAttemptAt))
                && (again <==> r == Done && !IsCancellationTerminal(old(Contents()).items[k].state) && attempts < MAX_ATTEMPTS)
      ensures Quiet(turn) ==>
                if r == Done then k in old(items) && k in items && RetryLeaves(old(items)[k], items[k], attempts, nextAttemptAt)
                else Contents() == old(Contents())
    {
      hide Inv;
      hide Commits;
      hide Apply;
      hide Run;
      hide Committed;
      hide FinishedItem;
      hide ValidItem;
      hide FinishValueOf;
      hide MayFinishFrom;
      hide IsCancellationTerminal;
      hide Recorded;
      hide Offered;
      hide Quiet;
      hide FinishedBy;
      hide FinishSucceeds;
      hide RetryLeaves;
      hide ValidJob;
      hide Later;
      ghost var start := Contents();
      RetryOutcome(start, k, attempts, nextAttemptAt);
      NoSteps(start);
      NothingIsLater(start);
      NothingOffered(turn);
      r, again, steps := Conflict, false, [];
      if !(1 <= attempts <= MAX_ATTEMPTS) || (attempts < MAX_ATTEMPTS) != nextAttemptAt.Some? { return; }
      var job, item, first := LoadBoth(k, turn);
      steps := first;
      if !job.Found? || job.value.state != Canceling || !item.Found? { return; }
      if IsCancellationTerminal(item.value.state) { r := Done; return; }
      if item.value.cancellationAttempts == attempts {
        if item.value.cancellationNextAttemptAt == nextAttemptAt { r, again := Done, attempts < MAX_ATTEMPTS; }
        return;
      }
      if item.value.cancellationAttempts != attempts - 1 { return; }
      var caller := RetryCancellation(job.value, item.value, attempts, nextAttemptAt);
      RetryIsReady(job.value, item.value, attempts, nextAttemptAt);
      ghost var before := Contents();
      var later := (n: nat) => turn(n + 2);
      var outcome, more := Finish(k, caller, later);
      LaterTurns(turn, later, 2, more);
      OfferedAppend(steps, more, turn);
      StepsAppend(start, steps, more);
      LaterIsTransitive(start, before, Contents());
      ghost var mine := Committed(before, more);
      assert Committed(start, steps) == [];
      assert [] + mine == mine;
      steps := steps + more;
      r := outcome;
      if r == Done { again := attempts < MAX_ATTEMPTS; }
    }

    /** Applies a pending-update webhook to an item, unless it is late, already applied, asks for nothing,
        or the item is settled. */
    method ReconcileWebhook(k: ItemKey, updateApplied: bool, sourceCount: nat, targetCount: nat, event: Event, turn: nat -> seq<Op>)
      returns (r: Outcome, ghost steps: seq<Step>)
      requires Valid()
      modifies this
      ensures Valid() && Contents() == Run(old(Contents()), Ops(steps))
      ensures var mine := Committed(old(Contents()), steps);
              && |mine| <= 1
              && forall op | op in mine ::
                   && op.FinishItem? && op.k == k && op.caller.WebhookUpdate? && op.caller.event == event
                   && !WebhookIsLate(op.caller.job, op.caller.first, event)
      ensures Offered(steps, turn)
      ensures Quiet(turn) ==>
                && Contents() == ReconciledBy(old(Contents()), k, updateApplied, sourceCount, targetCount, event)
                && (r == Done <==> ReconcileSucceeds(old(Contents()), k, updateApplied, sourceCount, targetCount, event))
      ensures Quiet(turn) ==>
                if r == Done then
                  && k.job in old(jobs) && k in old(items) && k in items
                  && WebhookLeaves(old(jobs)[k.job], old(items)[k], items[k], updateApplied, sourceCount, targetCount, event)
                else Contents() == old(Contents())
    {
      hide Inv;
      hide Commits;
      hide Apply;
      hide Run;
      hide Committed;
      hide FinishValueOf;
      hide WebhookTarget;
      hide WebhookIsLate;
      hide WebhookMayFinish;
      hide Recorded;
      hide Offered;
      hide Quiet;
      hide FinishedBy;
      hide FinishSucceeds;
      hide WebhookLeaves;
      ghost var start := Contents();
      WebhookOutcome(start, k, updateApplied, sourceCount, targetCount, event);
      NoSteps(start);
      NothingIsLater(start);
      NothingOffered(turn);
      r, steps := Conflict, [];
      var job, item, first := LoadBoth(k, turn);
      steps := first;
      if !job.Found? || !item.Found? { return; }
      if WebhookIsLate(job.value, item.value, event) { r := Done; return; }
      var target := WebhookTarget(job.value, item.value, updateApplied, sourceCount, targetCount);
      if target.None? { r := Done; return; }
      if item.value.state == target.value.0 && item.value.reason == target.value.1 { r := Done; return; }
      if !WebhookMayFinish(item.value.state) { r := Done; return; }
      var caller := WebhookUpdate(job.value, item.value, updateApplied, sourceCount, targetCount, event);
      WebhookIsReady(job.value, item.value, updateApplied, sourceCount, targetCount, event);
      ghost var before := Contents();
      var later := (n: nat) => turn(n + 2);
      var outcome, more := Finish(k, caller, later);
      LaterTurns(turn, later, 2, more);
      OfferedAppend(steps, more, turn);
      StepsAppend(start, steps, more);
      assert Committed(start, steps) == [];
      assert [] + Committed(before, more) == Committed(before, more);
      steps := steps + more;
      r := outcome;
    }

    // -------------------------------------------------------------- previews

    /** The preview transaction: the new item and the job's aggregate with it. */
    method TransactPreview(k: ItemKey, readJob: Job, item: Item, preview: Aggregate) returns (ok: bool)
      requires (k.job, readJob) in jobCopies && k.job in jobs
      requires ValidJob(readJob) && readJob.state == Previewing && FreshItem(item) && ValidDigest(item.digest)
      requires AddPreviewItem(readJob.preview, item) == Some(preview)
      modifies this
      ensures ok == Commits(old(Contents()), Op.PutPreviewItem(k, readJob, item))
      ensures Contents() == Apply(old(Contents()), Op.PutPreviewItem(k, readJob, item))
      ensures ok ==> k in items && items[k] == item
    {
      hide ValidJob;
      hide AddPreviewItem;
      hide FreshItem;
      hide PreviewUnchanged;
      ok := k !in items && PreviewUnchanged(readJob, jobs[k.job]);
      if ok {
        WriteItem(k, item);
        WriteJob(k.job, readJob.(preview := preview));
      }
    }

    method CommitPreview(k: ItemKey, readJob: Job, item: Item, preview: Aggregate, ghost start: System, ghost before: seq<Step>)
      returns (ok: bool, ghost steps: seq<Step>)
      requires Valid() && Contents() == Run(start, Ops(before)) && (k.job, readJob) in jobCopies
      requires ValidJob(readJob) && readJob.state == Previewing && FreshItem(item) && ValidDigest(item.digest)
      requires AddPreviewItem(readJob.preview, item) == Some(preview)
      modifies this
      ensures Valid() && Contents() == Run(start, Ops(steps))
      ensures Committed(start, steps)
           == Committed(start, before) + if ok then [Op.PutPreviewItem(k, readJob, item)] else []
      ensures steps == before + [Mine(Op.PutPreviewItem(k, readJob, item))]
      ensures ok == Commits(old(Contents()), Op.PutPreviewItem(k, readJob, item))
      ensures Contents() == Apply(old(Contents()), Op.PutPreviewItem(k, readJob, item))
      ensures ok ==> k in items && items[k] == item
    {
      hide Inv;
      hide Commits;
      hide Apply;
      hide Run;
      hide Committed;
      hide ValidJob;
      hide AddPreviewItem;
      hide FreshItem;
      var op := Op.PutPreviewItem(k, readJob, item);
      JobCopyFacts(Contents(), k.job, readJob);
      ApplyKeepsInv(Contents(), op);
      StepsAppend(start, before, [Mine(op)]);
      OneStep(Contents(), Mine(op));
      steps := before + [Mine(op)];
      ok := TransactPreview(k, readJob, item, preview);
    }

    /** Stores a previewed item once. Storing the same item again changes nothing and succeeds. */
    method PutPreview(k: ItemKey, item: Item, turn: nat -> seq<Op>) returns (r: Outcome, ghost steps: seq<Step>)
      requires Valid() && FreshItem(item) && ValidDigest(item.digest)
      modifies this
      ensures Valid() && Contents() == Run(old(Contents()), Ops(steps))
      ensures var mine := Committed(old(Contents()), steps);
              && |mine| <= 1 && (forall op | op in mine :: op.PutPreviewItem? && op.k == k && op.item == item)
      ensures r == Done ==> k in items && items[k] == item
      ensures Offered(steps, turn)
      ensures Quiet(turn) ==> Contents() == PreviewedBy(old(Contents()), k, item)
      ensures Quiet(turn) ==>
                (r == Done <==>
                   && JobRead(old(Contents()), k.job).Found? && old(jobs)[k.job].state == Previewing
                   && (if k in old(items) then old(items)[k] == item
                       else AddPreviewItem(old(jobs)[k.job].preview, item).Some?))
    {
      hide Inv;
      hide Commits;
      hide Apply;
      hide Run;
      hide Committed;
      hide ValidJob;
      hide AddPreviewItem;
      hide FreshItem;
      hide Recorded;
      hide Offered;
      hide Quiet;
      ghost var start := Contents();
      NoSteps(start);
      NothingIsLater(start);
      NothingOffered(turn);
      if k.job in jobs { CurrentPreviewCommits(start, k, item); }
      r, steps := Conflict, [];
      steps := Pause(turn, 0, start, steps);
      var job := LoadJob(k.job);
      if k.job in jobs { LoadedJobIsCopy(Contents(), k.job); }
      if !job.Found? || job.value.state != Previewing { return; }
      steps := Pause(turn, 1, start, steps);
      if k in items {
        if items[k] == item { r := Done; }
        return;
      }
      var preview := AddPreviewItem(job.value.preview, item);
      if preview.None? { return; }
      steps := Pause(turn, 2, start, steps);
      OfferedMine(steps, Op.PutPreviewItem(k, job.value, item), turn);
      var ok, after := CommitPreview(k, job.value, item, preview.value, start, steps);
      steps := after;
      if ok || (k in items && items[k] == item) { r := Done; }
    }

    // -------------------------------------------------------------- job transitions

    /** A whole-row job write under the condition that the read copy still matches. */
    method TransactJob(op: Op, j: JobId, readJob: Job, updated: Job) returns (ok: bool)
      requires JobUpdate(op) == Some((j, readJob, updated)) && (j, readJob) in jobCopies && j in jobs && ValidJob(readJob)
      modifies this
      ensures ok == Commits(old(Contents()), op)
      ensures Contents() == Apply(old(Contents()), op)
    {
      UpdatesAreJobOps(op);
      hide ValidJob;
      hide JobUpdate;
      hide JobUnchanged;
      ok := JobUnchanged(readJob, jobs[j]);
      if ok { WriteJob(j, updated); }
    }

    /** The write of a job transition as a step of this worker. */
    method CommitJob(op: Op, j: JobId, readJob: Job, updated: Job, ghost start: System, ghost before: seq<Step>)
      returns (ok: bool, ghost steps: seq<Step>)
      requires Valid() && Contents() == Run(start, Ops(before)) && Later(start, Contents())
      requires JobUpdate(op) == Some((j, readJob, updated)) && (j, readJob) in jobCopies && ValidJob(readJob)
      modifies this
      ensures Valid() && Contents() == Run(start, Ops(steps))
      ensures Committed(start, steps) == Committed(start, before) + if ok then [op] else []
      ensures steps == before + [Mine(op)] && ok == Commits(old(Contents()), op) && Contents() == Apply(old(Contents()), op)
      ensures ok ==> j in old(jobs) && old(jobs[j]) == readJob && j in jobs && jobs[j] == updated
    {
      hide Inv;
      hide Commits;
      hide Apply;
      hide Run;
      hide Committed;
      hide ValidJob;
      hide JobUpdate;
      hide JobUnchanged;
      JobCopyFacts(Contents(), j, readJob);
      ApplyKeepsInv(Contents(), op);
      StepsAppend(start, before, [Mine(op)]);
      OneStep(Contents(), Mine(op));
      steps := before + [Mine(op)];
      ghost var s := Contents();
      ok := TransactJob(op, j, readJob, updated);
      if ok { JobOpWrites(s, op); }
    }

    /** The job row a command writes; None when it is refused. */
    method ControlledRow(j: JobId, job: Job, expectedRevision: int, action: ControlAction, applied: Option<Item>)
      returns (updated: Option<Job>)
      ensures updated.Some? <==> job.revision == expectedRevision && IsAccepted(job, action, applied)
      ensures updated.Some? ==>
                && JobUpdate(Op.Control(j, job, expectedRevision, action, applied.Some?)) == Some((j, job, updated.value))
                && ControlLeaves(job, updated.value, action)
    {
      hide JobUpdate;
      hide ControlTarget;
      hide ControlLeaves;
      hide IsAccepted;
      hide ValidItem;
      AcceptedExactly(job, action, applied);
      if job.revision != expectedRevision { return None; }
      if AsksIndex(job, action) && applied.Some? && (!ValidItem(applied.value) || applied.value.scheduleId.None?) { return None; }
      var target := ControlTarget(job, action, applied.Some?);
      if target.None? { return None; }
      ControlIsUpdate(j, job, action, applied.Some?);
      AcceptedLeaves(job, action, applied.Some?);
      var moved := job.(state := target.value, revision := job.revision + 1);
      if job.state == Paused && action == Resume && job.canaryApprovalRequired {
        moved := moved.(canaryApproved := true, canaryApprovalRequired := false);
      }
      updated := Some(moved);
    }

    /** A command of the operator. `applied` is the applied item the index returned, which decides
        whether an ended job can still be canceled. */
    method Control(j: JobId, expectedRevision: int, action: ControlAction, applied: Option<Item>, turn: nat -> seq<Op>)
      returns (r: Outcome, ghost steps: seq<Step>)
      requires Valid()
      modifies this
      ensures Valid() && Contents() == Run(old(Contents()), Ops(steps))
      ensures forall op | op in Committed(old(Contents()), steps) ::
                op.Control? && op.j == j && op.expectedRevision == expectedRevision && op.action == action
      ensures |Committed(old(Contents()), steps)| == if r == Done then 1 else 0
      ensures Offered(steps, turn)
      ensures Quiet(turn) ==>
                var s := old(Contents());
                && (r == Done <==> JobRead(s, j).Found? && s.jobs[j].revision == expectedRevision && IsAccepted(s.jobs[j], action, applied))
                && Contents() == (if r == Done then Apply(s, Op.Control(j, s.jobs[j], expectedRevision, action, applied.Some?)) else s)
                && (r == Done ==> j in jobs && ControlLeaves(s.jobs[j], jobs[j], action))
    {
      hide Inv;
      hide Commits;
      hide Apply;
      hide Run;
      hide Committed;
      hide Recorded;
      hide JobUpdate;
      hide ControlLeaves;
      hide IsAccepted;
      hide Offered;
      hide Quiet;
      hide ValidJob;
      hide JobRead;
      ghost var start := Contents();
      NoSteps(start);
      NothingIsLater(start);
      NothingOffered(turn);
      r, steps := Conflict, [];
      steps := Pause(turn, 0, start, steps);
      var job := LoadJob(j);
      FoundIsCurrent(Contents(), j);
      if j in jobs { LoadedJobIsCopy(Contents(), j); }
      if !job.Found? { return; }
      var updated := ControlledRow(j, job.value, expectedRevision, action, applied);
      if updated.None? { return; }
      steps := Pause(turn, 1, start, steps);
      var op := Op.Control(j, job.value, expectedRevision, action, applied.Some?);
      OfferedMine(steps, op, turn);
      if Quiet(turn) { CurrentJobOpsCommit(start, op, j); }
      var ok, after := CommitJob(op, j, job.value, updated.value, start, steps);
      steps := after;
      if ok { r := Done; }
    }

    /** When to look again at a job with open items. */
    method ComputeDelay(job: Job, found: WorkReads, at: int) returns (delay: Option<int>)
      ensures delay == WorkDelay(job, found, at)
      ensures delay.Some? ==> 0 <= delay.value <= 900
      ensures found == WorkReads(None, None, None, None, None) ==>
                delay == if job.awaitingProvider == job.counts.pending then None else Some(2)
    {
      var actionable := found.pending.Some?;
      var wakeups: seq<int> := [];
      if found.dueRetry.Some? { actionable := true; }
      if found.nextRetry.Some? && found.nextRetry.value.nextAttemptAt.Some? {
        wakeups := wakeups + [found.nextRetry.value.nextAttemptAt.value];
      }
      if found.dueLease.Some? { actionable := true; }
      if found.nextLease.Some? && found.nextLease.value.holder.Some? {
        wakeups := wakeups + [found.nextLease.value.holder.value.expiresAt];
      }
      if actionable { return Some(0); }
      if wakeups != [] {
        var soonest := wakeups[0];
        for i := 1 to |wakeups|
          invariant soonest in wakeups && forall x | x in wakeups[..i] :: soonest <= x
        {
          if wakeups[i] < soonest { soonest := wakeups[i]; }
        }
        assert wakeups[..|wakeups|] == wakeups && wakeups[0] in wakeups && wakeups[|wakeups| - 1] in wakeups;
        assert soonest == wakeups[0] || soonest == wakeups[|wakeups| - 1];
        assert NextWakeup(found) == Some(soonest);
        var wait := soonest - at;
        if 900 < wait { wait := 900; }
        if wait < 1 { wait := 1; }
        return Some(wait);
      }
      if job.awaitingProvider == job.counts.pending { return None; }
      return Some(2);
    }

    /** Looks at a running job after a batch: pauses it for the canary approval, ends it, or says
        when to look again. The five index answers come in as `found`; the step raises when the job or an
        answer cannot be loaded. */
    method ContinueExecution(j: JobId, at: int, found: WorkReads, turn: nat -> seq<Op>)
      returns (r: Continuation, ghost steps: seq<Step>)
      requires Valid()
      modifies this
      ensures Valid() && Contents() == Run(old(Contents()), Ops(steps))
      ensures var mine := Committed(old(Contents()), steps);
              && |mine| <= 1
              && (forall op | op in mine :: op.ContinueExecution? && op.j == j)
              && (mine != [] ==> r == Stop)
      ensures r.LookAgain? ==>
                && (j, r.job) in jobCopies && r.job.state == Running && ContinueTarget(r.job).None?
                && WorkDelay(r.job, found, at) == Some(r.seconds) && 0 <= r.seconds <= 900
      ensures Offered(steps, turn)
      ensures Quiet(turn) ==> r == ContinueReply(old(Contents()), j, at, found) && Contents() == ContinuedBy(old(Contents()), j, found)
    {
      hide Inv;
      hide Commits;
      hide Apply;
      hide Run;
      hide Committed;
      hide Recorded;
      hide JobUpdate;
      hide Offered;
      hide Quiet;
      hide WorkDelay;
      hide ValidJob;
      hide ValidItem;
      hide ReadsLoad;
      ghost var start := Contents();
      NoSteps(start);
      NothingIsLater(start);
      NothingOffered(turn);
      if j in jobs { ContinueCommitsOnTarget(start, j, found); }
      r, steps := Stop, [];
      steps := Pause(turn, 0, start, steps);
      var loaded := LoadJob(j);
      if j in jobs { LoadedJobIsCopy(Contents(), j); }
      if loaded.Unreadable? { r := Refused; return; }
      if loaded.Absent? || loaded.value.state != Running { return; }
      var job := loaded.value;
      steps := Pause(turn, 1, start, steps);
      if !ReadsLoad(found) { r := Refused; return; }
      var unresolved := job.counts.pending > 0;
      var canaryUnfinished := job.canaryCompleted < job.canaryClaims;
      var shouldPause := unresolved && job.mutationStarted && !job.canaryApproved && !canaryUnfinished;
      var target;
      if shouldPause {
        target := Paused;
      } else if unresolved {
        var delay := ComputeDelay(job, found, at);
        if delay.Some? { r := LookAgain(job, delay.value); }
        return;
      } else if job.counts.needsReview != 0 || job.counts.failed != 0 {
        target := CompletedWithErrors;
      } else {
        target := Completed;
      }
      var updated := job.(state := target, revision := job.revision + 1, canaryApprovalRequired := shouldPause);
      ContinueIsUpdate(j, job);
      OfferedMine(steps, Op.ContinueExecution(j, job), turn);
      var ok, after := CommitJob(Op.ContinueExecution(j, job), j, job, updated, start, steps);
      steps := after;
      if !ok { r := Refused; }
    }

    /** Ends a cancellation when the counter is zero and the index shows no open item. `found` is the
        first row its six queries return. */
    method FinalizeCancellation(j: JobId, found: Option<Item>, turn: nat -> seq<Op>)
      returns (r: Outcome, canceled: bool, ghost steps: seq<Step>)
      requires Valid()
      modifies this
      ensures Valid() && Contents() == Run(old(Contents()), Ops(steps))
      ensures forall op | op in Committed(old(Contents()), steps) :: op.FinalizeCancellation? && op.j == j
      ensures |Committed(old(Contents()), steps)| == if canceled then 1 else 0
      ensures canceled ==> r == Done && j in jobs && jobs[j].state == Canceled
      ensures Offered(steps, turn)
      ensures Quiet(turn) ==>
                var s := old(Contents());
                && (canceled <==> AsksForWork(s, j) && found.None?)
                && (r == Conflict <==> JobRead(s, j).Unreadable? || (AsksForWork(s, j) && !Loads(found)))
                && (canceled <==>
                      && j in s.jobs && ValidJob(s.jobs[j]) && s.jobs[j].state == Canceling
                      && s.jobs[j].counts.pending + s.jobs[j].appliedItems == 0 && found.None?)
                && Contents() == if canceled then Apply(s, Op.FinalizeCancellation(j, s.jobs[j], false)) else s
    {
      hide Inv;
      hide Commits;
      hide Apply;
      hide Run;
      hide Committed;
      hide Recorded;
      hide JobUpdate;
      hide Offered;
      hide Quiet;
      hide ValidJob;
      hide ValidItem;
      ghost var start := Contents();
      NoSteps(start);
      NothingIsLater(start);
      NothingOffered(turn);
      r, canceled, steps := Done, false, [];
      steps := Pause(turn, 0, start, steps);
      var job := LoadJob(j);
      if j in jobs { LoadedJobIsCopy(Contents(), j); }
      if job.Unreadable? { r := Conflict; return; }
      if job.Found? { RemainingIsOpenWork(job.value); }
      if job.Absent? || job.value.state != Canceling || job.value.cancellationRemaining != 0 { return; }
      steps := Pause(turn, 1, start, steps);
      if found.Some? {
        if !ValidItem(found.value) { r := Conflict; }
        return;
      }
      var updated := job.value.(state := Canceled, revision := job.value.revision + 1);
      FinalizeIsUpdate(j, job.value);
      OfferedMine(steps, Op.FinalizeCancellation(j, job.value, false), turn);
      if Quiet(turn) { CurrentJobOpsCommit(start, Op.FinalizeCancellation(j, job.value, false), j); }
      var ok, after := CommitJob(Op.FinalizeCancellation(j, job.value, false), j, job.value, updated, start, steps);
      steps := after;
      canceled := ok;
      if !ok { r := Conflict; }
    }
  }

  lemma RemainingIsOpenWork(job: Job)
    requires ValidJob(job)
    ensures job.state == Canceling ==> job.cancellationRemaining == job.counts.pending + job.appliedItems
  {
  }

  lemma SameBucketKeepsCounts(c: Counts, b: Bucket)
    ensures MoveCount(c, b, b) == c
  {
  }

  lemma UpdatesAreJobOps(op: Op)
    requires JobUpdate(op).Some?
    ensures !(op.PutPreviewItem? || op.RejectPreviewItem? || op.ClaimItem? || op.FinishItem? || op.CreateJob? || op.Tick?)
    ensures JobUpdate(op).value.1 == op.readJob
  {
  }

  lemma JobOpWrites(s: System, op: Op)
    requires Inv(s) && JobUpdate(op).Some? && Commits(s, op)
    ensures var (j, read, updated) := JobUpdate(op).value;
            j in s.jobs && s.jobs[j] == read && j in Apply(s, op).jobs && Apply(s, op).jobs[j] == updated
  {
    hide Inv;
    hide JobUpdate;
    hide ReadsAreValid;
    hide JobUnchanged;
    hide JobOk;
    hide JobFollows;
    hide CountersAgree;
    UpdatesAreJobOps(op);
    var (j, read, updated) := JobUpdate(op).value;
    JobCopyFacts(s, j, read);
    CommittedCopyIsCurrent(read, s.jobs[j]);
  }

  lemma EndingIsReady(job: Job, item: Item, state: ItemState, reason: Option<Reason>)
    requires job.state == Canceling && !IsCancellationTerminal(item.state)
    requires (state == Reverted || state == Skipped || state == NeedsReview) && (state == NeedsReview) == reason.Some?
    ensures FinishValueOf(CompleteCancellation(job, item, state, reason)).Some?
  {
  }

  lemma RetryIsReady(job: Job, item: Item, attempts: int, nextAttemptAt: Option<int>)
    requires 1 <= attempts <= MAX_ATTEMPTS && (attempts < MAX_ATTEMPTS) == nextAttemptAt.Some?
    requires job.state == Canceling && !IsCancellationTerminal(item.state) && item.cancellationAttempts == attempts - 1
    ensures FinishValueOf(RetryCancellation(job, item, attempts, nextAttemptAt)).Some?
  {
  }

  lemma WebhookIsReady(job: Job, item: Item, updateApplied: bool, sourceCount: nat, targetCount: nat, event: Event)
    requires !WebhookIsLate(job, item, event) && WebhookMayFinish(item.state)
    requires var target := WebhookTarget(job, item, updateApplied, sourceCount, targetCount);
             target.Some? && !(item.state == target.value.0 && item.reason == target.value.1)
    ensures FinishValueOf(WebhookUpdate(job, item, updateApplied, sourceCount, targetCount, event)).Some?
  {
  }

  lemma CallerCopiesStay(s: System, t: System, k: ItemKey, c: Caller)
    requires CallerCopies(s, k, c) && Later(s, t)
    ensures CallerCopies(t, k, c)
  {
  }
}
