/**
 Stripe command receipts and operation claims. A receipt belongs to one idempotency key, an operation
 claim to one resource dimension; a command runs under both. Operations carry what they read and
 commit only if their conditions hold of the current rows.
 */
module Commands {
  import opened Types
  import Mappings = ResourceMappings

  type ReceiptKey = string
  type ResourceId = string

  datatype Status = Pending | Unknown | Accepted | NeedsReview | Rejected

  /** A resource dimension. A subscription mutation has one per revision. */
  datatype OperationKey = OperationKey(resourceType: string, resource: ResourceId, dimension: string, mutation: Option<int>)

  datatype Claim = Claim(resourceType: string, resource: ResourceId, dimension: string, revision: int, contentHash: string)

  /** A command as its request hash sees it: SHA-256 is injective, so the request stands for the hash,
      and it determines the claim. */
  datatype Request = Request(command: string, claim: Claim, input: string)

  datatype Receipt = Receipt(request: Request, status: Status)

  datatype Operation = Operation(revision: int, contentHash: string, request: Request, status: Status)

  /** An accepted command. */
  datatype Acceptance = Acceptance(key: OperationKey, revision: int, request: Request)

  datatype Table = Table(
    receipts: map<ReceiptKey, Receipt>, operations: map<OperationKey, Operation>,
    mappings: map<ResourceId, Mappings.Mapping>, accepted: seq<Acceptance>)

  const EMPTY := Table(map[], map[], map[], [])

  datatype Op =
    | TakeClaim(key: ReceiptKey, request: Request, read: Option<Operation>)
    | Complete(key: ReceiptKey, request: Request, writes: map<ResourceId, Mappings.Write>)
    | Transition(key: ReceiptKey, request: Request, target: Status)

  function KeyOf(c: Claim): OperationKey {
    OperationKey(c.resourceType, c.resource, c.dimension,
                 if c.resourceType == "subscription" && c.dimension == "mutation" then Some(c.revision) else None)
  }

  predicate IsOpen(s: Status) { s == Pending || s == Unknown }

  // ---------------------------------------------------------------- the claim

  /** What a claim does after reading the operation row: start it, join the same command, advance an
      accepted dimension to a newer revision, or give up. */
  datatype Plan = Start | Join(status: Status) | Advance(expected: int, expectedHash: string) | GiveUp

  function PlanOf(request: Request, read: Option<Operation>): Plan {
    if read.None? then Start
    else
      var o := read.value;
      if o.revision == request.claim.revision && o.contentHash == request.claim.contentHash then
        if o.request == request then Join(o.status) else GiveUp
      else if o.status == Accepted && o.revision < request.claim.revision then Advance(o.revision, o.contentHash)
      else GiveUp
  }

  predicate ClaimCommits(t: Table, key: ReceiptKey, request: Request, read: Option<Operation>) {
    var k := KeyOf(request.claim);
    && key !in t.receipts
    && match PlanOf(request, read)
       case Start => k !in t.operations
       case Join(status) =>
         k in t.operations && t.operations[k] == Operation(request.claim.revision, request.claim.contentHash, request, status)
       case Advance(expected, expectedHash) =>
         && k in t.operations && t.operations[k].status == Accepted
         && t.operations[k].revision == expected && t.operations[k].contentHash == expectedHash
       case GiveUp => false
  }

  /** A claim that does not join a running command starts the work for its revision. */
  predicate IsFresh(op: Op) {
    op.TakeClaim? && (PlanOf(op.request, op.read).Start? || PlanOf(op.request, op.read).Advance?)
  }

  predicate Undecided(t: Table, key: ReceiptKey, request: Request) {
    && key in t.receipts && t.receipts[key].request == request && IsOpen(t.receipts[key].status)
    && KeyOf(request.claim) in t.operations
    && t.operations[KeyOf(request.claim)].request == request
    && IsOpen(t.operations[KeyOf(request.claim)].status)
  }

  function MappingAt(t: Table, r: ResourceId): Option<Mappings.Mapping> {
    if r in t.mappings then Some(t.mappings[r]) else None
  }

  predicate Commits(t: Table, op: Op) {
    match op
    case TakeClaim(key, request, read) => ClaimCommits(t, key, request, read)
    case Complete(key, request, writes) =>
      Undecided(t, key, request) && forall r | r in writes :: Mappings.Allowed(MappingAt(t, r), writes[r])
    case Transition(key, request, target) =>
      Undecided(t, key, request) && (target == Unknown || target == NeedsReview || target == Rejected)
  }

  /** Both rows of a command take a status. */
  function Decide(t: Table, key: ReceiptKey, request: Request, status: Status): Table
    requires Undecided(t, key, request)
  {
    var k := KeyOf(request.claim);
    t.(receipts := t.receipts[key := Receipt(request, status)],
       operations := t.operations[k := t.operations[k].(status := status)])
  }

  function WriteMappings(t: Table, writes: map<ResourceId, Mappings.Write>): map<ResourceId, Mappings.Mapping>
    requires forall r | r in writes :: Mappings.Allowed(MappingAt(t, r), writes[r])
  {
    map r | r in t.mappings.Keys + writes.Keys ::
      if r in writes then Mappings.Written(MappingAt(t, r), writes[r]) else t.mappings[r]
  }

  function Effect(t: Table, op: Op): Table
    requires Commits(t, op)
  {
    match op
    case TakeClaim(key, request, read) =>
      var k := KeyOf(request.claim);
      (match PlanOf(request, read)
       case Join(status) => t.(receipts := t.receipts[key := Receipt(request, status)])
       case _ =>
         t.(receipts := t.receipts[key := Receipt(request, Pending)],
            operations := t.operations[k := Operation(request.claim.revision, request.claim.contentHash, request, Pending)]))
    case Complete(key, request, writes) =>
      var k := KeyOf(request.claim);
      Decide(t, key, request, Accepted).(
        mappings := WriteMappings(t, writes),
        accepted := t.accepted + [Acceptance(k, t.operations[k].revision, request)])
    case Transition(key, request, target) => Decide(t, key, request, target)
  }

  function Apply(t: Table, op: Op): Table { if Commits(t, op) then Effect(t, op) else t }

  function Run(t: Table, ops: seq<Op>): Table
    decreases |ops|
  {
    if ops == [] then t else Run(Apply(t, ops[0]), ops[1..])
  }

  // ---------------------------------------------------------------- the invariant

  predicate OperationOk(k: OperationKey, o: Operation) {
    k == KeyOf(o.request.claim) && o.revision == o.request.claim.revision && o.contentHash == o.request.claim.contentHash
  }

  /** A receipt against the operation row it was taken under: that row still carries the command, and
      then a decided receipt has the row's status, or it has gone on to a newer revision. */
  predicate ReceiptOk(r: Receipt, o: Operation) {
    if o.request == r.request then !IsOpen(r.status) ==> o.status == r.status
    else r.request.claim.revision < o.revision
  }

  function AcceptedOf(accepted: seq<Acceptance>, k: OperationKey): seq<Acceptance> {
    if accepted == [] then []
    else
      AcceptedOf(accepted[..|accepted| - 1], k)
      + (if accepted[|accepted| - 1].key == k then [accepted[|accepted| - 1]] else [])
  }

  predicate Increasing(log: seq<Acceptance>) {
    forall i, j | 0 <= i < j < |log| :: log[i].revision < log[j].revision
  }

  /** The accepted revisions of a dimension up to what its row says. */
  predicate LogOk(t: Table, k: OperationKey) {
    var log := AcceptedOf(t.accepted, k);
    && Increasing(log)
    && (log != [] ==> k in t.operations)
    && (forall a | a in log :: a.key == k == KeyOf(a.request.claim) && a.revision == a.request.claim.revision)
    && (k in t.operations ==>
          if t.operations[k].status == Accepted
          then log != [] && log[|log| - 1] == Acceptance(k, t.operations[k].revision, t.operations[k].request)
          else forall a | a in log :: a.revision < t.operations[k].revision)
  }

  predicate RowsOk(t: Table) {
    && (forall k | k in t.operations :: OperationOk(k, t.operations[k]))
    && (forall x | x in t.receipts ::
          var k := KeyOf(t.receipts[x].request.claim);
          k in t.operations && ReceiptOk(t.receipts[x], t.operations[k]))
  }

  ghost predicate Inv(t: Table) { RowsOk(t) && forall k :: LogOk(t, k) }

  /** How an operation row changes: an open one is decided, an accepted one goes on. */
  predicate Moves(o: Operation, n: Operation) {
    || (n.request == o.request && n.revision == o.revision && IsOpen(o.status))
    || (n.request != o.request && o.revision < n.revision)
  }

  lemma ReceiptsFollow(r: Receipt, o: Operation, n: Operation)
    requires ReceiptOk(r, o) && Moves(o, n)
    requires OperationOk(KeyOf(o.request.claim), o) && OperationOk(KeyOf(n.request.claim), n)
    ensures ReceiptOk(r, n)
  {
  }

  lemma WriteRows(t: Table, x: ReceiptKey, r: Receipt, n: Operation)
    requires RowsOk(t) && OperationOk(KeyOf(r.request.claim), n) && ReceiptOk(r, n)
    requires KeyOf(r.request.claim) in t.operations ==> Moves(t.operations[KeyOf(r.request.claim)], n)
    ensures RowsOk(t.(receipts := t.receipts[x := r], operations := t.operations[KeyOf(r.request.claim) := n]))
  {
    hide OperationOk;
    hide ReceiptOk;
    hide Moves;
    var k := KeyOf(r.request.claim);
    var after := t.(receipts := t.receipts[x := r], operations := t.operations[k := n]);
    forall y | y in after.receipts
      ensures KeyOf(after.receipts[y].request.claim) in after.operations
              && ReceiptOk(after.receipts[y], after.operations[KeyOf(after.receipts[y].request.claim)])
    {
      if y != x && KeyOf(t.receipts[y].request.claim) == k {
        OperationKeyIs(k, t.operations[k]);
        OperationKeyIs(k, n);
        ReceiptsFollow(t.receipts[y], t.operations[k], n);
      }
    }
  }

  lemma OperationKeyIs(k: OperationKey, o: Operation)
    requires OperationOk(k, o)
    ensures k == KeyOf(o.request.claim)
  {
  }

  /** Only receipts and operations matter. */
  lemma SameRows(t: Table, n: Table)
    requires RowsOk(t) && n.receipts == t.receipts && n.operations == t.operations
    ensures RowsOk(n)
  {
  }

  lemma StepKeepsRows(t: Table, op: Op)
    requires RowsOk(t)
    ensures RowsOk(Apply(t, op))
  {
    if Commits(t, op) {
      var k := KeyOf(op.request.claim);
      if k in t.operations { assert OperationOk(k, t.operations[k]); }
      hide RowsOk;
      hide WriteMappings;
      match op
      case TakeClaim(key, request, read) =>
        if PlanOf(request, read).Join? {
          JoinKeepsRows(t, key, request);
        } else {
          WriteRows(t, key, Receipt(request, Pending), Operation(request.claim.revision, request.claim.contentHash, request, Pending));
        }
      case Complete(key, request, writes) =>
        WriteRows(t, key, Receipt(request, Accepted), t.operations[k].(status := Accepted));
        SameRows(Decide(t, key, request, Accepted), Effect(t, op));
      case Transition(key, request, target) =>
        WriteRows(t, key, Receipt(request, target), t.operations[k].(status := target));
    }
  }

  lemma JoinKeepsRows(t: Table, key: ReceiptKey, request: Request)
    requires RowsOk(t) && KeyOf(request.claim) in t.operations && t.operations[KeyOf(request.claim)].request == request
    ensures RowsOk(t.(receipts := t.receipts[key := Receipt(request, t.operations[KeyOf(request.claim)].status)]))
  {
  }

  lemma AcceptedAfter(accepted: seq<Acceptance>, a: Acceptance, k: OperationKey)
    ensures AcceptedOf(accepted + [a], k) == AcceptedOf(accepted, k) + (if a.key == k then [a] else [])
  {
    assert (accepted + [a])[..|accepted|] == accepted;
  }

  /** Rows and log entries of other dimensions do not matter. */
  lemma SameLog(t: Table, n: Table, k: OperationKey)
    requires LogOk(t, k) && AcceptedOf(n.accepted, k) == AcceptedOf(t.accepted, k)
    requires k in n.operations <==> k in t.operations
    requires k in t.operations ==> n.operations[k] == t.operations[k]
    ensures LogOk(n, k)
  {
  }

  /** An operation row that is not accepted yet, with nothing accepted at or above its revision. */
  lemma UnacceptedLog(t: Table, n: Table, k: OperationKey)
    requires LogOk(t, k) && n.accepted == t.accepted && k in n.operations && n.operations[k].status != Accepted
    requires k in t.operations ==>
               if t.operations[k].status == Accepted then t.operations[k].revision < n.operations[k].revision
               else t.operations[k].revision == n.operations[k].revision
    ensures LogOk(n, k)
  {
    var log := AcceptedOf(t.accepted, k);
    forall a | a in log && k in t.operations ensures a.revision < n.operations[k].revision {
      var i :| 0 <= i < |log| && log[i] == a;
      if t.operations[k].status == Accepted && i < |log| - 1 { assert log[i].revision < log[|log| - 1].revision; }
    }
  }

  lemma AcceptedLog(t: Table, n: Table, k: OperationKey)
    requires LogOk(t, k) && k in t.operations && OperationOk(k, t.operations[k]) && t.operations[k].status != Accepted
    requires k in n.operations && n.operations[k] == t.operations[k].(status := Accepted)
    requires n.accepted == t.accepted + [Acceptance(k, t.operations[k].revision, t.operations[k].request)]
    ensures LogOk(n, k)
  {
    var log, last := AcceptedOf(t.accepted, k), Acceptance(k, t.operations[k].revision, t.operations[k].request);
    AcceptedAfter(t.accepted, last, k);
    forall i | 0 <= i < |log| ensures log[i].revision < last.revision { assert log[i] in log; }
  }

  lemma RowIsOk(t: Table, k: OperationKey)
    requires RowsOk(t) && k in t.operations
    ensures OperationOk(k, t.operations[k])
  {
  }

  /** A committed operation leaves the log and the row of every other dimension alone, and a claim that
      joins its own, too. */
  lemma OtherLogsStay(t: Table, op: Op, k: OperationKey)
    requires LogOk(t, k) && Commits(t, op) && (KeyOf(op.request.claim) != k || (op.TakeClaim? && !IsFresh(op)))
    ensures LogOk(Effect(t, op), k)
  {
    hide LogOk;
    hide WriteMappings;
    hide AcceptedOf;
    var own := KeyOf(op.request.claim);
    if op.Complete? { AcceptedAfter(t.accepted, Acceptance(own, t.operations[own].revision, op.request), k); }
    SameLog(t, Effect(t, op), k);
  }

  lemma CompletionKeepsLog(t: Table, op: Op)
    requires RowsOk(t) && op.Complete? && Commits(t, op) && LogOk(t, KeyOf(op.request.claim))
    ensures LogOk(Effect(t, op), KeyOf(op.request.claim))
  {
    hide RowsOk;
    hide LogOk;
    hide WriteMappings;
    hide AcceptedOf;
    RowIsOk(t, KeyOf(op.request.claim));
    AcceptedLog(t, Effect(t, op), KeyOf(op.request.claim));
  }

  lemma StepKeepsLog(t: Table, op: Op, k: OperationKey)
    requires RowsOk(t) && LogOk(t, k)
    ensures LogOk(Apply(t, op), k)
  {
    hide RowsOk;
    hide LogOk;
    hide WriteMappings;
    hide AcceptedOf;
    if Commits(t, op) {
      if KeyOf(op.request.claim) != k || (op.TakeClaim? && !IsFresh(op)) {
        OtherLogsStay(t, op, k);
      } else if op.Complete? {
        CompletionKeepsLog(t, op);
      } else {
        UnacceptedLog(t, Effect(t, op), k);
      }
    }
  }

  lemma StepKeepsInv(t: Table, op: Op)
    requires Inv(t)
    ensures Inv(Apply(t, op))
  {
    StepKeepsRows(t, op);
    hide Apply;
    hide RowsOk;
    forall k ensures LogOk(Apply(t, op), k) { StepKeepsLog(t, op, k); }
  }

  lemma {:induction false} RunKeepsInv(t: Table, ops: seq<Op>)
    requires Inv(t)
    ensures Inv(Run(t, ops))
    decreases |ops|
  {
    hide Inv;
    hide Apply;
    if ops == [] {
    } else {
      StepKeepsInv(t, ops[0]);
      RunKeepsInv(Apply(t, ops[0]), ops[1..]);
    }
  }

  // ---------------------------------------------------------------- what is accepted

  /** In every run the accepted revisions of a resource dimension strictly increase; so each accepted
      revision belongs to one request. */
  lemma AcceptedRevisionsIncrease(ops: seq<Op>, k: OperationKey)
    ensures var log := AcceptedOf(Run(EMPTY, ops).accepted, k);
            && Increasing(log)
            && (forall i, j | 0 <= i < |log| && 0 <= j < |log| && log[i].revision == log[j].revision :: log[i].request == log[j].request)
  {
    hide Run;
    RunKeepsInv(EMPTY, ops);
    assert LogOk(Run(EMPTY, ops), k);
  }

  /** In every run a subscription revision admits at most one mutation. */
  lemma OneMutationPerSubscriptionRevision(ops: seq<Op>, k: OperationKey)
    requires k.mutation.Some?
    ensures |AcceptedOf(Run(EMPTY, ops).accepted, k)| <= 1
  {
    hide Run;
    hide AcceptedOf;
    var log := AcceptedOf(Run(EMPTY, ops).accepted, k);
    if 2 <= |log| {
      assert log[0] in log && log[1] in log;
      AcceptancesAreOf(ops, k);
      AcceptedRevisionsIncrease(ops, k);
    }
  }

  lemma AcceptancesAreOf(ops: seq<Op>, k: OperationKey)
    ensures forall a | a in AcceptedOf(Run(EMPTY, ops).accepted, k) :: k == KeyOf(a.request.claim) && a.revision == a.request.claim.revision
  {
    hide Run;
    RunKeepsInv(EMPTY, ops);
    assert LogOk(Run(EMPTY, ops), k);
  }

  /** Accepted, rejected and needs-review receipts never change again. */
  lemma {:induction false} DecidedReceiptsStay(t: Table, ops: seq<Op>, key: ReceiptKey)
    requires key in t.receipts && !IsOpen(t.receipts[key].status)
    ensures key in Run(t, ops).receipts && Run(t, ops).receipts[key] == t.receipts[key]
    decreases |ops|
  {
    hide WriteMappings;
    if ops == [] {
    } else {
      DecidedReceiptsStay(Apply(t, ops[0]), ops[1..], key);
    }
  }

  // ---------------------------------------------------------------- what can no longer be decided

  /** A rejected or reviewed command blocks its dimension: the operation row never changes again, so
      no later revision is ever started or accepted there. */
  lemma {:induction false} FailedOperationsBlock(t: Table, ops: seq<Op>, k: OperationKey)
    requires k in t.operations && (t.operations[k].status == Rejected || t.operations[k].status == NeedsReview)
    ensures k in Run(t, ops).operations && Run(t, ops).operations[k] == t.operations[k]
    ensures AcceptedOf(Run(t, ops).accepted, k) == AcceptedOf(t.accepted, k)
    decreases |ops|
  {
    if ops == [] {
    } else {
      var n := Apply(t, ops[0]);
      BlockedStep(t, ops[0], k);
      FailedOperationsBlock(n, ops[1..], k);
    }
  }

  /** When a dimension can go on: a claim of a higher revision under a fresh key, whatever it has read,
      can only commit while no command holds the dimension or the last one was accepted; read from
      the current row it then does. */
  lemma HigherRevisionsFollowAcceptance(t: Table, key: ReceiptKey, request: Request)
    requires var k := KeyOf(request.claim); k in t.operations ==> t.operations[k].revision < request.claim.revision
    requires key !in t.receipts
    ensures var k := KeyOf(request.claim);
            (exists read :: Commits(t, TakeClaim(key, request, read))) <==> k !in t.operations || t.operations[k].status == Accepted
    ensures var k := KeyOf(request.claim); var current := if k in t.operations then Some(t.operations[k]) else None;
            (exists read :: Commits(t, TakeClaim(key, request, read))) <==> Commits(t, TakeClaim(key, request, current))
  {
    var k := KeyOf(request.claim);
    var current := if k in t.operations then Some(t.operations[k]) else None;
    if k !in t.operations || t.operations[k].status == Accepted { assert Commits(t, TakeClaim(key, request, current)); }
  }

  lemma BlockedStep(t: Table, op: Op, k: OperationKey)
    requires k in t.operations && (t.operations[k].status == Rejected || t.operations[k].status == NeedsReview)
    ensures k in Apply(t, op).operations && Apply(t, op).operations[k] == t.operations[k]
    ensures AcceptedOf(Apply(t, op).accepted, k) == AcceptedOf(t.accepted, k)
  {
    hide WriteMappings;
    if op.Complete? && Commits(t, op) {
      var own := KeyOf(op.request.claim);
      AcceptedAfter(t.accepted, Acceptance(own, t.operations[own].revision, op.request), k);
    }
  }

  /** An open receipt whose operation row is decided or has gone on. */
  predicate IsStuck(t: Table, key: ReceiptKey) {
    && key in t.receipts && IsOpen(t.receipts[key].status)
    && !Undecided(t, key, t.receipts[key].request)
  }

  predicate IsDecidedFor(t: Table, y: ReceiptKey, request: Request) {
    y in t.receipts && t.receipts[y].request == request && !IsOpen(t.receipts[y].status)
  }

  predicate HasDecided(t: Table, request: Request) { exists y | y in t.receipts :: IsDecidedFor(t, y, request) }

  /** Whoever decides a command leaves a decided receipt of it behind: for a decided operation row, and
      for every receipt whose row has gone on to another command. */
  predicate DecisionsAreKept(t: Table)
    requires RowsOk(t)
  {
    && (forall k | k in t.operations && !IsOpen(t.operations[k].status) :: HasDecided(t, t.operations[k].request))
    && (forall x | x in t.receipts && t.operations[KeyOf(t.receipts[x].request.claim)].request != t.receipts[x].request ::
          HasDecided(t, t.receipts[x].request))
  }

  lemma DecidedStays(t: Table, op: Op, request: Request)
    requires HasDecided(t, request)
    ensures HasDecided(Apply(t, op), request)
  {
    hide WriteMappings;
    var y :| y in t.receipts && IsDecidedFor(t, y, request);
    assert IsDecidedFor(Apply(t, op), y, request);
  }

  /** The rows a committed operation leaves: its own receipt with its operation row, all others as before. */
  lemma RowsAfter(t: Table, op: Op)
    requires RowsOk(t) && Commits(t, op)
    ensures var k := KeyOf(op.request.claim); var n := Effect(t, op);
            && op.key in n.receipts && n.receipts[op.key].request == op.request
            && k in n.operations && n.operations[k].request == op.request
            && (!IsOpen(n.operations[k].status) ==> !IsOpen(n.receipts[op.key].status))
            && n.receipts == t.receipts[op.key := n.receipts[op.key]]
            && n.operations == t.operations[k := n.operations[k]]
    ensures var k := KeyOf(op.request.claim);
            k in t.operations ==> t.operations[k].request == op.request || t.operations[k].status == Accepted
  {
    hide RowsOk;
    hide WriteMappings;
  }

  lemma StepKeepsDecisions(t: Table, op: Op)
    requires RowsOk(t) && DecisionsAreKept(t)
    ensures RowsOk(Apply(t, op)) && DecisionsAreKept(Apply(t, op))
  {
    StepKeepsRows(t, op);
    if Commits(t, op) {
      var n, own := Apply(t, op), KeyOf(op.request.claim);
      RowsAfter(t, op);
      hide Apply;
      hide Commits;
      hide HasDecided;
      forall k | k in n.operations && !IsOpen(n.operations[k].status) ensures HasDecided(n, n.operations[k].request) {
        if k == own { OwnDecision(n, op.key, op.request); } else { DecidedStays(t, op, t.operations[k].request); }
      }
      forall x | x in n.receipts && n.operations[KeyOf(n.receipts[x].request.claim)].request != n.receipts[x].request
        ensures HasDecided(n, n.receipts[x].request)
      {
        DecidedStays(t, op, t.receipts[x].request);
      }
    }
  }

  lemma OwnDecision(t: Table, key: ReceiptKey, request: Request)
    requires IsDecidedFor(t, key, request)
    ensures HasDecided(t, request)
  {
  }

  lemma {:induction false} RunKeepsDecisions(t: Table, ops: seq<Op>)
    requires RowsOk(t) && DecisionsAreKept(t)
    ensures RowsOk(Run(t, ops)) && DecisionsAreKept(Run(t, ops))
    decreases |ops|
  {
    hide RowsOk;
    hide DecisionsAreKept;
    hide Apply;
    if ops == [] {
    } else {
      StepKeepsDecisions(t, ops[0]);
      RunKeepsDecisions(Apply(t, ops[0]), ops[1..]);
    }
  }

  /** In every run an open receipt is stuck exactly when its command has been decided under some other
      idempotency key; until then it can be accepted at once. */
  lemma StuckExactlyWhenDecidedElsewhere(ops: seq<Op>, key: ReceiptKey)
    requires key in Run(EMPTY, ops).receipts && IsOpen(Run(EMPTY, ops).receipts[key].status)
    ensures var t := Run(EMPTY, ops);
            IsStuck(t, key) <==> exists y | y in t.receipts :: IsDecidedFor(t, y, t.receipts[key].request)
    ensures var t := Run(EMPTY, ops); !IsStuck(t, key) ==> Commits(t, Complete(key, t.receipts[key].request, map[]))
  {
    hide Run;
    RunKeepsDecisions(EMPTY, ops);
  }

  predicate IsReceiptOf(t: Table, y: ReceiptKey, request: Request) { y in t.receipts && t.receipts[y].request == request }

  /** Every operation row has a receipt of its command. */
  predicate RowsHaveReceipts(t: Table) {
    forall k | k in t.operations :: exists y | y in t.receipts :: IsReceiptOf(t, y, t.operations[k].request)
  }

  lemma ReceiptStaysOf(t: Table, op: Op, y: ReceiptKey, request: Request)
    requires IsReceiptOf(t, y, request)
    ensures IsReceiptOf(Apply(t, op), y, request)
  {
    hide WriteMappings;
  }

  lemma StepKeepsReceipts(t: Table, op: Op)
    requires RowsOk(t) && RowsHaveReceipts(t)
    ensures RowsHaveReceipts(Apply(t, op))
  {
    if Commits(t, op) {
      RowsAfter(t, op);
      var n := Apply(t, op);
      hide Apply;
      hide Commits;
      hide RowsOk;
      forall k | k in n.operations ensures exists y | y in n.receipts :: IsReceiptOf(n, y, n.operations[k].request) {
        if k == KeyOf(op.request.claim) {
          assert IsReceiptOf(n, op.key, n.operations[k].request);
        } else {
          var y :| y in t.receipts && IsReceiptOf(t, y, t.operations[k].request);
          ReceiptStaysOf(t, op, y, t.operations[k].request);
        }
      }
    }
  }

  lemma {:induction false} RunKeepsReceipts(t: Table, ops: seq<Op>)
    requires RowsOk(t) && RowsHaveReceipts(t)
    ensures RowsOk(Run(t, ops)) && RowsHaveReceipts(Run(t, ops))
    decreases |ops|
  {
    hide RowsOk;
    hide RowsHaveReceipts;
    hide Apply;
    if ops == [] {
    } else {
      StepKeepsRows(t, ops[0]);
      StepKeepsReceipts(t, ops[0]);
      RunKeepsReceipts(Apply(t, ops[0]), ops[1..]);
    }
  }

  /** An open operation row can be accepted at once under some key. */
  lemma OpenRowsCanBeAccepted(t: Table, k: OperationKey) returns (op: Op)
    requires RowsOk(t) && RowsHaveReceipts(t) && k in t.operations && IsOpen(t.operations[k].status)
    ensures Commits(t, op) && op.key in t.receipts && Apply(t, op).receipts.Keys == t.receipts.Keys
    ensures k in Apply(t, op).operations && Apply(t, op).operations[k] == t.operations[k].(status := Accepted)
  {
    var q := t.operations[k].request;
    var y :| y in t.receipts && IsReceiptOf(t, y, q);
    op := Complete(y, q, map[]);
    assert OperationOk(k, t.operations[k]);
    hide WriteMappings;
  }

  /** A request for the next revision of a dimension that is not named by its revision. */
  function NextRequest(k: OperationKey, o: Operation): Request {
    o.request.(claim := Claim(k.resourceType, k.resource, k.dimension, o.revision + 1, o.contentHash))
  }

  lemma AcceptedRowsGoOn(t: Table, k: OperationKey, key: ReceiptKey) returns (op: Op)
    requires RowsOk(t) && k in t.operations && t.operations[k].status == Accepted && k.mutation.None? && key !in t.receipts
    ensures Commits(t, op) && k in Apply(t, op).operations && t.operations[k].revision < Apply(t, op).operations[k].revision
  {
    assert OperationOk(k, t.operations[k]);
    op := TakeClaim(key, NextRequest(k, t.operations[k]), Some(t.operations[k]));
    assert KeyOf(op.request.claim) == k;
  }

  /** The dimension is at a higher revision after the run. */
  predicate GoesOn(t: Table, ops: seq<Op>, k: OperationKey)
    requires k in t.operations
  {
    k in Run(t, ops).operations && t.operations[k].revision < Run(t, ops).operations[k].revision
  }

  lemma RunsOfOneAndTwo(t: Table, a: Op, b: Op)
    ensures Run(t, [a]) == Apply(t, a) && Run(t, [a, b]) == Apply(Apply(t, a), b)
  {
    hide Apply;
    assert [a, b][1..] == [b] && [a][1..] == [] && [b][1..] == [];
    assert Run(t, [a]) == Run(Apply(t, a), []) == Apply(t, a);
    assert Run(t, [a, b]) == Run(Apply(t, a), [b]) == Run(Apply(Apply(t, a), b), []) == Apply(Apply(t, a), b);
  }

  lemma UnfailedGoesOn(t: Table, k: OperationKey, key: ReceiptKey) returns (later: seq<Op>)
    requires RowsOk(t) && RowsHaveReceipts(t) && k in t.operations && k.mutation.None? && key !in t.receipts
    requires t.operations[k].status != Rejected && t.operations[k].status != NeedsReview
    ensures GoesOn(t, later, k)
  {
    hide RowsOk;
    hide RowsHaveReceipts;
    hide Apply;
    hide Commits;
    hide Run;
    if t.operations[k].status == Accepted {
      var claim := AcceptedRowsGoOn(t, k, key);
      RunsOfOneAndTwo(t, claim, claim);
      later := [claim];
    } else {
      var complete := OpenRowsCanBeAccepted(t, k);
      StepKeepsRows(t, complete);
      assert key !in Apply(t, complete).receipts.Keys;
      var claim := AcceptedRowsGoOn(Apply(t, complete), k, key);
      RunsOfOneAndTwo(t, complete, claim);
      later := [complete, claim];
    }
  }

  /** In every run a dimension that has carried a command can still go on to a higher revision, in some
      continuation, exactly unless its last command was rejected or needs review. */
  lemma DimensionsGoOnExactlyUnlessFailed(ops: seq<Op>, k: OperationKey, key: ReceiptKey)
    requires k in Run(EMPTY, ops).operations && k.mutation.None? && key !in Run(EMPTY, ops).receipts
    ensures var t := Run(EMPTY, ops);
            (exists later :: GoesOn(t, later, k))
            <==> t.operations[k].status != Rejected && t.operations[k].status != NeedsReview
  {
    var t := Run(EMPTY, ops);
    RunKeepsReceipts(EMPTY, ops);
    hide Run;
    if t.operations[k].status == Rejected || t.operations[k].status == NeedsReview {
      forall later ensures !GoesOn(t, later, k) { FailedOperationsBlock(t, later, k); }
    } else {
      hide RowsOk;
      hide RowsHaveReceipts;
      var later := UnfailedGoesOn(t, k, key);
      assert GoesOn(t, later, k);
    }
  }

  /** A stuck receipt stays as it is for ever. */
  lemma {:induction false} StuckReceiptsStay(t: Table, ops: seq<Op>, key: ReceiptKey)
    requires Inv(t) && IsStuck(t, key)
    ensures IsStuck(Run(t, ops), key) && Run(t, ops).receipts[key] == t.receipts[key]
    decreases |ops|
  {
    if ops == [] {
    } else {
      StuckStep(t, ops[0], key);
      StepKeepsInv(t, ops[0]);
      hide Inv;
      hide Apply;
      hide IsStuck;
      StuckReceiptsStay(Apply(t, ops[0]), ops[1..], key);
    }
  }

  lemma StuckStep(t: Table, op: Op, key: ReceiptKey)
    requires Inv(t) && IsStuck(t, key)
    ensures IsStuck(Apply(t, op), key) && Apply(t, op).receipts[key] == t.receipts[key]
  {
    var q := t.receipts[key].request;
    var k := KeyOf(q.claim);
    assert k in t.operations && ReceiptOk(t.receipts[key], t.operations[k]) && OperationOk(k, t.operations[k]);
    hide Inv;
    hide WriteMappings;
  }

  // ---------------------------------------------------------------- which commands meet

  /** Two commands wait for one another: they are for one dimension of one resource, and mutations of a
      subscription also for one of its revisions. */
  predicate Meet(a: Claim, b: Claim) {
    && a.resourceType == b.resourceType && a.resource == b.resource && a.dimension == b.dimension
    && (a.resourceType == "subscription" && a.dimension == "mutation" ==> a.revision == b.revision)
  }

  /** Whether some command that meets the claim has been claimed in the run. */
  predicate HasMet(t: Table, ops: seq<Op>, c: Claim)
    decreases |ops|
  {
    ops != [] && ((ops[0].TakeClaim? && Commits(t, ops[0]) && Meet(ops[0].request.claim, c)) || HasMet(Apply(t, ops[0]), ops[1..], c))
  }

  lemma ClaimedStep(t: Table, op: Op, c: Claim)
    ensures KeyOf(c) in Apply(t, op).operations
       <==> KeyOf(c) in t.operations || (op.TakeClaim? && Commits(t, op) && Meet(op.request.claim, c))
  {
    hide WriteMappings;
  }

  lemma {:induction false} RowsAreOfMetClaims(t: Table, ops: seq<Op>, c: Claim)
    ensures KeyOf(c) in Run(t, ops).operations <==> KeyOf(c) in t.operations || HasMet(t, ops, c)
    decreases |ops|
  {
    hide Apply;
    hide Commits;
    hide Meet;
    hide KeyOf;
    if ops == [] {
    } else {
      ClaimedStep(t, ops[0], c);
      RowsAreOfMetClaims(Apply(t, ops[0]), ops[1..], c);
    }
  }

  /** In every run a command that found no operation row is claimed under a fresh key exactly when no command
      that meets it has ever been claimed: mutations of a subscription under different revisions never stop
      one another, all other commands of a dimension do. */
  lemma FirstClaimsCommitExactly(ops: seq<Op>, key: ReceiptKey, request: Request)
    requires key !in Run(EMPTY, ops).receipts
    ensures Commits(Run(EMPTY, ops), TakeClaim(key, request, None)) <==> !HasMet(EMPTY, ops, request.claim)
  {
    hide Run;
    hide HasMet;
    RowsAreOfMetClaims(EMPTY, ops, request.claim);
  }

  // ---------------------------------------------------------------- single flight

  /** How many claims of a run start the work for one revision of a dimension. */
  function Starts(t: Table, ops: seq<Op>, k: OperationKey, revision: int): nat
    decreases |ops|
  {
    if ops == [] then 0 else
    var first := if IsFresh(ops[0]) && Commits(t, ops[0]) && KeyOf(ops[0].request.claim) == k
                    && ops[0].request.claim.revision == revision then 1 else 0;
    first + Starts(Apply(t, ops[0]), ops[1..], k, revision)
  }

  function StartsLeft(t: Table, k: OperationKey, revision: int): nat {
    if k in t.operations && revision <= t.operations[k].revision then 0 else 1
  }

  lemma StartStep(t: Table, op: Op, k: OperationKey, revision: int)
    requires RowsOk(t)
    ensures StartsLeft(Apply(t, op), k, revision)
            + (if IsFresh(op) && Commits(t, op) && KeyOf(op.request.claim) == k && op.request.claim.revision == revision then 1 else 0)
         <= StartsLeft(t, k, revision)
  {
    hide RowsOk;
    hide WriteMappings;
  }

  lemma {:induction false} StartsAreLimited(t: Table, ops: seq<Op>, k: OperationKey, revision: int)
    requires RowsOk(t)
    ensures Starts(t, ops, k, revision) <= StartsLeft(t, k, revision)
    decreases |ops|
  {
    hide RowsOk;
    hide Apply;
    hide Commits;
    hide StartsLeft;
    if ops == [] {
    } else {
      StartStep(t, ops[0], k, revision);
      StepKeepsRows(t, ops[0]);
      StartsAreLimited(Apply(t, ops[0]), ops[1..], k, revision);
    }
  }

  /** In every run at most one claim starts the work for a given revision of a dimension; every other
      claim of it joins or is refused. */
  lemma OneStartPerRevision(ops: seq<Op>, k: OperationKey, revision: int)
    ensures Starts(EMPTY, ops, k, revision) <= 1
  {
    StartsAreLimited(EMPTY, ops, k, revision);
  }

  /** How a receipt gets stuck: two idempotency keys join one command, and the first one decides it. */
  lemma SharedCommandStrandsTheSecondKey(a: ReceiptKey, b: ReceiptKey, q: Request)
    requires a != b
    ensures var o := Operation(q.claim.revision, q.claim.contentHash, q, Pending);
            var t := Run(EMPTY, [TakeClaim(a, q, None), TakeClaim(b, q, Some(o)), Complete(a, q, map[])]);
            IsStuck(t, b)
  {
    var o := Operation(q.claim.revision, q.claim.contentHash, q, Pending);
    var first, second, third := TakeClaim(a, q, None), TakeClaim(b, q, Some(o)), Complete(a, q, map[]);
    var t1 := Apply(EMPTY, first);
    var t2 := Apply(t1, second);
    var t3 := Apply(t2, third);
    assert IsStuck(t3, b);
    assert [first, second, third][1..] == [second, third] && [second, third][1..] == [third] && [third][1..] == [];
    assert Run(t3, []) == t3 && Run(t2, [third]) == t3 && Run(t1, [second, third]) == t3;
  }

  // ---------------------------------------------------------------- mappings

  ghost predicate ComputedWrites(op: Op) {
    op.Complete? ==> forall r | r in op.writes :: Mappings.Computed(op.writes[r])
  }

  lemma MappingStep(t: Table, op: Op, r: ResourceId)
    requires ComputedWrites(op)
    ensures MappingAt(Apply(t, op), r)
         == if Commits(t, op) && op.Complete? && r in op.writes then Mappings.Apply(MappingAt(t, r), op.writes[r]) else MappingAt(t, r)
  {
    hide Undecided;
    hide ClaimCommits;
  }

  /** In every run of commands a mapping stays, and none of its three revisions ever falls. */
  lemma {:induction false} MappingRevisionsNeverFall(t: Table, ops: seq<Op>, r: ResourceId, d: Mappings.Dimension)
    requires r in t.mappings && forall op | op in ops :: ComputedWrites(op)
    ensures r in Run(t, ops).mappings
    ensures Mappings.RevisionOf(t.mappings[r], d) <= Mappings.RevisionOf(Run(t, ops).mappings[r], d)
    decreases |ops|
  {
    if ops == [] {
    } else {
      var op := ops[0];
      MappingStep(t, op, r);
      if Commits(t, op) && op.Complete? && r in op.writes { Mappings.RevisionsOnlyGrow(t.mappings[r], op.writes[r], d); }
      hide Apply;
      hide Commits;
      hide ComputedWrites;
      MappingRevisionsNeverFall(Apply(t, op), ops[1..], r, d);
    }
  }
}
