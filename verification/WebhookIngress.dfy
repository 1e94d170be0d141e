/**
 Stripe webhook ingress: two rows per event, an outbox row that drives the worker and a receipt row
 that records the decision, moved together under one revision; and the subscription projections
 that completions write. As in the migration protocol, an operation carries what its caller read
 and commits only if its conditions hold of the current rows.
 */
module WebhookIngress {
  import opened Types
  import opened TextOrder

  type EventId = string
  type SubscriptionId = string

  const MAX_MAPPING_ATTEMPTS: int := 3

  datatype IngressStatus = Pending | Processing | Processed | Failed
  datatype ReceiptStatus = Received | InProgress | Retryable | Done | Ignored | NeedsReview
  datatype Decision = Queued | Claimed | Retry | Final(status: ReceiptStatus)

  datatype Outbox = Outbox(status: IngressStatus, revision: int, attempts: int, sequence: Option<string>)
  datatype Receipt = Receipt(status: ReceiptStatus, revision: int)

  /** Outgoing events are named by the webhook event and their kind. */
  datatype OutgoingId = OutgoingId(event: EventId, kind: string)

  /** A subscription's projected state; `state` stands for the offer, status and period. */
  datatype Projection = Projection(revision: int, createdAt: int, event: EventId, hash: string, state: string)

  /** The projection row a completion puts, and the row it was planned from. */
  datatype Put = Put(subscription: SubscriptionId, read: Option<Projection>, row: Projection)

  /** The outgoing update of a projection put. */
  datatype Update = Update(subscription: SubscriptionId, revision: int, createdAt: int, event: EventId)

  datatype Table = Table(
    ingress: map<EventId, Outbox>, receipts: map<EventId, Receipt>,
    outgoing: set<OutgoingId>, projections: map<SubscriptionId, Projection>, updates: seq<Update>,
    images: set<(EventId, Outbox)>, versions: set<(SubscriptionId, Projection)>)

  const EMPTY := Table(map[], map[], {}, map[], [], {}, {})

  datatype Op =
    | Accept(e: EventId)
    | Reactivate(e: EventId, ingressStatus: IngressStatus, receiptStatus: ReceiptStatus, expected: int)
    | Claim(e: EventId, expected: int, sequence: string)
    | RetryLater(e: EventId, image: Outbox, claimed: int, sequence: string)
    | Complete(e: EventId, claimed: int, sequence: string, terminal: ReceiptStatus, kinds: set<string>, put: Option<Put>)

  // ---------------------------------------------------------------- planning a projection

  predicate Newer(createdAt: int, event: EventId, than: Projection) {
    than.createdAt < createdAt || (than.createdAt == createdAt && Before(than.event, event))
  }

  /** None when the event is not newer than the stored state or would not change it. */
  function Plan(current: Option<Projection>, createdAt: int, event: EventId, hash: string, state: string): Option<Projection> {
    if current.None? then Some(Projection(1, createdAt, event, hash, state))
    else if !Newer(createdAt, event, current.value) || hash == current.value.hash then None
    else Some(Projection(current.value.revision + 1, createdAt, event, hash, state))
  }

  predicate IsPlanned(e: EventId, p: Put) {
    p.row.event == e && Plan(p.read, p.row.createdAt, e, p.row.hash, p.row.state) == Some(p.row)
  }

  /** The condition of the projection put. */
  predicate PutAllowed(t: Table, p: Put) {
    if p.read.None? then p.subscription !in t.projections
    else
      && p.subscription in t.projections
      && t.projections[p.subscription].revision == p.read.value.revision
      && Newer(p.row.createdAt, p.row.event, t.projections[p.subscription])
  }

  // ---------------------------------------------------------------- operations

  predicate IsTerminal(r: ReceiptStatus) { r == Done || r == Ignored || r == NeedsReview }

  function Outgoing(e: EventId, kinds: set<string>): set<OutgoingId> { set k | k in kinds :: OutgoingId(e, k) }

  predicate HasRows(t: Table, e: EventId) { e in t.ingress && e in t.receipts }

  predicate Holds(t: Table, e: EventId, status: IngressStatus, receipt: ReceiptStatus, revision: int)
    requires HasRows(t, e)
  {
    && t.ingress[e].status == status && t.ingress[e].revision == revision
    && t.receipts[e].status == receipt && t.receipts[e].revision == revision
  }

  predicate Commits(t: Table, op: Op) {
    match op
    case Accept(e) => e !in t.ingress && e !in t.receipts
    case Reactivate(e, ingressStatus, receiptStatus, expected) =>
      && HasRows(t, e) && 1 <= expected
      && (ingressStatus == Processing || ingressStatus == Failed)
      && (receiptStatus == InProgress || receiptStatus == Retryable)
      && Holds(t, e, ingressStatus, receiptStatus, expected)
    case Claim(e, expected, _) =>
      && HasRows(t, e) && 1 <= expected
      && (Holds(t, e, Pending, Received, expected) || Holds(t, e, Pending, Retryable, expected))
    case RetryLater(e, image, claimed, sequence) =>
      && (e, image) in t.images && image.status == Pending && claimed == image.revision + 1
      && image.attempts + 1 < MAX_MAPPING_ATTEMPTS
      && HasRows(t, e) && Holds(t, e, Processing, InProgress, claimed) && t.ingress[e].sequence == Some(sequence)
    case Complete(e, claimed, sequence, terminal, kinds, put) =>
      && IsTerminal(terminal) && |kinds| <= 2
      && HasRows(t, e) && Holds(t, e, Processing, InProgress, claimed) && t.ingress[e].sequence == Some(sequence)
      && Outgoing(e, kinds) !! t.outgoing
      && (put.Some? ==>
            && kinds != {} && IsPlanned(e, put.value) && PutAllowed(t, put.value)
            && (put.value.read.Some? ==> (put.value.subscription, put.value.read.value) in t.versions))
  }

  function Write(t: Table, e: EventId, o: Outbox, r: Receipt): Table {
    t.(ingress := t.ingress[e := o], receipts := t.receipts[e := r], images := t.images + {(e, o)})
  }

  function WriteProjection(t: Table, p: Put): Table {
    t.(projections := t.projections[p.subscription := p.row],
       versions := t.versions + {(p.subscription, p.row)},
       updates := t.updates + [Update(p.subscription, p.row.revision, p.row.createdAt, p.row.event)])
  }

  function Effect(t: Table, op: Op): Table
    requires Commits(t, op)
  {
    match op
    case Accept(e) => Write(t, e, Outbox(Pending, 1, 0, None), Receipt(Received, 1))
    case Reactivate(e, _, _, expected) =>
      Write(t, e, Outbox(Pending, expected + 1, t.ingress[e].attempts, None), Receipt(Received, expected + 1))
    case Claim(e, expected, sequence) =>
      Write(t, e, Outbox(Processing, expected + 1, t.ingress[e].attempts + 1, Some(sequence)), Receipt(InProgress, expected + 1))
    case RetryLater(e, _, claimed, _) =>
      Write(t, e, Outbox(Pending, claimed + 1, t.ingress[e].attempts, None), Receipt(Retryable, claimed + 1))
    case Complete(e, claimed, sequence, terminal, kinds, put) =>
      var t1 := Write(t, e, t.ingress[e].(status := Processed, revision := claimed + 1), Receipt(terminal, claimed + 1));
      var t2 := t1.(outgoing := t1.outgoing + Outgoing(e, kinds));
      if put.Some? then WriteProjection(t2, put.value) else t2
  }

  function Apply(t: Table, op: Op): Table { if Commits(t, op) then Effect(t, op) else t }

  function Run(t: Table, ops: seq<Op>): Table
    decreases |ops|
  {
    if ops == [] then t else Run(Apply(t, ops[0]), ops[1..])
  }

  // ---------------------------------------------------------------- the pair of rows

  predicate Paired(o: Outbox, r: Receipt) {
    && o.revision == r.revision && 1 <= o.revision && 0 <= o.attempts
    && match o.status
       case Pending => (r.status == Received || r.status == Retryable) && o.sequence.None?
       case Processing => r.status == InProgress && o.sequence.Some? && 2 <= o.revision && 1 <= o.attempts
       case Processed => IsTerminal(r.status) && o.sequence.Some?
       case Failed => false
  }

  /** An old image of the outbox row against the current row. */
  predicate ImageAgrees(image: Outbox, o: Outbox) {
    && image.revision <= o.revision && image.attempts <= o.attempts
    && (image.revision == o.revision ==> image == o)
    && (image.revision + 1 == o.revision && o.status == Processing ==> o.attempts == image.attempts + 1)
  }

  predicate RowsOk(t: Table) {
    && (forall e | e in t.ingress :: e in t.receipts && Paired(t.ingress[e], t.receipts[e]) && (e, t.ingress[e]) in t.images)
    && (forall e | e in t.receipts :: e in t.ingress)
    && (forall x | x in t.images :: x.0 in t.ingress && ImageAgrees(x.1, t.ingress[x.0]))
    && (forall x | x in t.outgoing :: x.event in t.ingress && t.ingress[x.event].status == Processed)
  }

  /** What a write of the two rows has to show. */
  predicate Follows(o: Outbox, n: Outbox) {
    && n.revision == o.revision + 1 && o.attempts <= n.attempts && o.status != Processed
    && (n.status == Processing ==> n.attempts == o.attempts + 1)
  }

  lemma WriteKeepsRows(t: Table, e: EventId, o: Outbox, r: Receipt)
    requires RowsOk(t) && Paired(o, r) && (e in t.ingress ==> Follows(t.ingress[e], o))
    ensures RowsOk(Write(t, e, o, r))
  {
    var n := Write(t, e, o, r);
    forall x | x in n.images ensures x.0 in n.ingress && ImageAgrees(x.1, n.ingress[x.0]) {
      if x.0 == e && x != (e, o) { assert x in t.images; }
    }
  }

  lemma OutgoingKeepsRows(t: Table, e: EventId, kinds: set<string>)
    requires RowsOk(t) && e in t.ingress && t.ingress[e].status == Processed
    ensures RowsOk(t.(outgoing := t.outgoing + Outgoing(e, kinds)))
  {
  }

  lemma ProjectionKeepsRows(t: Table, p: Put)
    requires RowsOk(t)
    ensures RowsOk(WriteProjection(t, p))
  {
  }

  lemma RowFacts(t: Table, e: EventId)
    requires RowsOk(t) && e in t.ingress
    ensures e in t.receipts && Paired(t.ingress[e], t.receipts[e]) && (e, t.ingress[e]) in t.images
  {
  }

  lemma CompleteKeepsRows(t: Table, e: EventId, claimed: int, terminal: ReceiptStatus, kinds: set<string>, put: Option<Put>)
    requires RowsOk(t) && IsTerminal(terminal) && HasRows(t, e) && Holds(t, e, Processing, InProgress, claimed)
    ensures var t1 := Write(t, e, t.ingress[e].(status := Processed, revision := claimed + 1), Receipt(terminal, claimed + 1));
            var t2 := t1.(outgoing := t1.outgoing + Outgoing(e, kinds));
            RowsOk(if put.Some? then WriteProjection(t2, put.value) else t2)
  {
    RowFacts(t, e);
    hide RowsOk;
    hide WriteProjection;
    var o, r := t.ingress[e].(status := Processed, revision := claimed + 1), Receipt(terminal, claimed + 1);
    WriteKeepsRows(t, e, o, r);
    OutgoingKeepsRows(Write(t, e, o, r), e, kinds);
    var t1 := Write(t, e, o, r);
    if put.Some? { ProjectionKeepsRows(t1.(outgoing := t1.outgoing + Outgoing(e, kinds)), put.value); }
  }

  /** The three operations that leave the event open. */
  lemma OpenWriteKeepsRows(t: Table, e: EventId, n: Outbox, receipt: ReceiptStatus)
    requires RowsOk(t) && e in t.ingress && t.ingress[e].status != Processed && n.revision == t.ingress[e].revision + 1
    requires || (n.status == Pending && n.sequence.None? && n.attempts == t.ingress[e].attempts
                 && (receipt == Received || receipt == Retryable))
             || (n.status == Processing && n.sequence.Some? && n.attempts == t.ingress[e].attempts + 1 && receipt == InProgress)
    ensures RowsOk(Write(t, e, n, Receipt(receipt, n.revision)))
  {
    RowFacts(t, e);
    hide RowsOk;
    WriteKeepsRows(t, e, n, Receipt(receipt, n.revision));
  }

  lemma StepKeepsRows(t: Table, op: Op)
    requires RowsOk(t)
    ensures RowsOk(Apply(t, op))
  {
    hide RowsOk;
    hide IsPlanned;
    hide PutAllowed;
    hide Outgoing;
    hide WriteProjection;
    hide Write;
    hide Paired;
    if Commits(t, op) {
      match op
      case Accept(e) => FirstRows(t, e);
      case Reactivate(e, _, _, expected) =>
        OpenWriteKeepsRows(t, e, Outbox(Pending, expected + 1, t.ingress[e].attempts, None), Received);
      case Claim(e, expected, sequence) =>
        OpenWriteKeepsRows(t, e, Outbox(Processing, expected + 1, t.ingress[e].attempts + 1, Some(sequence)), InProgress);
      case RetryLater(e, _, claimed, _) =>
        OpenWriteKeepsRows(t, e, Outbox(Pending, claimed + 1, t.ingress[e].attempts, None), Retryable);
      case Complete(e, claimed, sequence, terminal, kinds, put) =>
        CompleteKeepsRows(t, e, claimed, terminal, kinds, put);
    }
  }

  lemma FirstRows(t: Table, e: EventId)
    requires RowsOk(t) && e !in t.ingress
    ensures RowsOk(Write(t, e, Outbox(Pending, 1, 0, None), Receipt(Received, 1)))
  {
    WriteKeepsRows(t, e, Outbox(Pending, 1, 0, None), Receipt(Received, 1));
  }

  lemma {:induction false} RunKeepsRows(t: Table, ops: seq<Op>)
    requires RowsOk(t)
    ensures RowsOk(Run(t, ops))
    decreases |ops|
  {
    hide RowsOk;
    hide Apply;
    if ops == [] {
    } else {
      StepKeepsRows(t, ops[0]);
      RunKeepsRows(Apply(t, ops[0]), ops[1..]);
    }
  }

  // ---------------------------------------------------------------- one event over a whole run

  /** In every run both rows of an event exist together, with equal revisions and paired statuses. */
  lemma RowsStayPaired(ops: seq<Op>, e: EventId)
    ensures var t := Run(EMPTY, ops);
            && (e in t.ingress <==> e in t.receipts)
            && (e in t.ingress ==> Paired(t.ingress[e], t.receipts[e]))
  {
    RunKeepsRows(EMPTY, ops);
  }

  lemma ProcessedStep(t: Table, op: Op, e: EventId)
    requires RowsOk(t) && e in t.ingress && t.ingress[e].status == Processed
    ensures var n := Apply(t, op);
            e in n.ingress && e in n.receipts && e in t.receipts && n.ingress[e] == t.ingress[e] && n.receipts[e] == t.receipts[e]
  {
    RowFacts(t, e);
    hide RowsOk;
  }

  /** Once an event is processed its rows never change again. */
  lemma {:induction false} ProcessedIsAbsorbing(t: Table, ops: seq<Op>, e: EventId)
    requires RowsOk(t) && e in t.ingress && t.ingress[e].status == Processed
    ensures var n := Run(t, ops);
            e in n.ingress && e in n.receipts && e in t.receipts && n.ingress[e] == t.ingress[e] && n.receipts[e] == t.receipts[e]
    decreases |ops|
  {
    RowFacts(t, e);
    hide RowsOk;
    hide Apply;
    if ops == [] {
    } else {
      ProcessedStep(t, ops[0], e);
      StepKeepsRows(t, ops[0]);
      ProcessedIsAbsorbing(Apply(t, ops[0]), ops[1..], e);
    }
  }

  function RevisionOf(t: Table, e: EventId): int { if e in t.ingress then t.ingress[e].revision else 0 }

  /** How many operations on an event commit in a run. */
  function CommitsOn(t: Table, ops: seq<Op>, e: EventId): nat
    decreases |ops|
  {
    if ops == [] then 0 else
    var first := if ops[0].e == e && Commits(t, ops[0]) then 1 else 0;
    first + CommitsOn(Apply(t, ops[0]), ops[1..], e)
  }

  lemma RevisionStep(t: Table, op: Op, e: EventId)
    ensures RevisionOf(Apply(t, op), e) == RevisionOf(t, e) + (if op.e == e && Commits(t, op) then 1 else 0)
  {
    hide IsPlanned;
    hide PutAllowed;
  }

  /** The revision is a fencing token: it counts the committed operations on its event. */
  lemma {:induction false} RevisionCountsCommits(t: Table, ops: seq<Op>, e: EventId)
    ensures RevisionOf(Run(t, ops), e) == RevisionOf(t, e) + CommitsOn(t, ops, e)
    decreases |ops|
  {
    hide Apply;
    hide Commits;
    hide RevisionOf;
    if ops == [] {
    } else {
      RevisionStep(t, ops[0], e);
      RevisionCountsCommits(Apply(t, ops[0]), ops[1..], e);
    }
  }

  /** The last operation on an event that committed. */
  function LastCommit(t: Table, ops: seq<Op>, e: EventId, before: Option<Op>): Option<Op>
    decreases |ops|
  {
    if ops == [] then before else
    var last := if ops[0].e == e && Commits(t, ops[0]) then Some(ops[0]) else before;
    LastCommit(Apply(t, ops[0]), ops[1..], e, last)
  }

  /** A row being processed was left so by the claim that last committed. */
  predicate ClaimedBy(t: Table, e: EventId, last: Option<Op>) {
    e in t.ingress && t.ingress[e].status == Processing ==>
      t.ingress[e].sequence.Some? && last == Some(Claim(e, t.ingress[e].revision - 1, t.ingress[e].sequence.value))
  }

  lemma ClaimedByStep(t: Table, op: Op, e: EventId, last: Option<Op>)
    requires ClaimedBy(t, e, last)
    ensures ClaimedBy(Apply(t, op), e, if op.e == e && Commits(t, op) then Some(op) else last)
  {
    hide IsPlanned;
    hide PutAllowed;
  }

  lemma {:induction false} RunKeepsClaimedBy(t: Table, ops: seq<Op>, e: EventId, last: Option<Op>)
    requires ClaimedBy(t, e, last)
    ensures ClaimedBy(Run(t, ops), e, LastCommit(t, ops, e, last))
    decreases |ops|
  {
    hide ClaimedBy;
    hide Apply;
    hide Commits;
    if ops == [] {
    } else {
      ClaimedByStep(t, ops[0], e, last);
      RunKeepsClaimedBy(Apply(t, ops[0]), ops[1..], e, if ops[0].e == e && Commits(t, ops[0]) then Some(ops[0]) else last);
    }
  }

  /** A completion or a retry commits only for the worker whose claim is the last thing that happened
      to the event, under the revision that claim gave it. */
  lemma OnlyTheLastClaimFinishes(ops: seq<Op>, op: Op)
    requires op.Complete? || op.RetryLater?
    requires Commits(Run(EMPTY, ops), op)
    ensures LastCommit(EMPTY, ops, op.e, None) == Some(Claim(op.e, op.claimed - 1, op.sequence))
  {
    RunKeepsClaimedBy(EMPTY, ops, op.e, None);
  }

  function Completions(t: Table, ops: seq<Op>, e: EventId): nat
    decreases |ops|
  {
    if ops == [] then 0 else
    var first := if ops[0].Complete? && ops[0].e == e && Commits(t, ops[0]) then 1 else 0;
    first + Completions(Apply(t, ops[0]), ops[1..], e)
  }

  function CompletionsLeft(t: Table, e: EventId): nat {
    if e in t.ingress && t.ingress[e].status == Processed then 0 else 1
  }

  lemma CompletionStep(t: Table, op: Op, e: EventId)
    requires RowsOk(t)
    ensures CompletionsLeft(Apply(t, op), e) + (if op.Complete? && op.e == e && Commits(t, op) then 1 else 0)
         <= CompletionsLeft(t, e)
  {
    hide RowsOk;
    hide IsPlanned;
    hide PutAllowed;
  }

  lemma {:induction false} CompletionsAreLimited(t: Table, ops: seq<Op>, e: EventId)
    requires RowsOk(t)
    ensures Completions(t, ops, e) <= CompletionsLeft(t, e)
    decreases |ops|
  {
    hide RowsOk;
    hide Apply;
    hide Commits;
    hide CompletionsLeft;
    if ops == [] {
    } else {
      CompletionStep(t, ops[0], e);
      StepKeepsRows(t, ops[0]);
      CompletionsAreLimited(Apply(t, ops[0]), ops[1..], e);
    }
  }

  /** In every run at most one completion of an event commits, and with it its outgoing events. */
  lemma AtMostOneCompletion(ops: seq<Op>, e: EventId)
    ensures Completions(EMPTY, ops, e) <= 1
  {
    CompletionsAreLimited(EMPTY, ops, e);
  }

  /** The conditions on the outgoing puts never refuse a completion that owns its claim. */
  lemma OutgoingPutsNeverConflict(ops: seq<Op>, e: EventId, kinds: set<string>)
    requires var t := Run(EMPTY, ops); e in t.ingress && t.ingress[e].status == Processing
    ensures Outgoing(e, kinds) !! Run(EMPTY, ops).outgoing
  {
    RunKeepsRows(EMPTY, ops);
  }

  function Retries(t: Table, ops: seq<Op>, e: EventId): nat
    decreases |ops|
  {
    if ops == [] then 0 else
    var first := if ops[0].RetryLater? && ops[0].e == e && Commits(t, ops[0]) then 1 else 0;
    first + Retries(Apply(t, ops[0]), ops[1..], e)
  }

  function RetriesLeft(t: Table, e: EventId): int {
    if e !in t.ingress then MAX_MAPPING_ATTEMPTS - 1
    else
      var used := if t.ingress[e].status == Processing then t.ingress[e].attempts - 1 else t.ingress[e].attempts;
      if used < MAX_MAPPING_ATTEMPTS - 1 then MAX_MAPPING_ATTEMPTS - 1 - used else 0
  }

  lemma RetryStep(t: Table, op: Op, e: EventId)
    requires RowsOk(t)
    ensures RetriesLeft(Apply(t, op), e) + (if op.RetryLater? && op.e == e && Commits(t, op) then 1 else 0) <= RetriesLeft(t, e)
  {
    if op.e == e && e in t.ingress {
      RowFacts(t, e);
      assert op.RetryLater? && (e, op.image) in t.images ==> ImageAgrees(op.image, t.ingress[e]);
    }
    hide RowsOk;
    hide IsPlanned;
    hide PutAllowed;
  }

  lemma {:induction false} RetriesAreLimited(t: Table, ops: seq<Op>, e: EventId)
    requires RowsOk(t)
    ensures Retries(t, ops, e) <= RetriesLeft(t, e)
    decreases |ops|
  {
    hide RowsOk;
    hide Apply;
    hide Commits;
    if ops == [] {
    } else {
      RetryStep(t, ops[0], e);
      StepKeepsRows(t, ops[0]);
      RetriesAreLimited(Apply(t, ops[0]), ops[1..], e);
    }
  }

  /** In every run an event goes back to pending for a missing mapping at most twice, however often
      it is delivered, reactivated and claimed, and from however old an image the retry is asked. */
  lemma AtMostTwoRetries(ops: seq<Op>, e: EventId)
    ensures Retries(EMPTY, ops, e) <= 2
  {
    RetriesAreLimited(EMPTY, ops, e);
  }

  // ---------------------------------------------------------------- redelivered webhooks

  datatype Reply = Queues | AlreadyProcessed | Reactivates(expected: int) | Refuses

  /** What a redelivered webhook with the same contents is answered from the two rows. */
  function ReplyTo(o: Outbox, r: Receipt): Reply {
    if o.status == Processed && IsTerminal(r.status) then AlreadyProcessed
    else if o.status == Pending && r.status == Received then Queues
    else if (o.status == Processing || o.status == Failed) && (r.status == InProgress || r.status == Retryable)
            && 1 <= o.revision && r.revision == o.revision
    then Reactivates(o.revision)
    else Refuses
  }

  /** In every run a redelivery of an accepted event is refused exactly while the event waits for a
      retry, and a reactivation it asks for from current rows always commits. */
  lemma RedeliveryIsRefusedOnlyDuringRetry(ops: seq<Op>, e: EventId)
    requires e in Run(EMPTY, ops).ingress
    ensures var t := Run(EMPTY, ops);
            && e in t.receipts
            && var (o, r) := (t.ingress[e], t.receipts[e]);
               && (ReplyTo(o, r).Refuses? <==> o.status == Pending && r.status == Retryable)
               && (ReplyTo(o, r).AlreadyProcessed? <==> o.status == Processed)
               && (ReplyTo(o, r).Reactivates? ==> Commits(t, Reactivate(e, o.status, r.status, ReplyTo(o, r).expected)))
  {
    RowsStayPaired(ops, e);
  }

  // ---------------------------------------------------------------- projections

  /** The outgoing updates of one subscription, in the order they committed. */
  function UpdatesOf(updates: seq<Update>, s: SubscriptionId): seq<Update> {
    if updates == [] then []
    else UpdatesOf(updates[..|updates| - 1], s) + (if updates[|updates| - 1].subscription == s then [updates[|updates| - 1]] else [])
  }

  predicate Earlier(u: Update, v: Update) {
    u.createdAt < v.createdAt || (u.createdAt == v.createdAt && Before(u.event, v.event))
  }

  predicate IsSequential(log: seq<Update>) {
    && (forall i | 0 <= i < |log| :: log[i].revision == i + 1)
    && (forall i, j | 0 <= i < j < |log| :: Earlier(log[i], log[j]))
  }

  function UpdateOf(s: SubscriptionId, p: Projection): Update { Update(s, p.revision, p.createdAt, p.event) }

  predicate VersionsOk(t: Table) {
    && (forall s | s in t.projections :: (s, t.projections[s]) in t.versions)
    && (forall x | x in t.versions ::
          && x.0 in t.projections && 1 <= x.1.revision <= t.projections[x.0].revision
          && (x.1.revision == t.projections[x.0].revision ==> x.1 == t.projections[x.0]))
  }

  predicate LogOk(t: Table, s: SubscriptionId) {
    var log := UpdatesOf(t.updates, s);
    && IsSequential(log)
    && (if s in t.projections then log != [] && log[|log| - 1] == UpdateOf(s, t.projections[s]) else log == [])
  }

  ghost predicate ProjectionsOk(t: Table) { VersionsOk(t) && forall s :: LogOk(t, s) }

  /** A committed projection put was planned from the row it replaces. */
  lemma PutIsCurrent(t: Table, p: Put)
    requires ProjectionsOk(t) && PutAllowed(t, p)
    requires p.read.Some? ==> (p.subscription, p.read.value) in t.versions
    ensures p.read == if p.subscription in t.projections then Some(t.projections[p.subscription]) else None
  {
    if p.read.Some? { assert (p.subscription, p.read.value) in t.versions; }
  }

  lemma EarlierIsTransitive(u: Update, v: Update, w: Update)
    requires Earlier(u, v) && Earlier(v, w)
    ensures Earlier(u, w)
  {
    if u.createdAt == v.createdAt == w.createdAt {
      AtMostIsTransitive(u.event, v.event, w.event);
      if u.event == w.event { AtMostIsTotal(u.event, v.event); }
    }
  }

  lemma ExtendSequential(log: seq<Update>, u: Update)
    requires IsSequential(log) && u.revision == |log| + 1
    requires log != [] ==> Earlier(log[|log| - 1], u)
    ensures IsSequential(log + [u])
  {
    forall i | 0 <= i < |log| ensures Earlier(log[i], u) {
      if i < |log| - 1 { EarlierIsTransitive(log[i], log[|log| - 1], u); }
    }
  }

  lemma UpdatesAfter(updates: seq<Update>, u: Update, s: SubscriptionId)
    ensures UpdatesOf(updates + [u], s) == UpdatesOf(updates, s) + (if u.subscription == s then [u] else [])
  {
    assert (updates + [u])[..|updates|] == updates;
  }

  lemma PutKeepsVersions(t: Table, p: Put)
    requires VersionsOk(t)
    requires p.row.revision == 1 + (if p.subscription in t.projections then t.projections[p.subscription].revision else 0)
    ensures VersionsOk(WriteProjection(t, p))
  {
    var n := WriteProjection(t, p);
    forall x | x in n.versions
      ensures x.0 in n.projections && 1 <= x.1.revision <= n.projections[x.0].revision
              && (x.1.revision == n.projections[x.0].revision ==> x.1 == n.projections[x.0])
    {
      if x != (p.subscription, p.row) { assert x in t.versions; }
    }
  }

  lemma PutKeepsLog(t: Table, p: Put, s: SubscriptionId)
    requires LogOk(t, s)
    requires p.row.revision == 1 + (if p.subscription in t.projections then t.projections[p.subscription].revision else 0)
    requires p.subscription in t.projections ==> Newer(p.row.createdAt, p.row.event, t.projections[p.subscription])
    ensures LogOk(WriteProjection(t, p), s)
  {
    var u := UpdateOf(p.subscription, p.row);
    UpdatesAfter(t.updates, u, s);
    if s == p.subscription { ExtendSequential(UpdatesOf(t.updates, s), u); }
  }

  lemma WriteProjectionKeeps(t: Table, e: EventId, p: Put)
    requires ProjectionsOk(t) && IsPlanned(e, p) && PutAllowed(t, p)
    requires p.read.Some? ==> (p.subscription, p.read.value) in t.versions
    ensures ProjectionsOk(WriteProjection(t, p))
  {
    PutIsCurrent(t, p);
    PutKeepsVersions(t, p);
    forall s ensures LogOk(WriteProjection(t, p), s) { PutKeepsLog(t, p, s); }
  }

  /** Only the projection rows and the log of updates matter. */
  lemma SameProjections(t: Table, n: Table)
    requires ProjectionsOk(t) && n.projections == t.projections && n.versions == t.versions && n.updates == t.updates
    ensures ProjectionsOk(n)
  {
    forall s ensures LogOk(n, s) { assert LogOk(t, s); }
  }

  lemma StepKeepsProjections(t: Table, op: Op)
    requires ProjectionsOk(t)
    ensures ProjectionsOk(Apply(t, op))
  {
    hide ProjectionsOk;
    hide IsPlanned;
    hide PutAllowed;
    if Commits(t, op) {
      if op.Complete? {
        var t1 := Write(t, op.e, t.ingress[op.e].(status := Processed, revision := op.claimed + 1), Receipt(op.terminal, op.claimed + 1));
        var t2 := t1.(outgoing := t1.outgoing + Outgoing(op.e, op.kinds));
        SameProjections(t, t2);
        SameAllowed(t, t2, op.put);
        if op.put.Some? { WriteProjectionKeeps(t2, op.e, op.put.value); }
      } else {
        SameProjections(t, Apply(t, op));
      }
    }
  }

  lemma SameAllowed(t: Table, n: Table, p: Option<Put>)
    requires n.projections == t.projections
    ensures p.Some? && PutAllowed(t, p.value) ==> PutAllowed(n, p.value)
  {
  }

  lemma {:induction false} RunKeepsProjections(t: Table, ops: seq<Op>)
    requires ProjectionsOk(t)
    ensures ProjectionsOk(Run(t, ops))
    decreases |ops|
  {
    hide ProjectionsOk;
    hide Apply;
    if ops == [] {
    } else {
      StepKeepsProjections(t, ops[0]);
      RunKeepsProjections(Apply(t, ops[0]), ops[1..]);
    }
  }

  /** In every run the committed updates of a subscription have revisions 1, 2, 3, ... and strictly
      increasing event times and ids, and the stored projection is the last of them. */
  lemma UpdatesAreSequential(ops: seq<Op>, s: SubscriptionId)
    ensures var t := Run(EMPTY, ops); var log := UpdatesOf(t.updates, s);
            && IsSequential(log)
            && (s in t.projections <==> log != [])
            && (s in t.projections ==> log[|log| - 1] == UpdateOf(s, t.projections[s]) && t.projections[s].revision == |log|)
  {
    hide Run;
    RunKeepsProjections(EMPTY, ops);
    assert LogOk(Run(EMPTY, ops), s);
  }

  /** In every run a projection put that commits was planned from the row it replaces, however long
      before it was read: planning and putting are one atomic step. */
  lemma PlansAreCurrent(ops: seq<Op>, op: Op)
    requires op.Complete? && op.put.Some? && Commits(Run(EMPTY, ops), op)
    ensures var t := Run(EMPTY, ops); var p := op.put.value;
            var current := if p.subscription in t.projections then Some(t.projections[p.subscription]) else None;
            p.read == current && Plan(current, p.row.createdAt, op.e, p.row.hash, p.row.state) == Some(p.row)
  {
    RunKeepsProjections(EMPTY, ops);
    PutIsCurrent(Run(EMPTY, ops), op.put.value);
  }
}
