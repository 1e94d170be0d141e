/**
 The webhook store and the event worker as they run: conditional transactions with their fallback
 reads, and one pass of the worker over a delivered outbox image, with other workers in between.
 */
module WebhookStore {
  import opened Types
  import opened TextOrder
  import opened WebhookIngress

  datatype ClaimReply = Granted(revision: int) | AlreadyDone | Unavailable

  /** What the worker finds out about a claimed event. */
  datatype Finding =
    | AccountGone
    | Reconciled
    | MissingMapping
    | Unmapped
    | MigrationMapping(reconciled: bool)
    | NotAuthorized
    | Event(terminal: ReceiptStatus, kinds: set<string>)
    | SubscriptionState(subscription: SubscriptionId, createdAt: int, hash: string, state: string)

  datatype Outcome = Finished | Skipped | Raised

  /** What the sender of a webhook is told. */
  datatype Accepted = NewlyQueued | AlreadyQueued | AlreadyDealtWith | Conflicted

  const SUBSCRIPTION_UPDATED := "commerce.subscription.updated.v1"

  predicate GoodFinding(f: Finding) {
    f.Event? ==> IsTerminal(f.terminal) && |f.kinds| <= 2
  }

  /** The one step the worker takes on a claimed event: a retry while the mapping is missing and
      attempts are left, a completion in every other case. */
  function FinishOf(e: EventId, image: Outbox, sequence: string, f: Finding, current: Option<Projection>): Op {
    var claimed := image.revision + 1;
    match f
    case AccountGone => Complete(e, claimed, sequence, Done, {}, None)
    case Reconciled => Complete(e, claimed, sequence, Done, {}, None)
    case MissingMapping =>
      if image.attempts + 1 < MAX_MAPPING_ATTEMPTS then RetryLater(e, image, claimed, sequence)
      else Complete(e, claimed, sequence, NeedsReview, {}, None)
    case Unmapped => Complete(e, claimed, sequence, Ignored, {}, None)
    case MigrationMapping(reconciled) => Complete(e, claimed, sequence, if reconciled then Done else NeedsReview, {}, None)
    case NotAuthorized => Complete(e, claimed, sequence, NeedsReview, {}, None)
    case Event(terminal, kinds) => Complete(e, claimed, sequence, terminal, kinds, None)
    case SubscriptionState(subscription, createdAt, hash, state) =>
      var row := Plan(current, createdAt, e, hash, state);
      if row.None? then Complete(e, claimed, sequence, Ignored, {}, None)
      else Complete(e, claimed, sequence, Done, {SUBSCRIPTION_UPDATED}, Some(Put(subscription, current, row.value)))
  }

  // ---------------------------------------------------------------- what each call comes to

  /** What a redelivery is answered from a receipt of one table and an outbox row of a later one. */
  function ReplyAcross(first: Table, second: Table, e: EventId): Reply
    requires e in first.receipts && e in second.ingress
  {
    ReplyTo(second.ingress[e], first.receipts[e])
  }

  /** The reactivation a redelivery sends after those reads. */
  function ReactivateOps(first: Table, second: Table, e: EventId, turn: seq<Op>): seq<Op>
    requires e in first.receipts && e in second.ingress
  {
    var reply := ReplyAcross(first, second, e);
    if reply.Reactivates? then turn + [Reactivate(e, second.ingress[e].status, first.receipts[e].status, reply.expected)] else []
  }

  /** Whether a refused reactivation finds that somebody else has moved the event on. */
  predicate IsMovedOn(t: Table, e: EventId) {
    HasRows(t, e) && t.ingress[e].status != Failed && t.receipts[e].status != Retryable
  }

  function RedeliveryAnswer(first: Table, second: Table, e: EventId, turn: seq<Op>): Accepted
    requires e in first.receipts && e in second.ingress
  {
    var ops := ReactivateOps(first, second, e, turn);
    match ReplyAcross(first, second, e)
    case AlreadyProcessed => AlreadyDealtWith
    case Queues => AlreadyQueued
    case Refuses => Conflicted
    case Reactivates(_) =>
      if Commits(Run(second, turn), ops[|ops| - 1]) || IsMovedOn(Run(second, ops), e) then AlreadyQueued else Conflicted
  }

  predicate IsHeld(t: Table, e: EventId, revision: int, sequence: string) {
    HasRows(t, e) && Holds(t, e, Processing, InProgress, revision) && t.ingress[e].sequence == Some(sequence)
  }

  /** The receipt test a completion makes before it computes anything. */
  predicate ReceiptIsOpen(t: Table, e: EventId, claimed: int) {
    e in t.receipts && t.receipts[e].status == InProgress && t.receipts[e].revision == claimed
  }

  predicate IsCompleted(t: Table, e: EventId, revision: int) {
    e in t.ingress && t.ingress[e].status == Processed && t.ingress[e].revision == revision
  }

  /** What a completion puts into the table: nothing when its first read refuses, else its transaction
      after whatever others do in between. */
  function CompleteOps(t: Table, op: Op, turn: seq<Op>): seq<Op>
    requires op.Complete?
  {
    if ReceiptIsOpen(t, op.e, op.claimed) then turn + [op] else []
  }

  /** The last access of a pass; a retry does not read first. */
  function FinishOps(t: Table, op: Op, turn: seq<Op>): seq<Op> {
    if op.Complete? then CompleteOps(t, op, turn) else [op]
  }

  predicate IsFinished(t: Table, op: Op) {
    match op
    case RetryLater(e, _, claimed, _) =>
      HasRows(t, e) && Holds(t, e, Pending, Retryable, claimed + 1) && t.ingress[e].sequence == None
    case Complete(e, claimed, _, _, _, _) => IsCompleted(t, e, claimed + 1)
    case _ => false
  }

  /** The projection a pass plans from. */
  function ReadOf(t: Table, f: Finding): Option<Projection> {
    if f.SubscriptionState? && f.subscription in t.projections then Some(t.projections[f.subscription]) else None
  }

  /** All that runs during one pass of the worker, by its four accesses: claim, read, receipt test and
      transaction. */
  function ProcessOps(t: Table, e: EventId, image: Outbox, sequence: string, f: Finding,
                      turn: (seq<Op>, seq<Op>, seq<Op>, seq<Op>)): seq<Op>
    requires GoodFinding(f)
  {
    var claim := turn.0 + [Claim(e, image.revision, sequence)];
    if !IsHeld(Run(t, claim), e, image.revision + 1, sequence) then claim
    else
      var planned := claim + turn.1;
      var op := FinishOf(e, image, sequence, f, ReadOf(Run(t, planned), f));
      planned + turn.2 + FinishOps(Run(t, planned + turn.2), op, turn.3)
  }

  /** The answer of a pass. */
  function ProcessOutcome(t: Table, e: EventId, image: Outbox, sequence: string, f: Finding,
                          turn: (seq<Op>, seq<Op>, seq<Op>, seq<Op>)): Outcome
    requires GoodFinding(f)
  {
    var claim := turn.0 + [Claim(e, image.revision, sequence)];
    if !IsHeld(Run(t, claim), e, image.revision + 1, sequence) then
      if e in Run(t, claim).ingress && Run(t, claim).ingress[e].status == Processed then Skipped else Raised
    else
      var planned := claim + turn.1;
      var op := FinishOf(e, image, sequence, f, ReadOf(Run(t, planned), f));
      if FinishOps(Run(t, planned + turn.2), op, turn.3) != [] && IsFinished(Run(t, ProcessOps(t, e, image, sequence, f, turn)), op)
      then Finished else Raised
  }

  lemma {:induction false} RunAppend(t: Table, a: seq<Op>, b: seq<Op>)
    ensures Run(t, a + b) == Run(Run(t, a), b)
    decreases |a|
  {
    hide Apply;
    if a == [] {
      assert a + b == b;
    } else {
      assert (a + b)[0] == a[0] && (a + b)[1..] == a[1..] + b;
      RunAppend(Apply(t, a[0]), a[1..], b);
    }
  }

  lemma RunNone(t: Table)
    ensures Run(t, []) == t
  {
  }

  lemma RunOne(t: Table, op: Op)
    ensures Run(t, [op]) == Apply(t, op)
  {
    hide Apply;
    assert [op][1..] == [];
    assert Run(Apply(t, op), []) == Apply(t, op);
  }

  lemma ApplyKeepsBoth(t: Table, op: Op)
    requires RowsOk(t) && ProjectionsOk(t)
    ensures RowsOk(Apply(t, op)) && ProjectionsOk(Apply(t, op))
  {
    hide RowsOk;
    hide ProjectionsOk;
    hide Apply;
    StepKeepsRows(t, op);
    StepKeepsProjections(t, op);
  }

  lemma NoReceiptAlone(t: Table, e: EventId)
    requires RowsOk(t) && e !in t.ingress
    ensures e !in t.receipts
  {
  }

  /** Images and versions are never forgotten. */
  predicate Remembers(t: Table, n: Table) { t.images <= n.images && t.versions <= n.versions }

  lemma StepRemembers(t: Table, op: Op)
    ensures Remembers(t, Apply(t, op))
  {
    hide Commits;
  }

  lemma {:induction false} RunRemembers(t: Table, ops: seq<Op>)
    ensures Remembers(t, Run(t, ops))
    decreases |ops|
  {
    hide Apply;
    if ops == [] {
    } else {
      StepRemembers(t, ops[0]);
      RunRemembers(Apply(t, ops[0]), ops[1..]);
    }
  }

  /** Rows are never deleted, and always come in pairs. */
  lemma RowsRemain(t: Table, ops: seq<Op>, e: EventId)
    requires RowsOk(t) && ProjectionsOk(t) && e in t.ingress
    ensures HasRows(Run(t, ops), e)
  {
    assert (e, t.ingress[e]) in t.images;
    RunKeepsRows(t, ops);
    RunRemembers(t, ops);
    hide Run;
  }

  /** A redelivery that meets others between its two reads is refused exactly when the event waits for a
      retry or, if the event has moved on since the first read, unless it is back to being queued. */
  lemma RedeliveryIsRefusedExactly(ops: seq<Op>, turn: seq<Op>, e: EventId)
    requires e in Run(EMPTY, ops).ingress
    ensures var first := Run(EMPTY, ops); var second := Run(first, turn);
            && HasRows(first, e) && HasRows(second, e)
            && var o, r := second.ingress[e], first.receipts[e];
               (ReplyAcross(first, second, e).Refuses? <==>
                  if o.revision == r.revision then o.status == Pending && r.status == Retryable
                  else !(o.status == Pending && r.status == Received))
  {
    var first := Run(EMPTY, ops);
    RunKeepsRows(EMPTY, ops);
    RowFacts(first, e);
    RunKeepsRows(first, turn);
    RunRemembers(first, turn);
    var second := Run(first, turn);
    assert (e, first.ingress[e]) in first.images;
    if first.ingress[e].status == Processed { ProcessedIsAbsorbing(first, turn, e); }
    hide Run;
  }

  /** What a redelivery is answered. Between two reads of one state of the event it is told that the event
      is dealt with exactly when that is so, and refused exactly when the event waits for a retry or was
      being processed and has been sent to wait for one before the reactivation; between reads of two
      states it is queued if the receipt was received and the event is pending, and refused otherwise. */
  lemma RedeliveryIsAnsweredExactly(ops: seq<Op>, turn: seq<Op>, later: seq<Op>, e: EventId)
    requires e in Run(EMPTY, ops).ingress
    ensures var first := Run(EMPTY, ops); var second := Run(first, turn); var third := Run(second, later);
            && HasRows(first, e) && HasRows(second, e) && HasRows(third, e)
            && var o, r, answer := second.ingress[e], first.receipts[e], RedeliveryAnswer(first, second, e, later);
               && (answer.AlreadyDealtWith? <==> o.revision == r.revision && o.status == Processed)
               && (answer.Conflicted? <==>
                     if o.revision != r.revision then !(o.status == Pending && r.status == Received)
                     else || (o.status == Pending && r.status == Retryable)
                          || (o.status == Processing && third.receipts[e].status == Retryable))
               && !answer.NewlyQueued?
  {
    var first := Run(EMPTY, ops);
    var second := Run(first, turn);
    RunKeepsRows(EMPTY, ops);
    RowFacts(first, e);
    RunKeepsRows(first, turn);
    RunNone(first);
    RedeliveryIsRefusedExactly(ops, turn, e);
    hide Run;
    hide RowsOk;
    hide RedeliveryAnswer;
    RowsRemainPaired(first, [], e);
    RowsRemainPaired(first, turn, e);
    RowsRemainPaired(second, later, e);
    AnswersAsReplied(first, second, later, e);
    if ReplyAcross(first, second, e).Reactivates? { ReactivationIsAnswered(first, second, later, e); }
  }

  /** An event's two rows stay and agree, and at the same revision the outbox row is the same. */
  lemma RowsRemainPaired(t: Table, ops: seq<Op>, e: EventId)
    requires RowsOk(t) && HasRows(t, e)
    ensures HasRows(Run(t, ops), e)
    ensures var o, r := Run(t, ops).ingress[e], Run(t, ops).receipts[e];
            && o.revision == r.revision && 1 <= o.revision && o.status != Failed
            && (o.status == Processed <==> IsTerminal(r.status))
            && (o.status == Processing <==> r.status == InProgress)
            && (o.revision == t.ingress[e].revision ==> o == t.ingress[e])
  {
    RowFacts(t, e);
    RunKeepsRows(t, ops);
    RunRemembers(t, ops);
    assert (e, t.ingress[e]) in Run(t, ops).images;
    RowFacts(Run(t, ops), e);
    hide Run;
  }

  lemma AnswersAsReplied(first: Table, second: Table, later: seq<Op>, e: EventId)
    requires e in first.receipts && e in second.ingress
    ensures var reply, answer := ReplyAcross(first, second, e), RedeliveryAnswer(first, second, e, later);
            && (answer.AlreadyDealtWith? <==> reply.AlreadyProcessed?) && !answer.NewlyQueued?
            && (reply.Refuses? ==> answer.Conflicted?) && (reply.Queues? ==> !answer.Conflicted?)
  {
    hide ReplyTo;
  }

  /** A reactivation that is refused has lost to another step of the event; the sender is refused only if that
      step leaves the event waiting for a retry. */
  lemma ReactivationIsAnswered(first: Table, second: Table, later: seq<Op>, e: EventId)
    requires e in first.receipts && e in second.ingress && ReplyAcross(first, second, e).Reactivates?
    requires var t := Run(second, later);
             && HasRows(t, e) && t.ingress[e].status != Failed
             && (t.receipts[e].status == Retryable ==> t.ingress[e].status == Pending)
    ensures RedeliveryAnswer(first, second, e, later).Conflicted? <==> Run(second, later).receipts[e].status == Retryable
  {
    var op := Reactivate(e, second.ingress[e].status, first.receipts[e].status, ReplyAcross(first, second, e).expected);
    assert ReactivateOps(first, second, e, later)[|later|] == op;
    RunAppend(second, later, [op]);
    RunOne(Run(second, later), op);
    hide Run;
  }

  class Store {
    var ingress: map<EventId, Outbox>
    var receipts: map<EventId, Receipt>
    var outgoing: set<OutgoingId>
    var projections: map<SubscriptionId, Projection>
    var updates: seq<Update>
    var images: set<(EventId, Outbox)>
    var versions: set<(SubscriptionId, Projection)>

    function Contents(): Table
      reads this
    {
      Table(ingress, receipts, outgoing, projections, updates, images, versions)
    }

    ghost predicate Valid()
      reads this
    {
      RowsOk(Contents()) && ProjectionsOk(Contents())
    }

    constructor ()
      ensures Valid() && Contents() == EMPTY
    {
      ingress, receipts, outgoing, projections, updates := map[], map[], {}, map[], [];
      images, versions := {}, {};
    }

    method WriteRows(e: EventId, o: Outbox, r: Receipt)
      modifies this
      ensures Contents() == Write(old(Contents()), e, o, r)
    {
      ingress, receipts := ingress[e := o], receipts[e := r];
      images := images + {(e, o)};
    }

    /** Accepts a webhook, or answers a redelivery of it from its receipt and its outbox row, read one
        after the other; the turns are what others do before each read and before the reactivation. */
    method AcceptSupported(e: EventId, turn: (seq<Op>, seq<Op>, seq<Op>)) returns (answer: Accepted)
      requires Valid()
      modifies this
      ensures Valid()
      ensures e !in old(ingress) ==> answer == NewlyQueued && Contents() == Apply(old(Contents()), Accept(e))
      ensures e in old(ingress) ==>
                var first := Run(old(Contents()), turn.0); var second := Run(first, turn.1);
                && e in first.receipts && e in second.ingress
                && Contents() == Run(second, ReactivateOps(first, second, e, turn.2))
                && answer == RedeliveryAnswer(first, second, e, turn.2)
    {
      ghost var before := Contents();
      if e in ingress { RowFacts(before, e); } else { NoReceiptAlone(before, e); }
      hide RowsOk;
      hide ProjectionsOk;
      if e !in ingress && e !in receipts {
        ApplyKeepsBoth(before, Accept(e));
        WriteRows(e, Outbox(Pending, 1, 0, None), Receipt(Received, 1));
        return NewlyQueued;
      }
      hide Run;
      hide Apply;
      RowsRemain(before, turn.0, e);
      RunOthers(turn.0);
      ghost var first := Contents();
      var r := receipts[e];
      RowsRemain(first, turn.1, e);
      RunOthers(turn.1);
      answer := AnswerRedelivery(e, r, turn.2, first);
    }

    /** Answers a redelivery from the receipt read before and the outbox row as it is now. */
    method AnswerRedelivery(e: EventId, r: Receipt, turn: seq<Op>, ghost first: Table) returns (answer: Accepted)
      requires Valid() && e in ingress && e in first.receipts && first.receipts[e] == r
      modifies this
      ensures Valid() && Contents() == Run(old(Contents()), ReactivateOps(first, old(Contents()), e, turn))
      ensures answer == RedeliveryAnswer(first, old(Contents()), e, turn)
    {
      hide RowsOk;
      hide ProjectionsOk;
      hide Run;
      hide Apply;
      hide Commits;
      ghost var second := Contents();
      var o := ingress[e];
      var reply := ReplyTo(o, r);
      RunNone(second);
      if reply.AlreadyProcessed? { return AlreadyDealtWith; }
      if reply.Queues? { return AlreadyQueued; }
      if reply.Refuses? { return Conflicted; }
      ghost var op := Reactivate(e, o.status, r.status, reply.expected);
      RunAppend(second, turn, [op]);
      RowsRemain(second, turn, e);
      RunOthers(turn);
      RunOne(Contents(), op);
      var ok := CommitReactivation(e, o.status, r.status, reply.expected);
      answer := if ok || (ingress[e].status != Failed && receipts[e].status != Retryable) then AlreadyQueued else Conflicted;
    }

    method CommitReactivation(e: EventId, ingressStatus: IngressStatus, receiptStatus: ReceiptStatus, expected: int) returns (ok: bool)
      requires Valid() && e in ingress && e in receipts && 1 <= expected
      requires (ingressStatus == Processing || ingressStatus == Failed) && (receiptStatus == InProgress || receiptStatus == Retryable)
      modifies this
      ensures Valid() && Contents() == Apply(old(Contents()), Reactivate(e, ingressStatus, receiptStatus, expected))
      ensures ok <==> Commits(old(Contents()), Reactivate(e, ingressStatus, receiptStatus, expected))
      ensures e in ingress && e in receipts
    {
      hide RowsOk;
      hide ProjectionsOk;
      ApplyKeepsBoth(Contents(), Reactivate(e, ingressStatus, receiptStatus, expected));
      ok := ingress[e].status == ingressStatus && ingress[e].revision == expected
            && receipts[e].status == receiptStatus && receipts[e].revision == expected;
      if ok { WriteRows(e, Outbox(Pending, expected + 1, ingress[e].attempts, None), Receipt(Received, expected + 1)); }
    }

    /** Claims a pending event. Whether by this call or by an earlier one with the same sequence
        number, the reply grants the claim exactly when the rows are now held under it. */
    method ClaimIngress(e: EventId, expected: int, sequence: string) returns (reply: ClaimReply)
      requires Valid() && 1 <= expected
      modifies this
      ensures Valid() && Contents() == Apply(old(Contents()), Claim(e, expected, sequence))
      ensures reply.Granted? <==> IsHeld(Contents(), e, expected + 1, sequence)
      ensures reply.Granted? ==> reply.revision == expected + 1
      ensures reply.AlreadyDone? <==> e in ingress && ingress[e].status == Processed
    {
      ghost var op := Claim(e, expected, sequence);
      hide RowsOk;
      hide ProjectionsOk;
      ApplyKeepsBoth(Contents(), op);
      if e in ingress && ingress[e].status == Pending && ingress[e].revision == expected
         && e in receipts && receipts[e].revision == expected
         && (receipts[e].status == Received || receipts[e].status == Retryable) {
        WriteRows(e, Outbox(Processing, expected + 1, ingress[e].attempts + 1, Some(sequence)), Receipt(InProgress, expected + 1));
        return Granted(expected + 1);
      }
      if e in ingress && e in receipts && ingress[e].status == Processing && ingress[e].sequence == Some(sequence)
         && ingress[e].revision == expected + 1
         && receipts[e].status == InProgress && receipts[e].revision == expected + 1 {
        return Granted(expected + 1);
      }
      if e in ingress && ingress[e].status == Processed { return AlreadyDone; }
      return Unavailable;
    }

    /** Sends a claimed event back to wait for its mapping. Asking twice is answered alike. */
    method RetryIngress(e: EventId, image: Outbox, claimed: int, sequence: string) returns (ok: bool)
      requires Valid() && (e, image) in images && image.status == Pending && claimed == image.revision + 1
      requires image.attempts + 1 < MAX_MAPPING_ATTEMPTS
      modifies this
      ensures Valid() && Contents() == Apply(old(Contents()), RetryLater(e, image, claimed, sequence))
      ensures ok <==> IsFinished(Contents(), RetryLater(e, image, claimed, sequence))
    {
      hide RowsOk;
      hide ProjectionsOk;
      ApplyKeepsBoth(Contents(), RetryLater(e, image, claimed, sequence));
      if e in ingress && ingress[e].status == Processing && ingress[e].revision == claimed && ingress[e].sequence == Some(sequence)
         && e in receipts && receipts[e].status == InProgress && receipts[e].revision == claimed {
        WriteRows(e, Outbox(Pending, claimed + 1, ingress[e].attempts, None), Receipt(Retryable, claimed + 1));
        return true;
      }
      ok := e in ingress && e in receipts
            && ingress[e].status == Pending && ingress[e].revision == claimed + 1 && ingress[e].sequence == None
            && receipts[e].status == Retryable && receipts[e].revision == claimed + 1;
    }

    /** Completes a claimed event: refuses when its receipt is not processing under the claim, and else
        commits one transaction over the two rows, the projection and the outgoing events. A refused
        transaction still counts as done when the event is found completed under the next revision. */
    method CompleteIngress(e: EventId, claimed: int, sequence: string, terminal: ReceiptStatus, kinds: set<string>, put: Option<Put>,
                           turn: seq<Op>)
      returns (ok: bool)
      requires Valid() && IsTerminal(terminal) && |kinds| <= 2
      requires put.Some? ==> kinds != {} && IsPlanned(e, put.value)
      requires put.Some? && put.value.read.Some? ==> (put.value.subscription, put.value.read.value) in versions
      modifies this
      ensures Valid()
      ensures Contents() == Run(old(Contents()), CompleteOps(old(Contents()), Complete(e, claimed, sequence, terminal, kinds, put), turn))
      ensures ok <==> ReceiptIsOpen(old(Contents()), e, claimed) && IsCompleted(Contents(), e, claimed + 1)
    {
      hide RowsOk;
      hide ProjectionsOk;
      hide IsPlanned;
      hide Apply;
      hide Run;
      if e !in receipts || receipts[e].status != InProgress || receipts[e].revision != claimed {
        RunNone(Contents());
        return false;
      }
      ghost var start, op := Contents(), Complete(e, claimed, sequence, terminal, kinds, put);
      RunOthers(turn);
      RunAppend(start, turn, [op]);
      RunOne(Contents(), op);
      ok := CommitCompletion(e, claimed, sequence, terminal, kinds, put);
    }

    /** The completion transaction. */
    method CommitCompletion(e: EventId, claimed: int, sequence: string, terminal: ReceiptStatus, kinds: set<string>, put: Option<Put>)
      returns (ok: bool)
      requires Valid() && IsTerminal(terminal) && |kinds| <= 2
      requires put.Some? ==> kinds != {} && IsPlanned(e, put.value)
      requires put.Some? && put.value.read.Some? ==> (put.value.subscription, put.value.read.value) in versions
      modifies this
      ensures Valid() && Contents() == Apply(old(Contents()), Complete(e, claimed, sequence, terminal, kinds, put))
      ensures ok <==> IsCompleted(Contents(), e, claimed + 1)
    {
      hide RowsOk;
      hide ProjectionsOk;
      hide IsPlanned;
      ghost var before := Contents();
      ApplyKeepsBoth(before, Complete(e, claimed, sequence, terminal, kinds, put));
      var allowed := e in ingress && ingress[e].status == Processing && ingress[e].revision == claimed
                     && ingress[e].sequence == Some(sequence);
      allowed := allowed && e in receipts && receipts[e].status == InProgress && receipts[e].revision == claimed;
      if put.Some? {
        var p := put.value;
        if p.read.None? {
          allowed := allowed && p.subscription !in projections;
        } else {
          allowed := allowed && p.subscription in projections && projections[p.subscription].revision == p.read.value.revision;
          allowed := allowed && Newer(p.row.createdAt, p.row.event, projections[p.subscription]);
        }
      }
      allowed := allowed && Outgoing(e, kinds) !! outgoing;
      if allowed {
        WriteRows(e, ingress[e].(status := Processed, revision := claimed + 1), Receipt(terminal, claimed + 1));
        outgoing := outgoing + Outgoing(e, kinds);
        if put.Some? {
          var p := put.value;
          projections := projections[p.subscription := p.row];
          versions := versions + {(p.subscription, p.row)};
          updates := updates + [Update(p.subscription, p.row.revision, p.row.createdAt, p.row.event)];
        }
        return true;
      }
      ok := e in ingress && ingress[e].status == Processed && ingress[e].revision == claimed + 1;
    }

    /** Other workers run. */
    method RunOthers(turn: seq<Op>)
      requires Valid()
      modifies this
      ensures Valid() && Contents() == Run(old(Contents()), turn) && Remembers(old(Contents()), Contents())
    {
      hide RowsOk;
      hide ProjectionsOk;
      hide Apply;
      ghost var before := Contents();
      RunRemembers(before, turn);
      for i := 0 to |turn|
        invariant Valid() && Contents() == Run(before, turn[..i])
      {
        ghost var middle := Contents();
        ApplyKeepsBoth(middle, turn[i]);
        var t := Apply(Contents(), turn[i]);
        ingress, receipts, outgoing, projections := t.ingress, t.receipts, t.outgoing, t.projections;
        updates, images, versions := t.updates, t.images, t.versions;
        RunAppend(before, turn[..i], [turn[i]]);
        RunOne(middle, turn[i]);
        assert turn[..i + 1] == turn[..i] + [turn[i]];
      }
      assert turn[..|turn|] == turn;
    }

    /** One pass of the worker over a delivered image of a pending event: it claims the event, finds
        out about it, plans the projection if there is one, and takes exactly one finishing step. The
        four turns are what other workers do before each of the worker's own accesses. */
    method Process(e: EventId, image: Outbox, sequence: string, f: Finding, turn: (seq<Op>, seq<Op>, seq<Op>, seq<Op>))
      returns (outcome: Outcome)
      requires Valid() && (e, image) in images && image.status == Pending && 1 <= image.revision && GoodFinding(f)
      modifies this
      ensures Valid() && Contents() == Run(old(Contents()), ProcessOps(old(Contents()), e, image, sequence, f, turn))
      ensures outcome == ProcessOutcome(old(Contents()), e, image, sequence, f, turn)
      ensures outcome == Finished ==>
                e in ingress && ingress[e].revision == image.revision + 2
                && (ingress[e].status == Processed || ingress[e].status == Pending)
      ensures outcome == Skipped ==> e in ingress && ingress[e].status == Processed
      ensures turn == ([], [], [], []) && e in old(ingress) && old(ingress)[e] == image ==>
                outcome == Finished && PassLeaves(old(Contents()), Contents(), e, f)
    {
      hide IsHeld;
      hide PassLeaves;
      hide FinishOf;
      hide FinishOps;
      hide IsFinished;
      hide GoodFinding;
      hide RowsOk;
      hide ProjectionsOk;
      hide Apply;
      hide Run;
      hide Commits;
      ghost var start, claim := Contents(), Claim(e, image.revision, sequence);
      if e in ingress && ingress[e] == image { UndisturbedPassFinishes(start, e, sequence, f); }
      RunOthers(turn.0);
      RunAppend(start, turn.0, [claim]);
      RunOne(Contents(), claim);
      StepRemembers(Contents(), claim);
      ghost var ran := turn.0 + [claim];
      var reply := ClaimIngress(e, image.revision, sequence);
      if !reply.Granted? { return if reply.AlreadyDone? then Skipped else Raised; }
      RunAppend(start, ran, turn.1);
      RunOthers(turn.1);
      var current: Option<Projection> := None;
      if f.SubscriptionState? && f.subscription in projections {
        current := Some(projections[f.subscription]);
        CurrentIsRemembered(Contents(), f.subscription);
      }
      ran := ran + turn.1;
      RunAppend(start, ran, turn.2);
      RunOthers(turn.2);
      ran := ran + turn.2;
      ghost var op := FinishOf(e, image, sequence, f, current);
      RunAppend(start, ran, FinishOps(Contents(), op, turn.3));
      var ok := Finish(e, image, sequence, f, current, turn.3);
      outcome := if ok then Finished else Raised;
    }

    /** The finishing step of a pass. */
    method Finish(e: EventId, image: Outbox, sequence: string, f: Finding, current: Option<Projection>, turn: seq<Op>) returns (ok: bool)
      requires Valid() && (e, image) in images && image.status == Pending && 1 <= image.revision && GoodFinding(f)
      requires f.SubscriptionState? && current.Some? ==> (f.subscription, current.value) in versions
      modifies this
      ensures var op := FinishOf(e, image, sequence, f, current); var ops := FinishOps(old(Contents()), op, turn);
              Valid() && Contents() == Run(old(Contents()), ops) && (ok <==> ops != [] && IsFinished(Contents(), op))
      ensures ok ==>
                e in ingress && ingress[e].revision == image.revision + 2
                && (ingress[e].status == Processed || ingress[e].status == Pending)
    {
      hide RowsOk;
      hide ProjectionsOk;
      hide IsPlanned;
      hide Commits;
      hide Apply;
      hide Plan;
      hide Run;
      var claimed := image.revision + 1;
      match f
      case AccountGone => ok := CompleteIngress(e, claimed, sequence, Done, {}, None, turn);
      case Reconciled => ok := CompleteIngress(e, claimed, sequence, Done, {}, None, turn);
      case MissingMapping =>
        if image.attempts + 1 < MAX_MAPPING_ATTEMPTS {
          RunOne(Contents(), RetryLater(e, image, claimed, sequence));
          ok := RetryIngress(e, image, claimed, sequence);
        } else {
          ok := CompleteIngress(e, claimed, sequence, NeedsReview, {}, None, turn);
        }
      case Unmapped => ok := CompleteIngress(e, claimed, sequence, Ignored, {}, None, turn);
      case MigrationMapping(reconciled) =>
        ok := CompleteIngress(e, claimed, sequence, if reconciled then Done else NeedsReview, {}, None, turn);
      case NotAuthorized => ok := CompleteIngress(e, claimed, sequence, NeedsReview, {}, None, turn);
      case Event(terminal, kinds) => ok := CompleteIngress(e, claimed, sequence, terminal, kinds, None, turn);
      case SubscriptionState(subscription, createdAt, hash, state) =>
        var row := Plan(current, createdAt, e, hash, state);
        if row.None? {
          ok := CompleteIngress(e, claimed, sequence, Ignored, {}, None, turn);
        } else {
          PlannedRow(current, createdAt, e, hash, state);
          ok := CompleteIngress(e, claimed, sequence, Done, {SUBSCRIPTION_UPDATED}, Some(Put(subscription, current, row.value)), turn);
        }
    }
  }

  lemma PlannedRow(current: Option<Projection>, createdAt: int, e: EventId, hash: string, state: string)
    requires Plan(current, createdAt, e, hash, state).Some?
    ensures var row := Plan(current, createdAt, e, hash, state).value;
            forall s: SubscriptionId :: IsPlanned(e, Put(s, current, row))
  {
  }

  lemma CurrentIsRemembered(t: Table, s: SubscriptionId)
    requires ProjectionsOk(t) && s in t.projections
    ensures (s, t.projections[s]) in t.versions
  {
  }

  // ---------------------------------------------------------------- a pass nobody disturbs

  lemma ClaimHolds(t: Table, e: EventId, sequence: string)
    requires RowsOk(t) && e in t.ingress && t.ingress[e].status == Pending
    ensures var n := Apply(t, Claim(e, t.ingress[e].revision, sequence));
            IsHeld(n, e, t.ingress[e].revision + 1, sequence) && (e, t.ingress[e]) in n.images
  {
    RowFacts(t, e);
    assert (e, t.ingress[e]) in t.images;
    hide RowsOk;
  }

  /** The table right after the claim of a pending event. */
  predicate IsClaimed(t: Table, t1: Table, e: EventId, sequence: string)
    requires e in t.ingress && e in t.receipts
  {
    t1 == Write(t, e, Outbox(Processing, t.ingress[e].revision + 1, t.ingress[e].attempts + 1, Some(sequence)),
                Receipt(InProgress, t.ingress[e].revision + 1))
  }

  lemma ClaimWrites(t: Table, e: EventId, sequence: string)
    requires RowsOk(t) && e in t.ingress && t.ingress[e].status == Pending
    ensures e in t.receipts && 0 <= t.ingress[e].attempts
    ensures IsClaimed(t, Apply(t, Claim(e, t.ingress[e].revision, sequence)), e, sequence)
  {
    RowFacts(t, e);
    hide RowsOk;
  }

  lemma HeldEventsHaveNoOutgoing(t: Table, e: EventId, revision: int, sequence: string, kinds: set<string>)
    requires RowsOk(t) && IsHeld(t, e, revision, sequence)
    ensures Outgoing(e, kinds) !! t.outgoing
  {
  }

  lemma CurrentPlanIsAllowed(t: Table, e: EventId, f: Finding)
    requires ProjectionsOk(t) && f.SubscriptionState?
    requires Plan(ReadOf(t, f), f.createdAt, e, f.hash, f.state).Some?
    ensures var p := Put(f.subscription, ReadOf(t, f), Plan(ReadOf(t, f), f.createdAt, e, f.hash, f.state).value);
            && IsPlanned(e, p) && PutAllowed(t, p) && (p.read.Some? ==> (p.subscription, p.read.value) in t.versions)
  {
    if f.subscription in t.projections { CurrentIsRemembered(t, f.subscription); }
    hide ProjectionsOk;
  }

  lemma HeldFinishCommits(t: Table, e: EventId, image: Outbox, sequence: string, f: Finding)
    requires RowsOk(t) && ProjectionsOk(t) && GoodFinding(f)
    requires image.status == Pending && (e, image) in t.images && IsHeld(t, e, image.revision + 1, sequence)
    ensures Commits(t, FinishOf(e, image, sequence, f, ReadOf(t, f)))
  {
    var op := FinishOf(e, image, sequence, f, ReadOf(t, f));
    if op.Complete? { HeldEventsHaveNoOutgoing(t, e, image.revision + 1, sequence, op.kinds); }
    if f.SubscriptionState? && Plan(ReadOf(t, f), f.createdAt, e, f.hash, f.state).Some? { CurrentPlanIsAllowed(t, e, f); }
    hide RowsOk;
    hide ProjectionsOk;
    hide Plan;
    hide IsPlanned;
    hide PutAllowed;
    hide ReadOf;
    hide Outgoing;
  }

  lemma CommittedFinishIsFinished(t: Table, op: Op)
    requires Commits(t, op) && (op.RetryLater? || op.Complete?)
    ensures IsFinished(Apply(t, op), op) && FinishOps(t, op, []) == [op]
  {
    hide PutAllowed;
    hide IsPlanned;
    hide Outgoing;
  }

  lemma FinishIsRetryOrCompletion(e: EventId, image: Outbox, sequence: string, f: Finding, current: Option<Projection>)
    ensures var op := FinishOf(e, image, sequence, f, current); op.RetryLater? || op.Complete?
  {
    hide Plan;
  }

  /** The event is processed under this decision and these kinds of outgoing events go out for it. */
  predicate IsDecided(t: Table, n: Table, e: EventId, status: ReceiptStatus, kinds: set<string>)
    requires e in t.ingress
  {
    && e in n.ingress && n.ingress[e].status == Processed && n.ingress[e].revision == t.ingress[e].revision + 2
    && n.ingress == t.ingress[e := n.ingress[e]]
    && n.receipts == t.receipts[e := Receipt(status, t.ingress[e].revision + 2)]
    && n.outgoing == t.outgoing + (set k | k in kinds :: OutgoingId(e, k))
  }

  predicate ProjectsNothing(t: Table, n: Table) { n.projections == t.projections && n.updates == t.updates }

  /** What a pass that nobody disturbs leaves, by what the worker found out. A missing mapping waits for
      a retry until three attempts are made. A subscription state is stored and goes out as one update
      when it is the first, or newer than the stored one and different; otherwise it is ignored. */
  predicate PassLeaves(t: Table, n: Table, e: EventId, f: Finding)
    requires e in t.ingress
  {
    match f
    case AccountGone => IsDecided(t, n, e, Done, {}) && ProjectsNothing(t, n)
    case Reconciled => IsDecided(t, n, e, Done, {}) && ProjectsNothing(t, n)
    case MissingMapping =>
      ProjectsNothing(t, n)
      && if t.ingress[e].attempts >= 2 then IsDecided(t, n, e, NeedsReview, {})
         else
           && n.ingress == t.ingress[e := Outbox(Pending, t.ingress[e].revision + 2, t.ingress[e].attempts + 1, None)]
           && n.receipts == t.receipts[e := Receipt(Retryable, t.ingress[e].revision + 2)] && n.outgoing == t.outgoing
    case Unmapped => IsDecided(t, n, e, Ignored, {}) && ProjectsNothing(t, n)
    case MigrationMapping(reconciled) =>
      IsDecided(t, n, e, if reconciled then Done else NeedsReview, {}) && ProjectsNothing(t, n)
    case NotAuthorized => IsDecided(t, n, e, NeedsReview, {}) && ProjectsNothing(t, n)
    case Event(terminal, kinds) => IsDecided(t, n, e, terminal, kinds) && ProjectsNothing(t, n)
    case SubscriptionState(subscription, createdAt, hash, state) =>
      if subscription !in t.projections then
        && IsDecided(t, n, e, Done, {SUBSCRIPTION_UPDATED})
        && n.projections == t.projections[subscription := Projection(1, createdAt, e, hash, state)]
        && n.updates == t.updates + [Update(subscription, 1, createdAt, e)]
      else
        var stored := t.projections[subscription];
        if (stored.createdAt < createdAt || (stored.createdAt == createdAt && Before(stored.event, e))) && hash != stored.hash then
          && IsDecided(t, n, e, Done, {SUBSCRIPTION_UPDATED})
          && n.projections == t.projections[subscription := Projection(stored.revision + 1, createdAt, e, hash, state)]
          && n.updates == t.updates + [Update(subscription, stored.revision + 1, createdAt, e)]
        else IsDecided(t, n, e, Ignored, {}) && ProjectsNothing(t, n)
  }

  lemma CompletionLeaves(t: Table, t1: Table, e: EventId, sequence: string, terminal: ReceiptStatus, kinds: set<string>, put: Option<Put>)
    requires e in t.ingress && e in t.receipts && IsClaimed(t, t1, e, sequence)
    requires Commits(t1, Complete(e, t.ingress[e].revision + 1, sequence, terminal, kinds, put))
    ensures var n := Effect(t1, Complete(e, t.ingress[e].revision + 1, sequence, terminal, kinds, put));
            && IsDecided(t, n, e, terminal, kinds)
            && if put.None? then ProjectsNothing(t, n)
               else
                 var p := put.value;
                 && n.projections == t.projections[p.subscription := p.row]
                 && n.updates == t.updates + [Update(p.subscription, p.row.revision, p.row.createdAt, p.row.event)]
  {
    hide IsPlanned;
    hide PutAllowed;
  }

  lemma HeldFinishLeaves(t: Table, t1: Table, e: EventId, sequence: string, f: Finding)
    requires e in t.ingress && e in t.receipts && 0 <= t.ingress[e].attempts && IsClaimed(t, t1, e, sequence)
    requires var op := FinishOf(e, t.ingress[e], sequence, f, ReadOf(t1, f)); Commits(t1, op)
    ensures var op := FinishOf(e, t.ingress[e], sequence, f, ReadOf(t1, f)); PassLeaves(t, Apply(t1, op), e, f)
  {
    var op := FinishOf(e, t.ingress[e], sequence, f, ReadOf(t1, f));
    if op.Complete? {
      hide Commits;
      hide Effect;
      hide IsDecided;
      hide ProjectsNothing;
      CompletionLeaves(t, t1, e, sequence, op.terminal, op.kinds, op.put);
    } else {
      hide FinishOf;
    }
  }

  /** A pass over the current image of a pending event always finishes it when nobody disturbs, whatever
      the worker finds out, and leaves what the finding asks for. */
  lemma UndisturbedPassFinishes(t: Table, e: EventId, sequence: string, f: Finding)
    requires RowsOk(t) && ProjectionsOk(t) && GoodFinding(f) && e in t.ingress && t.ingress[e].status == Pending
    ensures ProcessOutcome(t, e, t.ingress[e], sequence, f, ([], [], [], [])) == Finished
    ensures PassLeaves(t, Run(t, ProcessOps(t, e, t.ingress[e], sequence, f, ([], [], [], []))), e, f)
  {
    hide PassLeaves;
    hide IsClaimed;
    hide RowsOk;
    hide ProjectionsOk;
    hide Run;
    hide Apply;
    hide Commits;
    hide IsHeld;
    hide IsFinished;
    hide FinishOps;
    hide FinishOf;
    hide ReadOf;
    hide GoodFinding;
    var image := t.ingress[e];
    var claim := Claim(e, image.revision, sequence);
    var t1 := Apply(t, claim);
    ClaimHolds(t, e, sequence);
    ApplyKeepsBoth(t, claim);
    HeldFinishCommits(t1, e, image, sequence, f);
    var op := FinishOf(e, image, sequence, f, ReadOf(t1, f));
    FinishIsRetryOrCompletion(e, image, sequence, f, ReadOf(t1, f));
    CommittedFinishIsFinished(t1, op);
    ClaimWrites(t, e, sequence);
    HeldFinishLeaves(t, t1, e, sequence, f);
    RunOne(t, claim);
    RunAppend(t, [claim], [op]);
    RunOne(t1, op);
    assert [] + [claim] == [claim] == [claim] + [] == [claim] + [] + [];
  }
}
