/**
 The command store and the command service as they run: read, plan, commit under conditions, and
 fall back to the stored rows, with other workers in between.
 */
module CommandStore {
  import opened Types
  import opened Commands
  import Mappings = ResourceMappings

  /** What a claim tells its caller: go on and perform the command, replay a stored receipt, or stop. */
  datatype ClaimReply = Perform | Replay(receipt: Receipt) | Refused

  /** How the provider call of a command ends. */
  datatype Performed =
    | Succeeded(proposed: seq<(ResourceId, Mappings.Mapping)>)
    | AsksReview
    | Conflicts
    | Fails

  datatype Answer = IsAccepted | IsPending | IsReviewed | Raises

  lemma {:induction false} RunAppend(t: Table, a: seq<Op>, b: seq<Op>)
    ensures Run(t, a + b) == Run(Run(t, a), b)
    decreases |a|
  {
    hide Apply;
    if a == [] {
      assert a + b == b;
    } else {
      assert (a + b)[0] == a[0] && (a + b)[1..] == a[1..] + b;
      RunAppend(Apply(t, a[0]), a[1..], b);
    }
  }

  lemma RunOne(t: Table, op: Op)
    ensures Run(t, [op]) == Apply(t, op)
  {
    hide Apply;
    assert [op][1..] == [];
    assert Run(Apply(t, op), []) == Apply(t, op);
  }

  // ---------------------------------------------------------------- what each call comes to

  predicate HasReceipt(t: Table, key: ReceiptKey, request: Request) {
    key in t.receipts && t.receipts[key].request == request
  }

  function OperationAt(t: Table, k: OperationKey): Option<Operation> {
    if k in t.operations then Some(t.operations[k]) else None
  }

  /** What a claim puts into the table, other workers first: nothing for a known key and nothing when
      the operation row it read cannot be started, joined or advanced. */
  function ClaimOps(t: Table, key: ReceiptKey, request: Request, turn: seq<Op>): seq<Op> {
    var read := OperationAt(t, KeyOf(request.claim));
    if key in t.receipts || PlanOf(request, read).GiveUp? then [] else turn + [TakeClaim(key, request, read)]
  }

  predicate StartsWork(t: Table, key: ReceiptKey, request: Request, turn: seq<Op>) {
    var ops := ClaimOps(t, key, request, turn);
    ops != [] && IsFresh(ops[|ops| - 1]) && Commits(Run(t, turn), ops[|ops| - 1])
  }

  function ClaimAnswer(t: Table, key: ReceiptKey, request: Request, turn: seq<Op>): ClaimReply {
    var after := Run(t, ClaimOps(t, key, request, turn));
    if StartsWork(t, key, request, turn) then Perform
    else if HasReceipt(after, key, request) then Replay(after.receipts[key])
    else Refused
  }

  /** What a completion puts into the table: nothing when it has no receipt or a mapping refuses. */
  predicate CanPlan(t: Table, key: ReceiptKey, request: Request, proposed: seq<(ResourceId, Mappings.Mapping)>) {
    && HasReceipt(t, key, request)
    && forall i | 0 <= i < |proposed| :: Mappings.WriteOf(MappingAt(t, proposed[i].0), proposed[i].1).Some?
  }

  /** The mapping writes of a completion, all computed from one table. */
  function WritesOf(t: Table, proposed: seq<(ResourceId, Mappings.Mapping)>): map<ResourceId, Mappings.Write>
    requires forall i | 0 <= i < |proposed| :: Mappings.WriteOf(MappingAt(t, proposed[i].0), proposed[i].1).Some?
  {
    if proposed == [] then map[]
    else
      var last := proposed[|proposed| - 1];
      WritesOf(t, proposed[..|proposed| - 1])[last.0 := Mappings.WriteOf(MappingAt(t, last.0), last.1).value]
  }

  function FinishOps(t: Table, key: ReceiptKey, request: Request, proposed: seq<(ResourceId, Mappings.Mapping)>, turn: seq<Op>): seq<Op> {
    if CanPlan(t, key, request, proposed) then turn + [Complete(key, request, WritesOf(t, proposed))] else []
  }

  predicate Finishes(t: Table, key: ReceiptKey, request: Request, proposed: seq<(ResourceId, Mappings.Mapping)>, turn: seq<Op>) {
    && CanPlan(t, key, request, proposed)
    && IsAcceptedIn(Run(t, FinishOps(t, key, request, proposed, turn)), key, request)
  }

  /** What a committed completion leaves of the mapping rows: every proposed resource stores its proposal,
      computed from the row of the plan and written to the row it meets, and no other row changes. */
  predicate StoresProposals(planned: Table, before: Table, now: Table, proposed: seq<(ResourceId, Mappings.Mapping)>) {
    && (forall i | 0 <= i < |proposed| ::
          var r := proposed[i].0;
          r in now.mappings && Mappings.Stores(MappingAt(planned, r), MappingAt(before, r), now.mappings[r], proposed[i].1))
    && (forall r | r in now.mappings && (forall i | 0 <= i < |proposed| :: proposed[i].0 != r) ::
          MappingAt(before, r) == Some(now.mappings[r]))
    && before.mappings.Keys <= now.mappings.Keys
  }

  lemma {:induction false} WritesOfEach(t: Table, proposed: seq<(ResourceId, Mappings.Mapping)>)
    requires forall i | 0 <= i < |proposed| :: Mappings.WriteOf(MappingAt(t, proposed[i].0), proposed[i].1).Some?
    requires forall i, j | 0 <= i < j < |proposed| :: proposed[i].0 != proposed[j].0
    ensures var ws := WritesOf(t, proposed);
            && (forall i | 0 <= i < |proposed| ::
                  proposed[i].0 in ws && Mappings.WriteOf(MappingAt(t, proposed[i].0), proposed[i].1) == Some(ws[proposed[i].0]))
            && (forall r | r in ws :: exists i :: 0 <= i < |proposed| && proposed[i].0 == r)
    decreases |proposed|
  {
    hide Mappings.WriteOf;
    if proposed == [] {
    } else {
      var n := |proposed| - 1;
      WritesOfEach(t, proposed[..n]);
      assert WritesOf(t, proposed) == WritesOf(t, proposed[..n])[proposed[n].0 := Mappings.WriteOf(MappingAt(t, proposed[n].0), proposed[n].1).value];
      forall i | 0 <= i < n ensures proposed[..n][i] == proposed[i] { }
    }
  }

  lemma CompletionStores(planned: Table, before: Table, key: ReceiptKey, request: Request, proposed: seq<(ResourceId, Mappings.Mapping)>)
    requires CanPlan(planned, key, request, proposed)
    requires forall i, j | 0 <= i < j < |proposed| :: proposed[i].0 != proposed[j].0
    requires Commits(before, Complete(key, request, WritesOf(planned, proposed)))
    ensures StoresProposals(planned, before, Effect(before, Complete(key, request, WritesOf(planned, proposed))), proposed)
  {
    hide Mappings.WriteOf;
    hide Mappings.Written;
    hide Mappings.Allowed;
    hide Mappings.Stores;
    WritesOfEach(planned, proposed);
    hide WritesOf;
    forall i | 0 <= i < |proposed|
      ensures var r := proposed[i].0; var now := Effect(before, Complete(key, request, WritesOf(planned, proposed)));
              r in now.mappings && Mappings.Stores(MappingAt(planned, r), MappingAt(before, r), now.mappings[r], proposed[i].1)
    {
      var r := proposed[i].0;
      assert r in WritesOf(planned, proposed) && Mappings.Allowed(MappingAt(before, r), WritesOf(planned, proposed)[r]);
      Mappings.CommittedWriteStores(MappingAt(planned, r), MappingAt(before, r), proposed[i].1);
    }
  }

  predicate IsAcceptedIn(t: Table, key: ReceiptKey, request: Request) {
    key in t.receipts && t.receipts[key] == Receipt(request, Accepted)
  }

  /** Both rows of the command show the status. */
  predicate ShowsStatus(t: Table, key: ReceiptKey, request: Request, status: Status) {
    && key in t.receipts && t.receipts[key] == Receipt(request, status)
    && KeyOf(request.claim) in t.operations
    && t.operations[KeyOf(request.claim)].request == request && t.operations[KeyOf(request.claim)].status == status
  }

  function MoveAnswer(t: Table, key: ReceiptKey, request: Request, target: Status, answer: Answer): Answer {
    if ShowsStatus(Apply(t, Transition(key, request, target)), key, request, target) then answer else Raises
  }

  /** What a claim's reply makes of a call: it ends, it is moved to review, or the provider is called. */
  datatype Course = Ends(answer: Answer) | GoesToReview | CallsProvider

  function CourseOf(reply: ClaimReply, isLate: bool): Course {
    match reply
    case Perform => CallsProvider
    case Refused => Ends(Raises)
    case Replay(receipt) =>
      (match receipt.status
       case Accepted => Ends(IsAccepted)
       case Rejected => Ends(Raises)
       case NeedsReview => Ends(IsReviewed)
       case Pending => if isLate then GoesToReview else Ends(IsPending)
       case Unknown => if isLate then GoesToReview else CallsProvider)
  }

  /** The answer of a whole call and all that ran meanwhile. */
  function Executed(t: Table, key: ReceiptKey, request: Request, isLate: bool, performed: Performed,
                    turns: (seq<Op>, seq<Op>, seq<Op>)): (Answer, seq<Op>)
  {
    var ops := ClaimOps(t, key, request, turns.0);
    match CourseOf(ClaimAnswer(t, key, request, turns.0), isLate)
    case Ends(answer) => (answer, ops)
    case GoesToReview =>
      (MoveAnswer(Run(t, ops), key, request, NeedsReview, IsReviewed), ops + [Transition(key, request, NeedsReview)])
    case CallsProvider =>
      var called := ops + turns.1;
      var now := Run(t, called);
      (match performed
       case AsksReview => (MoveAnswer(now, key, request, NeedsReview, IsReviewed), called + [Transition(key, request, NeedsReview)])
       case Conflicts => (MoveAnswer(now, key, request, Rejected, Raises), called + [Transition(key, request, Rejected)])
       case Fails => (MoveAnswer(now, key, request, Unknown, IsPending), called + [Transition(key, request, Unknown)])
       case Succeeded(proposed) =>
         (if Finishes(now, key, request, proposed, turns.2) then IsAccepted else Raises,
          called + FinishOps(now, key, request, proposed, turns.2)))
  }

  /** An accepted or reviewed answer is final: whatever runs afterwards, every later call under the key
      is told the same, calls no provider and writes nothing. */
  lemma FinalAnswersRepeat(t: Table, key: ReceiptKey, request: Request, isLate: bool, performed: Performed,
                           turns: (seq<Op>, seq<Op>, seq<Op>), ops: seq<Op>,
                           isLateAgain: bool, performedAgain: Performed, turnsAgain: (seq<Op>, seq<Op>, seq<Op>))
    requires var answer := Executed(t, key, request, isLate, performed, turns).0; answer == IsAccepted || answer == IsReviewed
    ensures var (answer, ran) := Executed(t, key, request, isLate, performed, turns);
            Executed(Run(Run(t, ran), ops), key, request, isLateAgain, performedAgain, turnsAgain) == (answer, [])
  {
    var (answer, ran) := Executed(t, key, request, isLate, performed, turns);
    var status := if answer == IsAccepted then Accepted else NeedsReview;
    assert HasReceipt(Run(t, ran), key, request) && Run(t, ran).receipts[key].status == status by {
      hide Apply;
      hide FinishOps;
      var before := ClaimOps(t, key, request, turns.0);
      if CourseOf(ClaimAnswer(t, key, request, turns.0), isLate).CallsProvider? {
        var called := before + turns.1;
        RunAppend(t, before, turns.1);
        RunAppend(t, called, ran[|called|..]);
        RunOne(Run(t, called), Transition(key, request, NeedsReview));
      } else if CourseOf(ClaimAnswer(t, key, request, turns.0), isLate).GoesToReview? {
        RunAppend(t, before, [Transition(key, request, NeedsReview)]);
        RunOne(Run(t, before), Transition(key, request, NeedsReview));
      }
      hide Run;
    }
    DecidedReceiptsStay(Run(t, ran), ops, key);
    hide Run;
  }

  // ---------------------------------------------------------------- a call nobody disturbs

  /** How a command stands before a call under an idempotency key: it is new and can be started, its
      status is known from the key's receipt or from the same command under another key, or the key or
      the resource dimension belongs to another command. */
  datatype Standing = IsNew | Known(status: Status) | Foreign

  function StandingOf(t: Table, key: ReceiptKey, request: Request): Standing {
    var k, claim := KeyOf(request.claim), request.claim;
    if key in t.receipts then if t.receipts[key].request == request then Known(t.receipts[key].status) else Foreign
    else if k !in t.operations then IsNew
    else if t.operations[k].request == request then Known(t.operations[k].status)
    else if t.operations[k].status == Accepted && t.operations[k].revision < claim.revision then IsNew
    else Foreign
  }

  /** Nobody has decided the command's operation row yet. */
  predicate IsUndecided(t: Table, request: Request) {
    var k := KeyOf(request.claim);
    k in t.operations && t.operations[k].request == request && IsOpen(t.operations[k].status)
  }

  /** The call changes nothing but the two rows of its command. */
  predicate KeepsOthers(t: Table, n: Table, key: ReceiptKey, request: Request) {
    && n.mappings == t.mappings && n.accepted == t.accepted
    && (forall x | x in n.receipts && x != key :: x in t.receipts && n.receipts[x] == t.receipts[x])
    && (forall k | k in n.operations && k != KeyOf(request.claim) :: k in t.operations && n.operations[k] == t.operations[k])
  }

  predicate HasStatus(n: Table, key: ReceiptKey, request: Request, status: Status) {
    key in n.receipts && n.receipts[key] == Receipt(request, status)
  }

  /** What a call leaves that nobody disturbs, and how it answers. A decided command is answered from its
      receipt; an open one whose retry window is over goes to review; one still waiting for its provider
      answers so; and a new one, or one whose outcome is unknown, is performed: its outcome decides both
      rows, and a success also stores every proposal, or raises if one of them cannot be stored. */
  predicate CallLeaves(t: Table, n: Table, key: ReceiptKey, request: Request, isLate: bool, performed: Performed, answer: Answer) {
    match StandingOf(t, key, request)
    case Foreign => answer == Raises && n == t
    case Known(Accepted) => answer == IsAccepted && HasStatus(n, key, request, Accepted) && KeepsOthers(t, n, key, request)
    case Known(Rejected) => answer == Raises && HasStatus(n, key, request, Rejected) && KeepsOthers(t, n, key, request)
    case Known(NeedsReview) => answer == IsReviewed && HasStatus(n, key, request, NeedsReview) && KeepsOthers(t, n, key, request)
    case Known(Pending) =>
      if isLate then MovesTo(t, n, key, request, NeedsReview, IsReviewed, answer)
      else answer == IsPending && HasStatus(n, key, request, Pending) && KeepsOthers(t, n, key, request)
    case Known(Unknown) =>
      if isLate then MovesTo(t, n, key, request, NeedsReview, IsReviewed, answer)
      else PerformLeaves(t, n, key, request, performed, answer)
    case IsNew => PerformLeaves(t, n, key, request, performed, answer)
  }

  /** Both rows take a status, unless somebody decided the operation under another key: then the receipt
      stays open and the call raises. */
  predicate MovesTo(t: Table, n: Table, key: ReceiptKey, request: Request, status: Status, ifMoved: Answer, answer: Answer) {
    KeepsOthers(t, n, key, request)
    && if IsUndecided(t, request) || StandingOf(t, key, request).IsNew? then answer == ifMoved && ShowsStatus(n, key, request, status)
       else answer == Raises && key in n.receipts && n.receipts[key].request == request && IsOpen(n.receipts[key].status)
  }

  predicate PerformLeaves(t: Table, n: Table, key: ReceiptKey, request: Request, performed: Performed, answer: Answer) {
    match performed
    case AsksReview => MovesTo(t, n, key, request, NeedsReview, IsReviewed, answer)
    case Conflicts => MovesTo(t, n, key, request, Rejected, Raises, answer)
    case Fails => MovesTo(t, n, key, request, Unknown, IsPending, answer)
    case Succeeded(proposed) =>
      if (IsUndecided(t, request) || StandingOf(t, key, request).IsNew?)
         && (forall i | 0 <= i < |proposed| :: Mappings.WriteOf(MappingAt(t, proposed[i].0), proposed[i].1).Some?)
      then answer == IsAccepted && ShowsStatus(n, key, request, Accepted) && StoresProposals(t, t, n, proposed)
      else
        && answer == Raises && key in n.receipts && n.receipts[key].request == request && IsOpen(n.receipts[key].status)
        && KeepsOthers(t, n, key, request)
  }

  /** How the plan of a claim follows from the standing of its command. */
  lemma PlanByStanding(t: Table, key: ReceiptKey, request: Request)
    requires Inv(t) && key !in t.receipts
    ensures var plan := PlanOf(request, OperationAt(t, KeyOf(request.claim))); var k := KeyOf(request.claim);
            match StandingOf(t, key, request)
            case Foreign => plan.GiveUp?
            case Known(status) => plan == Join(status) && k in t.operations && t.operations[k].request == request
            case IsNew => plan.Start? || plan.Advance?
    ensures var op := TakeClaim(key, request, OperationAt(t, KeyOf(request.claim)));
            StandingOf(t, key, request).Foreign? || Commits(t, op)
  {
    if KeyOf(request.claim) in t.operations { OperationsAreOk(t, KeyOf(request.claim)); }
    hide Inv;
  }

  /** The claim of a call that nobody disturbs. */
  lemma UndisturbedClaim(t: Table, key: ReceiptKey, request: Request)
    requires Inv(t)
    ensures var ops := ClaimOps(t, key, request, []); var n := Run(t, ops); var reply := ClaimAnswer(t, key, request, []);
            && KeepsOthers(t, n, key, request)
            && match StandingOf(t, key, request)
               case Foreign => reply == Refused && n == t
               case Known(status) =>
                 && reply == Replay(Receipt(request, status)) && HasStatus(n, key, request, status)
                 && n.operations == t.operations
               case IsNew =>
                 && reply == Perform && Undecided(n, key, request)
  {
    hide Inv;
    hide Commits;
    var op := TakeClaim(key, request, OperationAt(t, KeyOf(request.claim)));
    assert [] + [op] == [op] && Run(t, []) == t;
    if key !in t.receipts {
      PlanByStanding(t, key, request);
      if !StandingOf(t, key, request).Foreign? {
        ClaimEffect(t, key, request);
        RunOne(t, op);
      }
      hide StandingOf;
      hide PlanOf;
      hide Run;
      hide Apply;
    }
  }

  lemma ClaimEffect(t: Table, key: ReceiptKey, request: Request)
    requires var op := TakeClaim(key, request, OperationAt(t, KeyOf(request.claim))); Commits(t, op)
    ensures var op := TakeClaim(key, request, OperationAt(t, KeyOf(request.claim))); var n := Apply(t, op); var plan := PlanOf(request, op.read);
            && KeepsOthers(t, n, key, request)
            && (plan.Join? ==> HasStatus(n, key, request, plan.status) && n.operations == t.operations && !IsFresh(op))
            && (plan.Start? || plan.Advance? ==> Undecided(n, key, request) && IsFresh(op))
  {
  }

  lemma OperationsAreOk(t: Table, k: OperationKey)
    requires Inv(t) && k in t.operations
    ensures OperationOk(k, t.operations[k])
  {
  }

  /** A status change from the table right after the claim. */
  lemma MoveLeaves(t: Table, t1: Table, key: ReceiptKey, request: Request, target: Status, ifMoved: Answer)
    requires KeepsOthers(t, t1, key, request) && (target == Unknown || target == NeedsReview || target == Rejected)
    requires key in t1.receipts && t1.receipts[key].request == request && IsOpen(t1.receipts[key].status)
    requires || (StandingOf(t, key, request).Known? && t1.operations == t.operations)
             || (StandingOf(t, key, request).IsNew? && Undecided(t1, key, request))
    ensures MovesTo(t, Apply(t1, Transition(key, request, target)), key, request, target, ifMoved,
                    MoveAnswer(t1, key, request, target, ifMoved))
  {
    hide StandingOf;
  }

  lemma CompletionDecides(t: Table, key: ReceiptKey, request: Request, writes: map<ResourceId, Mappings.Write>)
    ensures var op := Complete(key, request, writes); var n := Apply(t, op);
            if Commits(t, op) then ShowsStatus(n, key, request, Accepted) && IsAcceptedIn(n, key, request) else n == t
  {
    hide WriteMappings;
    hide Mappings.Allowed;
  }

  /** Only the mapping rows matter. */
  lemma SameMappings(t: Table, t1: Table, n: Table, proposed: seq<(ResourceId, Mappings.Mapping)>)
    requires t1.mappings == t.mappings
    ensures StoresProposals(t1, t1, n, proposed) ==> StoresProposals(t, t, n, proposed)
    ensures (forall i | 0 <= i < |proposed| :: Mappings.WriteOf(MappingAt(t1, proposed[i].0), proposed[i].1).Some?)
       <==> (forall i | 0 <= i < |proposed| :: Mappings.WriteOf(MappingAt(t, proposed[i].0), proposed[i].1).Some?)
  {
    hide Mappings.WriteOf;
    hide Mappings.Stores;
    assert forall r :: MappingAt(t1, r) == MappingAt(t, r);
  }

  lemma SuccessLeaves(t: Table, t1: Table, key: ReceiptKey, request: Request, proposed: seq<(ResourceId, Mappings.Mapping)>)
    requires KeepsOthers(t, t1, key, request) && forall i, j | 0 <= i < j < |proposed| :: proposed[i].0 != proposed[j].0
    requires key in t1.receipts && t1.receipts[key].request == request && IsOpen(t1.receipts[key].status)
    requires || (StandingOf(t, key, request).Known? && t1.operations == t.operations)
             || (StandingOf(t, key, request).IsNew? && Undecided(t1, key, request))
    ensures PerformLeaves(t, Run(t1, FinishOps(t1, key, request, proposed, [])), key, request, Succeeded(proposed),
                          if Finishes(t1, key, request, proposed, []) then IsAccepted else Raises)
  {
    hide StandingOf;
    hide Mappings.WriteOf;
    hide StoresProposals;
    hide WritesOf;
    hide Commits;
    hide Apply;
    hide Run;
    assert Run(t1, []) == t1 by { RunNone(t1); }
    SameMappings(t, t1, Run(t1, FinishOps(t1, key, request, proposed, [])), proposed);
    if CanPlan(t1, key, request, proposed) {
      var op := Complete(key, request, WritesOf(t1, proposed));
      assert [] + [op] == [op];
      RunOne(t1, op);
      PlannedCommits(t1, key, request, proposed);
      CompletionDecides(t1, key, request, WritesOf(t1, proposed));
      if Undecided(t1, key, request) { CompletionStores(t1, t1, key, request, proposed); CommittedApplies(t1, op); }
    }
  }

  lemma RunNone(t: Table)
    ensures Run(t, []) == t
  {
  }

  lemma CommittedApplies(t: Table, op: Op)
    requires Commits(t, op)
    ensures Apply(t, op) == Effect(t, op)
  {
    hide Commits;
    hide Effect;
  }

  /** Writes computed from the current rows are allowed. */
  lemma PlannedCommits(t: Table, key: ReceiptKey, request: Request, proposed: seq<(ResourceId, Mappings.Mapping)>)
    requires CanPlan(t, key, request, proposed) && forall i, j | 0 <= i < j < |proposed| :: proposed[i].0 != proposed[j].0
    ensures Commits(t, Complete(key, request, WritesOf(t, proposed))) <==> Undecided(t, key, request)
  {
    WritesOfEach(t, proposed);
    forall r | r in WritesOf(t, proposed) ensures Mappings.Allowed(MappingAt(t, r), WritesOf(t, proposed)[r]) {
      var i :| 0 <= i < |proposed| && proposed[i].0 == r;
    }
    hide WritesOf;
  }

  /** Every call that nobody disturbs answers and leaves what its standing and the provider's outcome ask for. */
  lemma UndisturbedCall(t: Table, key: ReceiptKey, request: Request, isLate: bool, performed: Performed)
    requires Inv(t)
    requires performed.Succeeded? ==>
               forall i, j | 0 <= i < j < |performed.proposed| :: performed.proposed[i].0 != performed.proposed[j].0
    ensures var (answer, ran) := Executed(t, key, request, isLate, performed, ([], [], []));
            CallLeaves(t, Run(t, ran), key, request, isLate, performed, answer)
  {
    hide Inv;
    hide Apply;
    hide Run;
    hide StandingOf;
    hide ClaimOps;
    hide ClaimAnswer;
    hide KeepsOthers;
    hide MovesTo;
    hide MoveAnswer;
    hide Finishes;
    hide FinishOps;
    UndisturbedClaim(t, key, request);
    var ops := ClaimOps(t, key, request, []);
    var t1 := Run(t, ops);
    assert ops + [] == ops;
    if StandingOf(t, key, request).IsNew? || (StandingOf(t, key, request).Known? && IsOpen(StandingOf(t, key, request).status)) {
      forall target | target == Unknown || target == NeedsReview || target == Rejected
        ensures Run(t, ops + [Transition(key, request, target)]) == Apply(t1, Transition(key, request, target))
      {
        RunAppend(t, ops, [Transition(key, request, target)]);
        RunOne(t1, Transition(key, request, target));
      }
      MoveLeaves(t, t1, key, request, NeedsReview, IsReviewed);
      match performed
      case AsksReview =>
      case Conflicts => MoveLeaves(t, t1, key, request, Rejected, Raises);
      case Fails => MoveLeaves(t, t1, key, request, Unknown, IsPending);
      case Succeeded(proposed) =>
        SuccessLeaves(t, t1, key, request, proposed);
        RunAppend(t, ops, FinishOps(t1, key, request, proposed, []));
    }
  }

  class Store {
    var receipts: map<ReceiptKey, Receipt>
    var operations: map<OperationKey, Operation>
    var mappings: map<ResourceId, Mappings.Mapping>
    var accepted: seq<Acceptance>

    function Contents(): Table
      reads this
    {
      Table(receipts, operations, mappings, accepted)
    }

    ghost predicate Valid()
      reads this
    {
      Inv(Contents())
    }

    constructor ()
      ensures Valid() && Contents() == EMPTY
    {
      receipts, operations, mappings, accepted := map[], map[], map[], [];
    }

    method RunOthers(turn: seq<Op>)
      requires Valid()
      modifies this
      ensures Valid() && Contents() == Run(old(Contents()), turn)
    {
      hide Inv;
      hide Apply;
      ghost var before := Contents();
      for i := 0 to |turn|
        invariant Valid() && Contents() == Run(before, turn[..i])
      {
        ghost var middle := Contents();
        StepKeepsInv(middle, turn[i]);
        var t := Apply(Contents(), turn[i]);
        receipts, operations, mappings, accepted := t.receipts, t.operations, t.mappings, t.accepted;
        RunAppend(before, turn[..i], [turn[i]]);
        RunOne(middle, turn[i]);
        assert turn[..i + 1] == turn[..i] + [turn[i]];
      }
      assert turn[..|turn|] == turn;
    }

    /** Takes the claim of a command. The caller may perform it exactly when this very call created or
        advanced the operation row; otherwise it is told of its own receipt or refused. */
    method Claim(key: ReceiptKey, request: Request, turn: seq<Op>) returns (reply: ClaimReply, ghost ran: seq<Op>)
      requires Valid()
      modifies this
      ensures Valid() && Contents() == Run(old(Contents()), ran)
      ensures ran == ClaimOps(old(Contents()), key, request, turn)
      ensures reply == ClaimAnswer(old(Contents()), key, request, turn)
      ensures reply.Perform? ==> Undecided(Contents(), key, request)
    {
      hide Inv;
      ghost var start := Contents();
      ran := [];
      if key in receipts {
        if receipts[key].request == request { reply := Replay(receipts[key]); } else { reply := Refused; }
        return;
      }
      var k := KeyOf(request.claim);
      var read := if k in operations then Some(operations[k]) else None;
      var plan := PlanOf(request, read);
      if plan.GiveUp? { return Refused, []; }
      RunOthers(turn);
      ghost var op := TakeClaim(key, request, read);
      ran := turn + [op];
      RunAppend(start, turn, [op]);
      RunOne(Contents(), op);
      StepKeepsInv(Contents(), op);
      assert ran[..|ran| - 1] == turn;
      hide Run;
      var allowed := key !in receipts;
      match plan {
        case Start => allowed := allowed && k !in operations;
        case Join(status) =>
          allowed := allowed && k in operations
                     && operations[k] == Operation(request.claim.revision, request.claim.contentHash, request, status);
        case Advance(expected, expectedHash) =>
          allowed := allowed && k in operations && operations[k].status == Accepted
                     && operations[k].revision == expected && operations[k].contentHash == expectedHash;
        case GiveUp => allowed := false;
      }
      if allowed {
        if plan.Join? {
          receipts := receipts[key := Receipt(request, plan.status)];
          reply := Replay(receipts[key]);
        } else {
          receipts := receipts[key := Receipt(request, Pending)];
          operations := operations[k := Operation(request.claim.revision, request.claim.contentHash, request, Pending)];
          reply := Perform;
        }
      } else if key in receipts && receipts[key].request == request {
        reply := Replay(receipts[key]);
      } else {
        reply := Refused;
      }
    }

    /** Moves a command to unknown, needs review or rejected; asking twice is answered alike. */
    method MoveTo(key: ReceiptKey, request: Request, target: Status) returns (ok: bool)
      requires Valid() && (target == Unknown || target == NeedsReview || target == Rejected)
      modifies this
      ensures Valid() && Contents() == Apply(old(Contents()), Transition(key, request, target))
      ensures ok <==> ShowsStatus(Contents(), key, request, target)
    {
      hide Inv;
      StepKeepsInv(Contents(), Transition(key, request, target));
      ok := false;
      if key !in receipts || receipts[key].request != request { return; }
      var k := KeyOf(request.claim);
      if IsOpen(receipts[key].status) && k in operations && operations[k].request == request && IsOpen(operations[k].status) {
        receipts := receipts[key := Receipt(request, target)];
        operations := operations[k := operations[k].(status := target)];
        return true;
      }
      ok := k in operations && operations[k].request == request
            && receipts[key].status == target && operations[k].status == target;
    }

    /** Computes the mapping writes of a completion from the rows as they are now. */
    method PlanWrites(proposed: seq<(ResourceId, Mappings.Mapping)>) returns (writes: Option<map<ResourceId, Mappings.Write>>)
      requires forall i, j | 0 <= i < j < |proposed| :: proposed[i].0 != proposed[j].0
      ensures writes.Some? <==>
              forall i | 0 <= i < |proposed| :: Mappings.WriteOf(MappingAt(Contents(), proposed[i].0), proposed[i].1).Some?
      ensures writes.Some? ==> writes.value == WritesOf(Contents(), proposed)
      ensures writes.Some? ==>
                && (forall i | 0 <= i < |proposed| ::
                      && proposed[i].0 in writes.value
                      && Mappings.WriteOf(MappingAt(Contents(), proposed[i].0), proposed[i].1) == Some(writes.value[proposed[i].0]))
                && (forall r | r in writes.value :: exists i :: 0 <= i < |proposed| && proposed[i].0 == r)
    {
      var built: map<ResourceId, Mappings.Write> := map[];
      for i := 0 to |proposed|
        invariant forall m | 0 <= m < i :: Mappings.WriteOf(MappingAt(Contents(), proposed[m].0), proposed[m].1).Some?
        invariant built == WritesOf(Contents(), proposed[..i])
        invariant forall m | 0 <= m < i ::
                    && proposed[m].0 in built
                    && Mappings.WriteOf(MappingAt(Contents(), proposed[m].0), proposed[m].1) == Some(built[proposed[m].0])
        invariant forall r | r in built :: exists m :: 0 <= m < i && proposed[m].0 == r
      {
        var w := Mappings.WriteOf(if proposed[i].0 in mappings then Some(mappings[proposed[i].0]) else None, proposed[i].1);
        if w.None? { return None; }
        built := built[proposed[i].0 := w.value];
        assert proposed[..i + 1][..i] == proposed[..i];
      }
      assert proposed[..|proposed|] == proposed;
      writes := Some(built);
    }

    /** Completes a command: its mapping writes and both status changes, all or nothing. A refused
        transaction still counts as done when the receipt is found accepted. */
    method Finish(key: ReceiptKey, request: Request, proposed: seq<(ResourceId, Mappings.Mapping)>, turn: seq<Op>)
      returns (ok: bool, ghost ran: seq<Op>)
      requires Valid() && forall i, j | 0 <= i < j < |proposed| :: proposed[i].0 != proposed[j].0
      modifies this
      ensures Valid() && Contents() == Run(old(Contents()), ran)
      ensures ran == FinishOps(old(Contents()), key, request, proposed, turn)
      ensures ok <==> Finishes(old(Contents()), key, request, proposed, turn)
      ensures ok && Undecided(Run(old(Contents()), turn), key, request) ==>
                StoresProposals(old(Contents()), Run(old(Contents()), turn), Contents(), proposed)
    {
      hide Inv;
      hide StoresProposals;
      ok, ran := false, [];
      ghost var start := Contents();
      if key !in receipts || receipts[key].request != request { return; }
      var writes := PlanWrites(proposed);
      if writes.None? { return; }
      RunOthers(turn);
      ghost var op := Complete(key, request, writes.value);
      ran := turn + [op];
      RunAppend(start, turn, [op]);
      RunOne(Contents(), op);
      StepKeepsInv(Contents(), op);
      hide Run;
      hide WritesOf;
      ghost var before := Contents();
      if Commits(before, op) { CompletionStores(start, before, key, request, proposed); }
      ok := Commit(key, request, writes.value);
    }

    method Commit(key: ReceiptKey, request: Request, writes: map<ResourceId, Mappings.Write>) returns (ok: bool)
      modifies this
      ensures Contents() == Apply(old(Contents()), Complete(key, request, writes))
      ensures ok <==> IsAcceptedIn(Contents(), key, request)
    {
      var k := KeyOf(request.claim);
      var allowed := key in receipts && receipts[key].request == request && IsOpen(receipts[key].status);
      allowed := allowed && k in operations && operations[k].request == request && IsOpen(operations[k].status);
      allowed := allowed && forall r | r in writes :: Mappings.Allowed(MappingAt(Contents(), r), writes[r]);
      if allowed {
        mappings := WriteMappings(Contents(), writes);
        receipts := receipts[key := Receipt(request, Accepted)];
        accepted := accepted + [Acceptance(k, operations[k].revision, request)];
        operations := operations[k := operations[k].(status := Accepted)];
        return true;
      }
      ok := key in receipts && receipts[key] == Receipt(request, Accepted);
    }

    /** One command from end to end. Each answer is backed by the receipt: accepted only when it is
        accepted, reviewed only when it needs review. `isLate` says whether the provider's retry window
        of an earlier attempt is over. */
    method Execute(key: ReceiptKey, request: Request, isLate: bool, performed: Performed, turns: (seq<Op>, seq<Op>, seq<Op>))
      returns (answer: Answer, ghost ran: seq<Op>)
      requires Valid()
      requires performed.Succeeded? ==>
                 forall i, j | 0 <= i < j < |performed.proposed| :: performed.proposed[i].0 != performed.proposed[j].0
      modifies this
      ensures Valid() && Contents() == Run(old(Contents()), ran)
      ensures (answer, ran) == Executed(old(Contents()), key, request, isLate, performed, turns)
      ensures answer == IsAccepted ==> key in receipts && receipts[key] == Receipt(request, Accepted)
      ensures answer == IsReviewed ==> key in receipts && receipts[key] == Receipt(request, NeedsReview)
      ensures answer == IsPending ==>
                key in receipts && (receipts[key] == Receipt(request, Pending) || receipts[key] == Receipt(request, Unknown))
      ensures turns == ([], [], []) ==> CallLeaves(old(Contents()), Contents(), key, request, isLate, performed, answer)
    {
      hide Inv;
      hide CallLeaves;
      hide Apply;
      hide Commits;
      hide Undecided;
      hide Run;
      ghost var start := Contents();
      UndisturbedCall(start, key, request, isLate, performed);
      var reply;
      reply, ran := Claim(key, request, turns.0);
      if reply.Refused? { return Raises, ran; }
      if reply.Replay? {
        var status := reply.receipt.status;
        if status == Accepted { return IsAccepted, ran; }
        if status == Rejected { return Raises, ran; }
        if status == NeedsReview { return IsReviewed, ran; }
        if isLate {
          answer, ran := MoveAndAnswer(key, request, NeedsReview, IsReviewed, start, ran);
          return;
        }
        if status == Pending { return IsPending, ran; }
      }
      RunAppend(start, ran, turns.1);
      RunOthers(turns.1);
      ran := ran + turns.1;
      match performed
      case AsksReview => answer, ran := MoveAndAnswer(key, request, NeedsReview, IsReviewed, start, ran);
      case Conflicts => answer, ran := MoveAndAnswer(key, request, Rejected, Raises, start, ran);
      case Fails => answer, ran := MoveAndAnswer(key, request, Unknown, IsPending, start, ran);
      case Succeeded(proposed) =>
        ghost var before := ran;
        var ok, more := Finish(key, request, proposed, turns.2);
        RunAppend(start, before, more);
        ran := before + more;
        answer := if ok then IsAccepted else Raises;
    }

    /** A status change as the last step of a command. */
    method MoveAndAnswer(key: ReceiptKey, request: Request, target: Status, answerIfMoved: Answer, ghost start: Table, ghost before: seq<Op>)
      returns (answer: Answer, ghost ran: seq<Op>)
      requires Valid() && (target == Unknown || target == NeedsReview || target == Rejected)
      requires Contents() == Run(start, before)
      modifies this
      ensures Valid() && Contents() == Run(start, ran)
      ensures ran == before + [Transition(key, request, target)]
      ensures answer == MoveAnswer(Run(start, before), key, request, target, answerIfMoved)
      ensures answer == Raises || (answer == answerIfMoved && key in receipts && receipts[key] == Receipt(request, target))
    {
      hide Inv;
      hide Apply;
      hide Run;
      ghost var op := Transition(key, request, target);
      ran := before + [op];
      RunAppend(start, before, [op]);
      RunOne(Contents(), op);
      var ok := MoveTo(key, request, target);
      answer := if ok then answerIfMoved else Raises;
    }
  }
}
