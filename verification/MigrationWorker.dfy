/**
 The migration worker: one execution message and one cancellation message, from the reads of the
 work index to the reply. What the provider answers for an item is given; what the worker makes of
 it goes through the store.
 */
module MigrationWorker {
  import opened Types
  import opened MigrationRecords
  import opened MigrationProtocol
  import opened MigrationInvariant
  import opened MigrationSteps
  import opened MigrationCounters
  import opened MigrationCancellation
  import opened MigrationLoads
  import opened MigrationStuck
  import opened WorkIndex
  import opened MigrationStore

  /** How the provider call for a claimed item ends. */
  datatype Applied =
    | Succeeds(state: ItemState, scheduleId: Option<string>, rollbackGuard: Option<string>)
    | AsksReview(reason: Reason, scheduleId: Option<string>, rollbackGuard: Option<string>)
    | Fails(retryable: bool, jitter: nat, scheduleId: Option<string>, rollbackGuard: Option<string>)

  predicate GoodAnswer(a: Applied) { a.Succeeds? ==> a.state == ItemState.Applied || IsAwaitingProvider(a.state) }

  /** How the provider call for an item to cancel ends: with a pending update still open, with an end
      to record, with a request for review, or with an error. */
  datatype Undone =
    | StillOpen
    | Ends(state: ItemState, reason: Option<Reason>)
    | Refuses(why: Reason)
    | CannotUndo(retryable: bool, jitter: nat)

  predicate GoodUndo(u: Undone) {
    u.Ends? ==> (u.state == Reverted && u.reason.None?) || (u.state == NeedsReview && u.reason.Some?)
  }

  datatype Reply = Nothing | Again(seconds: int) | Raised

  function Pow2(n: int): (r: nat)
    ensures 1 <= r
  {
    if n <= 0 then 1 else 2 * Pow2(n - 1)
  }

  /** Exponential backoff with jitter, at most fifteen minutes. */
  function Backoff(attempts: int, jitter: nat): (seconds: int)
    ensures 1 <= seconds <= 900
  {
    if Pow2(attempts) + jitter < 900 then Pow2(attempts) + jitter else 900
  }

  /** What the worker asks the store for after a provider answer. */
  function CallerFor(attempts: int, a: Applied, at: int): Caller {
    match a
    case Succeeds(state, scheduleId, rollbackGuard) => CompleteItem(attempts, state, None, scheduleId, rollbackGuard)
    case AsksReview(reason, scheduleId, rollbackGuard) =>
      CompleteItem(attempts, NeedsReview, Some(reason), scheduleId, rollbackGuard)
    case Fails(retryable, jitter, scheduleId, rollbackGuard) =>
      if retryable then
        RetryItem(attempts, Some(if attempts >= MAX_ATTEMPTS then "retry-exhausted" else "provider-unknown"),
                  if attempts < MAX_ATTEMPTS then Some(at + Backoff(attempts, jitter)) else None, scheduleId)
      else CompleteItem(attempts, NeedsReview, Some("provider-unknown"), scheduleId, rollbackGuard)
  }

  /** What it asks for instead when a success could not be recorded. */
  function ReviewFor(attempts: int, a: Applied): Caller {
    CompleteItem(attempts, NeedsReview, Some("provider-unknown"), a.scheduleId, a.rollbackGuard)
  }

  lemma CallersAreReady(k: ItemKey, attempts: int, a: Applied, at: int)
    requires 1 <= attempts <= MAX_ATTEMPTS && GoodAnswer(a)
    ensures FinishValueOf(CallerFor(attempts, a, at)).Some? && FinishValueOf(ReviewFor(attempts, a)).Some?
    ensures CallerReadsAreValid(CallerFor(attempts, a, at)) && CallerReadsAreValid(ReviewFor(attempts, a))
    ensures forall s :: CallerCopies(s, k, CallerFor(attempts, a, at)) && CallerCopies(s, k, ReviewFor(attempts, a))
  {
  }

  // ---------------------------------------------------------------- turns of the others

  /** The turns of a call that makes several calls of the store, and of one that makes several such. */
  ghost predicate OfferedIn(steps: seq<Step>, turn: nat -> nat -> seq<Op>) {
    forall x | x in steps && x.Other? :: exists n: nat :: Offers(turn(n), x.op)
  }

  ghost predicate OfferedAmong(steps: seq<Step>, turn: nat -> nat -> nat -> seq<Op>) {
    forall x | x in steps && x.Other? :: exists n: nat, m: nat :: Offers(turn(n)(m), x.op)
  }

  ghost predicate QuietIn(turn: nat -> nat -> seq<Op>) { forall n: nat :: Quiet(turn(n)) }

  ghost predicate QuietAmong(turn: nat -> nat -> nat -> seq<Op>) { forall n: nat :: QuietIn(turn(n)) }

  lemma CallIsOffered(steps: seq<Step>, turn: nat -> nat -> seq<Op>, n: nat)
    requires Offered(steps, turn(n))
    ensures OfferedIn(steps, turn)
  {
  }

  lemma CallsAreOffered(steps: seq<Step>, turn: nat -> nat -> nat -> seq<Op>, n: nat)
    requires OfferedIn(steps, turn(n))
    ensures OfferedAmong(steps, turn)
  {
    forall x | x in steps && x.Other? ensures exists i: nat, m: nat :: Offers(turn(i)(m), x.op) {
      var m: nat :| Offers(turn(n)(m), x.op);
    }
  }

  lemma LaterCallsAreOffered(steps: seq<Step>, turn: nat -> nat -> nat -> seq<Op>, later: nat -> nat -> nat -> seq<Op>)
    requires forall n: nat :: later(n) == turn(n + 1)
    ensures OfferedAmong(steps, later) ==> OfferedAmong(steps, turn)
    ensures QuietAmong(turn) ==> QuietAmong(later)
  {
    if OfferedAmong(steps, later) {
      forall x | x in steps && x.Other? ensures exists i: nat, m: nat :: Offers(turn(i)(m), x.op) {
        var n: nat, m: nat :| Offers(later(n)(m), x.op);
        assert Offers(turn(n + 1)(m), x.op);
      }
    }
    if QuietAmong(turn) {
      forall n: nat ensures QuietIn(later(n)) { assert QuietIn(turn(n + 1)); }
    }
  }

  lemma OfferedInAppend(a: seq<Step>, b: seq<Step>, turn: nat -> nat -> seq<Op>)
    requires OfferedIn(a, turn) && OfferedIn(b, turn)
    ensures OfferedIn(a + b, turn)
  {
  }

  lemma OfferedAmongAppend(a: seq<Step>, b: seq<Step>, turn: nat -> nat -> nat -> seq<Op>)
    requires OfferedAmong(a, turn) && OfferedAmong(b, turn)
    ensures OfferedAmong(a + b, turn)
  {
  }

  lemma NoCallsOffered(turn: nat -> nat -> nat -> seq<Op>)
    ensures OfferedAmong([], turn)
  {
  }

  // ---------------------------------------------------------------- one item

  /** What recording one answer does when nobody else runs. */
  predicate ApplySucceeds(s: System, k: ItemKey, attempts: int, a: Applied, at: int) {
    FinishSucceeds(s, k, CallerFor(attempts, a, at)) || (a.Succeeds? && FinishSucceeds(s, k, ReviewFor(attempts, a)))
  }

  function AppliedBy(s: System, k: ItemKey, attempts: int, a: Applied, at: int): System {
    if FinishSucceeds(s, k, CallerFor(attempts, a, at)) || !a.Succeeds? then FinishedBy(s, k, CallerFor(attempts, a, at))
    else FinishedBy(s, k, ReviewFor(attempts, a))
  }

  /** The same for a list of items, up to the first that is refused. */
  function AppliedAll(s: System, selected: seq<(ItemKey, Item)>, answers: map<ItemKey, Applied>, at: int): (System, bool)
    decreases |selected|
  {
    if selected == [] then (s, true)
    else
      var (k, item) := selected[0];
      if k !in answers then (s, false)
      else
        var t := AppliedBy(s, k, item.attempts, answers[k], at);
        if ApplySucceeds(s, k, item.attempts, answers[k], at) then AppliedAll(t, selected[1..], answers, at) else (t, false)
  }

  /** The seconds to wait after a failed attempt: two to its power plus jitter, at most fifteen minutes. */
  function DelayAfter(attempts: int, jitter: nat): int
    requires 1 <= attempts <= MAX_ATTEMPTS
  {
    var wait := [2, 4, 8, 16, 32][attempts - 1] + jitter;
    if wait < 900 then wait else 900
  }

  lemma BackoffIsDelay(attempts: int, jitter: nat)
    requires 1 <= attempts <= MAX_ATTEMPTS
    ensures Backoff(attempts, jitter) == DelayAfter(attempts, jitter)
  {
    assert Pow2(1) == 2 && Pow2(2) == 4 && Pow2(3) == 8;
    assert Pow2(4) == 2 * Pow2(3) && Pow2(5) == 2 * Pow2(4);
  }

  /** What a recorded answer leaves of the item row. `recorded` says whether the success itself could be
      stored. A failed attempt that may be repeated waits for its retry until the attempts are used up. */
  predicate AnswerLeaves(was: Item, now: Item, attempts: int, a: Applied, at: int, recorded: bool)
    requires 1 <= attempts <= MAX_ATTEMPTS
  {
    var ended := was.(holder := None, nextAttemptAt := None, scheduleId := a.scheduleId);
    match a
    case Succeeds(state, _, guard) =>
      if recorded then now == ended.(state := state, reason := None, rollbackGuard := guard)
      else now == ended.(state := NeedsReview, reason := Some("provider-unknown"), rollbackGuard := guard)
    case AsksReview(why, _, guard) => now == ended.(state := NeedsReview, reason := Some(why), rollbackGuard := guard)
    case Fails(false, _, _, guard) => now == ended.(state := NeedsReview, reason := Some("provider-unknown"), rollbackGuard := guard)
    case Fails(true, jitter, _, _) =>
      if attempts == MAX_ATTEMPTS then now == ended.(state := NeedsReview, reason := Some("retry-exhausted"))
      else now == ended.(state := RetryableFailure, reason := Some("provider-unknown"),
                         nextAttemptAt := Some(at + DelayAfter(attempts, jitter)))
  }

  lemma AnswerValueLeaves(was: Item, attempts: int, a: Applied, at: int)
    requires 1 <= attempts <= MAX_ATTEMPTS && GoodAnswer(a)
    ensures FinishValueOf(CallerFor(attempts, a, at)).Some? && FinishValueOf(ReviewFor(attempts, a)).Some?
    ensures AnswerLeaves(was, FinishedItem(was, FinishValueOf(CallerFor(attempts, a, at)).value), attempts, a, at, true)
    ensures a.Succeeds? ==> AnswerLeaves(was, FinishedItem(was, FinishValueOf(ReviewFor(attempts, a)).value), attempts, a, at, false)
  {
    hide Backoff;
    hide DelayAfter;
    if a.Fails? { BackoffIsDelay(attempts, a.jitter); }
  }

  /** The success as the worker first asks for it. */
  function SuccessOf(attempts: int, a: Applied): Caller
    requires a.Succeeds?
  {
    CompleteItem(attempts, a.state, None, a.scheduleId, a.rollbackGuard)
  }

  lemma AnswerOutcome(s: System, k: ItemKey, attempts: int, a: Applied, at: int)
    requires Inv(s) && 1 <= attempts <= MAX_ATTEMPTS && GoodAnswer(a)
    ensures var t := AppliedBy(s, k, attempts, a, at);
            if ApplySucceeds(s, k, attempts, a, at) then
              && k in s.items && k in t.items
              && AnswerLeaves(s.items[k], t.items[k], attempts, a, at, a.Succeeds? && FinishSucceeds(s, k, SuccessOf(attempts, a)))
            else t == s
  {
    hide Inv;
    hide FinishValueOf;
    hide FinishedItem;
    hide FinishSucceeds;
    hide FinishedBy;
    hide Commits;
    hide AnswerLeaves;
    hide CallerCopies;
    hide CallerReadsAreValid;
    var first, second := CallerFor(attempts, a, at), ReviewFor(attempts, a);
    if a.Succeeds? { assert first == SuccessOf(attempts, a); }
    hide CallerFor;
    hide ReviewFor;
    hide SuccessOf;
    CallersAreReady(k, attempts, a, at);
    if FinishSucceeds(s, k, first) {
      SuccessHasItem(s, k, first);
      DoneFinishCommits(s, k, first);
      AnswerValueLeaves(s.items[k], attempts, a, at);
      RecordedOnlyMatters(s.items[k], FinishedItem(s.items[k], FinishValueOf(first).value), attempts, a, at);
    } else if a.Succeeds? && FinishSucceeds(s, k, second) {
      SuccessHasItem(s, k, second);
      DoneFinishCommits(s, k, second);
      AnswerValueLeaves(s.items[k], attempts, a, at);
    } else {
      RefusedFinishIsNothing(s, k, first);
      if a.Succeeds? { RefusedFinishIsNothing(s, k, second); }
    }
  }

  lemma SuccessHasItem(s: System, k: ItemKey, c: Caller)
    requires FinishSucceeds(s, k, c)
    ensures k in s.items
  {
    hide Commits;
  }

  lemma RecordedOnlyMatters(was: Item, now: Item, attempts: int, a: Applied, at: int)
    requires 1 <= attempts <= MAX_ATTEMPTS && AnswerLeaves(was, now, attempts, a, at, true)
    ensures !a.Succeeds? ==> AnswerLeaves(was, now, attempts, a, at, false)
  {
  }

  /** A finish of a claimed item by the worker that claimed it. */
  predicate IsFinishOf(op: Op, k: ItemKey, item: Item, a: Applied, at: int) {
    && op.FinishItem? && op.k == k
    && (op.caller == CallerFor(item.attempts, a, at) || (a.Succeeds? && op.caller == ReviewFor(item.attempts, a)))
  }

  /** Records the provider's answer for one item. A success that the store refuses to record is tried
      again as needing review; at most one of the two commits. */
  method ApplyItem(store: Store, k: ItemKey, item: Item, a: Applied, at: int, turn: nat -> nat -> seq<Op>)
    returns (r: Outcome, ghost steps: seq<Step>)
    requires store.Valid() && 1 <= item.attempts <= MAX_ATTEMPTS && GoodAnswer(a)
    modifies store
    ensures store.Valid() && store.Contents() == Run(old(store.Contents()), Ops(steps)) && Later(old(store.Contents()), store.Contents())
    ensures OfferedIn(steps, turn)
    ensures var mine := Committed(old(store.Contents()), steps);
            |mine| <= 1 && forall op | op in mine :: IsFinishOf(op, k, item, a, at)
    ensures QuietIn(turn) ==>
              && (r == Done <==> ApplySucceeds(old(store.Contents()), k, item.attempts, a, at))
              && store.Contents() == AppliedBy(old(store.Contents()), k, item.attempts, a, at)
    ensures QuietIn(turn) ==>
              if r == Done then
                && k in old(store.items) && k in store.items
                && AnswerLeaves(old(store.items)[k], store.items[k], item.attempts, a, at,
                                a.Succeeds? && FinishSucceeds(old(store.Contents()), k, SuccessOf(item.attempts, a)))
              else store.Contents() == old(store.Contents())
  {
    hide Inv;
    hide Commits;
    hide Apply;
    hide Run;
    hide Committed;
    hide FinishValueOf;
    hide CallerCopies;
    hide CallerReadsAreValid;
    hide CallerFor;
    hide Offered;
    hide OfferedIn;
    hide Quiet;
    hide FinishedBy;
    hide FinishSucceeds;
    hide AnswerLeaves;
    hide SuccessOf;
    ghost var start := store.Contents();
    AnswerOutcome(start, k, item.attempts, a, at);
    CallersAreReady(k, item.attempts, a, at);
    r, steps := store.Finish(k, CallerFor(item.attempts, a, at), turn(0));
    CallIsOffered(steps, turn, 0);
    if r == Conflict && a.Succeeds? {
      ghost var middle, first := store.Contents(), steps;
      if QuietIn(turn) { RefusedFinishIsNothing(start, k, CallerFor(item.attempts, a, at)); }
      var again, more := store.Finish(k, ReviewFor(item.attempts, a), turn(1));
      CallIsOffered(more, turn, 1);
      OfferedInAppend(first, more, turn);
      StepsAppend(start, first, more);
      LaterIsTransitive(start, middle, store.Contents());
      assert Committed(start, first) == [];
      assert [] + Committed(middle, more) == Committed(middle, more);
      r, steps := again, first + more;
    }
  }

  /** What one execution message commits: claims of its batch, at most one finish per claimed item and
      with the attempt number of that claim, and at most one transition of the job. */
  predicate IsWorkOf(op: Op, j: JobId, b: Batch, page: seq<(ItemKey, Item)>, selected: seq<(ItemKey, Item)>,
                     answers: map<ItemKey, Applied>, at: int)
  {
    || IsClaimOf(op, j, b, page)
    || (op.FinishItem? && exists i :: 0 <= i < |selected| && selected[i].0 in answers
                                      && IsFinishOf(op, selected[i].0, selected[i].1, answers[selected[i].0], at))
    || (op.ContinueExecution? && op.j == j)
  }

  /** No item is finished twice. */
  predicate FinishesOnce(ops: seq<Op>) {
    forall a, b | 0 <= a < b < |ops| && ops[a].FinishItem? && ops[b].FinishItem? :: ops[a].k != ops[b].k
  }

  predicate NoFinishOf(ops: seq<Op>, k: ItemKey) { forall op | op in ops && op.FinishItem? :: op.k != k }

  lemma OneMoreFinish(a: seq<Op>, b: seq<Op>, k: ItemKey)
    requires FinishesOnce(a) && NoFinishOf(a, k) && |b| <= 1 && forall op | op in b && op.FinishItem? :: op.k == k
    ensures FinishesOnce(a + b)
  {
    if b != [] { assert b[0] in b; }
    forall x, y | 0 <= x < y < |a + b| && (a + b)[x].FinishItem? && (a + b)[y].FinishItem?
      ensures (a + b)[x].k != (a + b)[y].k
    {
      if y == |a| { assert a[x] in a; }
    }
  }

  lemma NothingIsFinished(a: seq<Op>)
    requires forall op | op in a :: !op.FinishItem?
    ensures FinishesOnce(a)
  {
    forall x | 0 <= x < |a| ensures !a[x].FinishItem? { assert a[x] in a; }
  }

  lemma OthersDoNotFinish(a: seq<Op>, b: seq<Op>)
    requires FinishesOnce(a) && FinishesOnce(b)
    requires (forall op | op in a :: !op.FinishItem?) || (forall op | op in b :: !op.FinishItem?)
    ensures FinishesOnce(a + b)
  {
    forall x, y | 0 <= x < y < |a + b| && (a + b)[x].FinishItem? && (a + b)[y].FinishItem?
      ensures (a + b)[x].k != (a + b)[y].k
    {
      assert (a + b)[x] == if x < |a| then a[x] else b[x - |a|];
      assert (a + b)[y] == if y < |a| then a[y] else b[y - |a|];
    }
  }

  /** Every operation records the answer of one selected item. */
  predicate AreFinishesOf(ops: seq<Op>, selected: seq<(ItemKey, Item)>, answers: map<ItemKey, Applied>, at: int) {
    forall op | op in ops ::
      exists i :: 0 <= i < |selected| && selected[i].0 in answers
                  && IsFinishOf(op, selected[i].0, selected[i].1, answers[selected[i].0], at)
  }

  lemma NoFinishes(selected: seq<(ItemKey, Item)>, answers: map<ItemKey, Applied>, at: int)
    ensures FinishesOnce([]) && AreFinishesOf([], selected, answers, at)
  {
  }

  /** The provider's answers for the claimed items; `answers` covers every item of the page. */
  method ApplyAll(store: Store, selected: seq<(ItemKey, Item)>, answers: map<ItemKey, Applied>, at: int,
                  turn: nat -> nat -> nat -> seq<Op>)
    returns (ok: bool, ghost steps: seq<Step>)
    requires store.Valid()
    requires forall x | x in selected :: 1 <= x.1.attempts <= MAX_ATTEMPTS && x.0 in answers && GoodAnswer(answers[x.0])
    requires forall a, c | 0 <= a < c < |selected| :: selected[a].0 != selected[c].0
    modifies store
    ensures store.Valid() && store.Contents() == Run(old(store.Contents()), Ops(steps)) && Later(old(store.Contents()), store.Contents())
    ensures OfferedAmong(steps, turn)
    ensures QuietAmong(turn) ==> (store.Contents(), ok) == AppliedAll(old(store.Contents()), selected, answers, at)
    ensures var mine := Committed(old(store.Contents()), steps);
            FinishesOnce(mine) && AreFinishesOf(mine, selected, answers, at)
  {
    hide Inv;
    hide Commits;
    hide Apply;
    hide Run;
    hide Committed;
    hide CallerFor;
    hide GoodAnswer;
    hide OfferedIn;
    hide OfferedAmong;
    hide QuietIn;
    hide AppliedBy;
    hide ApplySucceeds;
    ghost var start := store.Contents();
    NoSteps(start);
    NothingIsLater(start);
    ok, steps := true, [];
    NoCallsOffered(turn);
    assert selected[0..] == selected;
    for i := 0 to |selected|
      invariant store.Valid() && store.Contents() == Run(start, Ops(steps)) && Later(start, store.Contents())
      invariant OfferedAmong(steps, turn)
      invariant QuietAmong(turn) ==>
                  AppliedAll(start, selected, answers, at) == AppliedAll(store.Contents(), selected[i..], answers, at)
      invariant FinishesOnce(Committed(start, steps))
      invariant forall op | op in Committed(start, steps) ::
                  exists x :: 0 <= x < i && IsFinishOf(op, selected[x].0, selected[x].1, answers[selected[x].0], at)
    {
      var (k, item) := selected[i];
      assert selected[i] in selected && selected[i..][0] == selected[i] && selected[i..][1..] == selected[i + 1..];
      ghost var middle := store.Contents();
      var r, more := ApplyItem(store, k, item, answers[k], at, turn(i));
      StepsAppend(start, steps, more);
      LaterIsTransitive(start, middle, store.Contents());
      CallsAreOffered(more, turn, i);
      OfferedAmongAppend(steps, more, turn);
      ghost var before, own := Committed(start, steps), Committed(middle, more);
      assert NoFinishOf(before, k);
      OneMoreFinish(before, own, k);
      steps := steps + more;
      if r == Conflict {
        ok := false;
        return;
      }
    }
  }

  function ReplyOf(c: Continuation): Reply {
    match c
    case Stop => Nothing
    case Refused => Raised
    case LookAgain(_, seconds) => Again(seconds)
  }

  /** Claims, then finishes, then at most one look at the job make up the work of a message. */
  lemma PartsAreWork(claims: seq<Op>, finishes: seq<Op>, looks: seq<Op>, j: JobId, b: Batch, page: seq<(ItemKey, Item)>,
                     selected: seq<(ItemKey, Item)>, answers: map<ItemKey, Applied>, at: int)
    requires forall op | op in claims :: IsClaimOf(op, j, b, page) && !op.FinishItem?
    requires FinishesOnce(finishes) && AreFinishesOf(finishes, selected, answers, at)
    requires forall op | op in looks :: op.ContinueExecution? && op.j == j
    ensures FinishesOnce(claims + finishes + looks)
    ensures forall op | op in claims + finishes + looks :: IsWorkOf(op, j, b, page, selected, answers, at)
  {
    hide IsClaimOf;
    NothingIsFinished(claims);
    OthersDoNotFinish(claims, finishes);
    NothingIsFinished(looks);
    OthersDoNotFinish(claims + finishes, looks);
    assert forall op | op in finishes :: op.FinishItem?;
  }

  /** Claims a batch from one page of the index. */
  method ClaimBatch(store: Store, j: JobId, b: Batch, page: seq<(ItemKey, Item)>, answers: map<ItemKey, Applied>,
                    turn: nat -> nat -> nat -> seq<Op>)
    returns (r: Outcome, selected: seq<(ItemKey, Item)>, ghost steps: seq<Step>)
    requires store.Valid() && (j, b.worker) in store.jobCopies && 1 <= LimitOf(b) && DistinctItems(page)
    requires forall x | x in page :: x in store.itemCopies && x.0.job == j && x.0 in answers && GoodAnswer(answers[x.0]) && ValidItem(x.1)
    requires 1 <= b.now <= store.now && 30 <= b.leaseSeconds <= 900 && IsEpoch(b.now + b.leaseSeconds)
    modifies store
    ensures store.Valid() && store.Contents() == Run(old(store.Contents()), Ops(steps)) && Later(old(store.Contents()), store.Contents())
    ensures OfferedAmong(steps, turn)
    ensures forall op | op in Committed(old(store.Contents()), steps) :: IsClaimOf(op, j, b, page) && !op.FinishItem?
    ensures QuietAmong(turn) ==> (store.Contents(), selected, r == Done) == ClaimedPage(old(store.Contents()), j, b, page, LimitOf(b))
    ensures |selected| <= LimitOf(b)
    ensures forall a, c | 0 <= a < c < |selected| :: selected[a].0 != selected[c].0
    ensures forall x | x in selected :: 1 <= x.1.attempts <= MAX_ATTEMPTS && x.0 in answers && GoodAnswer(answers[x.0])
  {
    hide Inv;
    hide Commits;
    hide Apply;
    hide Run;
    hide Committed;
    hide GoodAnswer;
    hide Offered;
    hide OfferedIn;
    hide OfferedAmong;
    hide ClaimedPage;
    hide ValidItem;
    ghost var start := store.Contents();
    r, selected, steps := store.ClaimItems(j, b, page, turn(0)(0));
    CallIsOffered(steps, turn(0), 0);
    CallsAreOffered(steps, turn, 0);
    CommittedAreMine(start, steps);
    forall op | op in Committed(start, steps) ensures IsClaimOf(op, j, b, page) && !op.FinishItem? {
      assert Mine(op) in steps && Mine(op).Mine?;
    }
    forall x | x in selected ensures x.0 in answers && GoodAnswer(answers[x.0]) {
      var c :| 0 <= c < |page| && page[c].0 == x.0;
      assert page[c] in page;
    }
  }

  /** A whole execution message when nobody else runs. */
  function ExecutedAlone(s: System, j: JobId, b: Batch, loads: bool, page: seq<(ItemKey, Item)>, answers: map<ItemKey, Applied>,
                         found: WorkReads): (System, Reply)
  {
    if !loads then (s, Raised) else
    var (claimed, selected, ok) := ClaimedPage(s, j, b, page, LimitOf(b));
    if !ok then (claimed, Raised) else
    var (applied, done) := AppliedAll(claimed, selected, answers, b.now);
    if !done then (applied, Raised)
    else (ContinuedBy(applied, j, found), ReplyOf(ContinueReply(applied, j, b.now, found)))
  }

  /** The canaries are claimed in one batch; afterwards a batch is as large as the account's slots. */
  lemma BatchLimit(b: Batch)
    ensures LimitOf(b) == if b.worker.mutationStarted then b.worker.accountConcurrency else b.worker.canarySize
  {
  }

  /** One execution message for a running job: claim a batch, record the provider's answers, and look
      at the job again. It raises when the store does. */
  method Execute(store: Store, j: JobId, b: Batch, applying: seq<(ItemKey, Item)>, retries: seq<(ItemKey, Item)>,
                 pending: seq<(ItemKey, Item)>, answers: map<ItemKey, Applied>, found: WorkReads, turn: nat -> nat -> nat -> seq<Op>)
    returns (reply: Reply, ghost steps: seq<Step>, ghost page: seq<(ItemKey, Item)>, ghost selected: seq<(ItemKey, Item)>)
    requires store.Valid() && (j, b.worker) in store.jobCopies && 1 <= LimitOf(b)
    requires forall x | x in applying || x in retries || x in pending :: x in store.itemCopies && x.0.job == j
    requires forall x | x in applying || x in retries || x in pending :: x.0 in answers && GoodAnswer(answers[x.0])
    requires 1 <= b.now <= store.now && 30 <= b.leaseSeconds <= 900 && IsEpoch(b.now + b.leaseSeconds)
    modifies store
    ensures store.Valid() && store.Contents() == Run(old(store.Contents()), Ops(steps))
    ensures var mine := Committed(old(store.Contents()), steps);
            FinishesOnce(mine) && forall op | op in mine :: IsWorkOf(op, j, b, page, selected, answers, b.now)
    ensures reply.Again? ==> 0 <= reply.seconds <= 900
    ensures OfferedAmong(steps, turn)
    ensures var rows := applying + retries + pending;
            var limit := if b.worker.mutationStarted then b.worker.accountConcurrency else b.worker.canarySize;
            && |selected| <= limit
            && (QueriesLoad(applying, retries, pending, b.now, limit) ==>
                  && (AreFresh(rows, b.now) ==> page == rows[..if |rows| < limit then |rows| else limit])
                  && (|rows| <= limit ==> KeepsClaimable(rows, b.now, page)))
    ensures QuietAmong(turn) ==>
              var loads := QueriesLoad(applying, retries, pending, b.now, LimitOf(b));
              (store.Contents(), reply) == ExecutedAlone(old(store.Contents()), j, b, loads, page, answers, found)
  {
    hide Inv;
    hide Commits;
    hide Apply;
    hide Run;
    hide Committed;
    hide ClaimedRows;
    hide CallerFor;
    hide ReviewFor;
    hide GoodAnswer;
    hide Offered;
    hide OfferedIn;
    hide OfferedAmong;
    hide Quiet;
    hide ClaimedPage;
    hide AppliedAll;
    hide ContinueReply;
    hide ContinuedBy;
    hide AreFresh;
    hide KeepsClaimable;
    hide IsClaimOf;
    hide IsWorkOf;
    hide IsFinishOf;
    hide FinishesOnce;
    hide AreFinishesOf;
    hide LimitOf;
    hide IsEpoch;
    hide Later;
    hide ValidItem;
    hide QueriesLoad;
    hide ValidJob;
    hide JobRead;
    ghost var start := store.Contents();
    BatchLimit(b);
    var queried, rows := store.QueryClaimable(applying, retries, pending, b.now, LimitOf(b));
    page, selected, steps := rows, [], [];
    NoSteps(start);
    NoFinishes([], answers, b.now);
    NoCallsOffered(turn);
    if queried == Conflict { return Raised, steps, page, selected; }
    var outcome, claimed, first := ClaimBatch(store, j, b, rows, answers, turn);
    selected, steps := claimed, first;
    ghost var second := store.Contents();
    if outcome == Conflict {
      NoFinishes(selected, answers, b.now);
      ghost var made := Committed(start, first);
      PartsAreWork(made, [], [], j, b, page, selected, answers, b.now);
      assert made + [] + [] == made;
      return Raised, steps, page, selected;
    }
    var later := (n: nat) => turn(n + 1);
    var ok, more := ApplyAll(store, claimed, answers, b.now, later);
    LaterCallsAreOffered(more, turn, later);
    OfferedAmongAppend(first, more, turn);
    StepsAppend(start, first, more);
    steps := first + more;
    ghost var claims, finishes := Committed(start, first), Committed(second, more);
    if !ok {
      PartsAreWork(claims, finishes, [], j, b, page, selected, answers, b.now);
      assert claims + finishes + [] == claims + finishes;
      return Raised, steps, page, selected;
    }
    ghost var third := store.Contents();
    var r, last := store.ContinueExecution(j, b.now, found, turn(0)(1));
    CallIsOffered(last, turn(0), 1);
    CallsAreOffered(last, turn, 0);
    OfferedAmongAppend(steps, last, turn);
    StepsAppend(start, steps, last);
    PartsAreWork(claims, finishes, Committed(third, last), j, b, page, selected, answers, b.now);
    steps := steps + last;
    reply := ReplyOf(r);
  }

  lemma {:induction false} CommittedAreMine(s: System, steps: seq<Step>)
    ensures forall op | op in Committed(s, steps) :: Mine(op) in steps
    decreases |steps|
  {
    hide Apply;
    hide Commits;
    if steps == [] {
    } else {
      CommittedAreMine(Apply(s, steps[0].op), steps[1..]);
    }
  }

  /** When a success the provider applied is recorded: exactly when the job row the worker read is still
      the current one, the item was not re-claimed while it waited for a retry, and the job's canaries
      have completed no more often than they were claimed. Any change of a job counter since the read
      refuses it. The review the worker asks for next, from the current rows, commits exactly under the
      last two conditions. */
  lemma SuccessIsRecordedExactly(ops: seq<Op>, k: ItemKey, readJob: Job, a: Applied, at: int)
    requires var s := Run(EMPTY, ops);
             && k in s.items && s.items[k].state == Applying && s.items[k].holder.Some? && s.now < s.items[k].holder.value.expiresAt
             && k.job in s.jobs && s.jobs[k.job].state == Running && (k.job, readJob) in s.jobCopies
    requires a.Succeeds? && GoodAnswer(a) && (a.rollbackGuard.Some? ==> a.scheduleId.Some?)
    requires a.state == ItemState.Applied && a.scheduleId.Some? ==> a.rollbackGuard.Some?
    ensures var s := Run(EMPTY, ops); var item := s.items[k]; var job := s.jobs[k.job];
            && (Commits(s, FinishItem(k, readJob, item, CallerFor(item.attempts, a, at))) <==>
                  readJob == job && item.reason.None? && job.canaryCompleted <= job.canaryClaims)
            && (Commits(s, FinishItem(k, job, item, ReviewFor(item.attempts, a))) <==>
                  item.reason.None? && job.canaryCompleted <= job.canaryClaims)
  {
    hide Run;
    hide Inv;
    hide FinishedItem;
    hide ValidItem;
    hide ValidJob;
    hide ItemOk;
    hide JobWriteOf;
    hide Commits;
    hide FinishValueOf;
    hide CallerFor;
    hide ReviewFor;
    var s := Run(EMPTY, ops);
    var item := s.items[k];
    EmptyInv();
    RunKeepsInv(EMPTY, ops);
    var success, review := CallerFor(item.attempts, a, at), ReviewFor(item.attempts, a);
    CurrentCopies(s, k);
    RunKeepsDueTimes(EMPTY, ops);
    assert item.cancellationNextAttemptAt.None?;
    LiveJobsLoadExactly(ops, k.job);
    RefusedItemHasReason(item);
    SuccessIsStorable(item, a, at);
    ReviewIsStorable(item, a);
    CallersComplete(item.attempts, a, at);
    CurrentFinishCommitsExactly(s, k, success);
    CurrentFinishCommitsExactly(s, k, review);
    if Commits(s, FinishItem(k, readJob, item, success)) {
      SuccessWritesTheJob(item, readJob, k, a, at);
      JobWritesAreAtomic(ops, FinishItem(k, readJob, item, success));
    }
  }

  lemma CallersComplete(attempts: int, a: Applied, at: int)
    requires a.Succeeds?
    ensures CallerFor(attempts, a, at).CompleteItem? && ReviewFor(attempts, a).CompleteItem?
  {
  }

  lemma CurrentCopies(s: System, k: ItemKey)
    requires Inv(s) && k in s.items && k.job in s.jobs
    ensures (k, s.items[k]) in s.itemCopies && (k.job, s.jobs[k.job]) in s.jobCopies && ItemOk(s.items[k])
  {
    InvIsRecorded(s);
    ItemCopyFacts(s, k, s.items[k]);
  }

  lemma SuccessWritesTheJob(item: Item, readJob: Job, k: ItemKey, a: Applied, at: int)
    requires item.state == Applying && ItemOk(item) && a.Succeeds? && GoodAnswer(a)
    ensures JobWriteOf(FinishItem(k, readJob, item, CallerFor(item.attempts, a, at))) == Some((k.job, readJob))
  {
  }

  lemma SuccessIsStorable(item: Item, a: Applied, at: int)
    requires item.state == Applying && ItemOk(item) && item.cancellationNextAttemptAt.None?
    requires a.Succeeds? && GoodAnswer(a) && (a.rollbackGuard.Some? ==> a.scheduleId.Some?)
    requires a.state == ItemState.Applied && a.scheduleId.Some? ==> a.rollbackGuard.Some?
    ensures var v := FinishValueOf(CallerFor(item.attempts, a, at));
            v.Some? && v.value.attempts == item.attempts && ValidItem(FinishedItem(item, v.value))
  {
  }

  lemma ReviewIsStorable(item: Item, a: Applied)
    requires item.state == Applying && ItemOk(item) && item.cancellationNextAttemptAt.None?
    requires a.rollbackGuard.Some? ==> a.scheduleId.Some?
    ensures var v := FinishValueOf(ReviewFor(item.attempts, a));
            v.Some? && v.value.attempts == item.attempts && ValidItem(FinishedItem(item, v.value))
  {
  }

  // ---------------------------------------------------------------- cancellation

  /** An item the canceller leaves for later, and the time it waits for. */
  function DeferredUntil(i: Item, at: int): Option<int> {
    if i.cancellationNextAttemptAt.Some? && at < i.cancellationNextAttemptAt.value then i.cancellationNextAttemptAt
    else if i.state == Applying && i.holder.Some? && at < i.holder.value.expiresAt then Some(i.holder.value.expiresAt)
    else None
  }

  /** What is left of one item: whether the store refused it, and how long to wait before it has to be
      looked at again. */
  datatype Left = Left(refused: bool, wait: Option<int>)

  /** One item of a cancellation when nobody else runs. */
  function CanceledOne(s: System, worker: Job, k: ItemKey, item: Item, u: Undone, at: int): (System, Left) {
    if item.cancellationNextAttemptAt.Some? && at < item.cancellationNextAttemptAt.value then
      (s, Left(false, Some(item.cancellationNextAttemptAt.value - at)))
    else if item.state == Pending then Ended(s, worker, k, Skipped, None)
    else if item.state == Applying && item.holder.Some? && at < item.holder.value.expiresAt then
      (s, Left(false, Some(item.holder.value.expiresAt - at)))
    else
      match u
      case StillOpen => (s, Left(false, Some(60)))
      case Ends(state, reason) =>
        if EndSucceeds(s, k, worker, state, reason) then Ended(s, worker, k, state, reason)
        else Ended(s, worker, k, NeedsReview, Some("provider-unknown"))
      case Refuses(why) => Ended(s, worker, k, NeedsReview, Some(why))
      case CannotUndo(retryable, jitter) =>
        if retryable then Retried(s, k, item.cancellationAttempts + 1, Backoff(item.cancellationAttempts + 1, jitter), at)
        else Ended(s, worker, k, NeedsReview, Some("provider-unknown"))
  }

  function Ended(s: System, worker: Job, k: ItemKey, state: ItemState, reason: Option<Reason>): (System, Left) {
    (EndedBy(s, k, worker, state, reason), Left(!EndSucceeds(s, k, worker, state, reason), None))
  }

  function Retried(s: System, k: ItemKey, attempts: int, delay: int, at: int): (System, Left) {
    var next := if attempts < MAX_ATTEMPTS then Some(at + delay) else None;
    var again := RetrySucceeds(s, k, attempts, next) && !IsCancellationTerminal(s.items[k].state) && attempts < MAX_ATTEMPTS;
    (RetriedBy(s, k, attempts, next), Left(!RetrySucceeds(s, k, attempts, next), if again then Some(delay) else None))
  }

  /** A whole page, up to the first item that is refused: the table, whether one was refused, whether
      one has to be looked at again, and how soon. */
  function CanceledAll(s: System, worker: Job, page: seq<(ItemKey, Item)>, undone: map<ItemKey, Undone>, at: int,
                       pending: bool, delay: int): (System, bool, bool, int)
    decreases |page|
  {
    if page == [] then (s, false, pending, delay)
    else if page[0].0 !in undone then (s, true, pending, delay)
    else
      var (t, left) := CanceledOne(s, worker, page[0].0, page[0].1, undone[page[0].0], at);
      if left.refused then (t, true, pending, delay)
      else if left.wait.None? then CanceledAll(t, worker, page[1..], undone, at, pending, delay)
      else CanceledAll(t, worker, page[1..], undone, at, true, if left.wait.value < delay then left.wait.value else delay)
  }

  /** The end of a cancellation message when nobody else runs. */
  function FinalReply(s: System, j: JobId, found: Option<Item>): Reply {
    if JobRead(s, j).Unreadable? || (AsksForWork(s, j) && !Loads(found)) then Raised
    else if AsksForWork(s, j) && found.None? then Nothing
    else Again(2)
  }

  function FinalizedBy(s: System, j: JobId, found: Option<Item>): System {
    if AsksForWork(s, j) && found.None? then Apply(s, Op.FinalizeCancellation(j, s.jobs[j], false)) else s
  }

  /** The index query of a cancellation raises on a row that cannot be loaded. */
  predicate PageLoads(page: seq<(ItemKey, Item)>) { forall x | x in page :: ValidItem(x.1) }

  predicate RowEnds(s: System, t: System, k: ItemKey, state: ItemState, reason: Option<Reason>) {
    k in s.items && k in t.items && EndLeaves(s.items[k], t.items[k], state, reason)
  }

  /** What a cancellation of one item that was not refused leaves of its row, and when it has to be looked
      at again. An item that waits for its due time or is still leased is left alone; a pending one is
      skipped; every other one ends as the provider says, in a review, or waits for a retry. `recorded`
      says whether the end the provider names could be stored. */
  predicate UndoLeaves(s: System, t: System, k: ItemKey, item: Item, u: Undone, at: int, recorded: bool, wait: Option<int>) {
    if item.cancellationNextAttemptAt.Some? && at < item.cancellationNextAttemptAt.value
    then t == s && wait == Some(item.cancellationNextAttemptAt.value - at)
    else if item.state == Pending then wait.None? && RowEnds(s, t, k, Skipped, None)
    else if item.state == Applying && item.holder.Some? && at < item.holder.value.expiresAt
    then t == s && wait == Some(item.holder.value.expiresAt - at)
    else
      match u
      case StillOpen => t == s && wait == Some(60)
      case Ends(state, reason) =>
        wait.None? && if recorded then RowEnds(s, t, k, state, reason) else RowEnds(s, t, k, NeedsReview, Some("provider-unknown"))
      case Refuses(why) => wait.None? && RowEnds(s, t, k, NeedsReview, Some(why))
      case CannotUndo(false, _) => wait.None? && RowEnds(s, t, k, NeedsReview, Some("provider-unknown"))
      case CannotUndo(true, jitter) =>
        var attempts := item.cancellationAttempts + 1;
        1 <= attempts <= MAX_ATTEMPTS && k in s.items && k in t.items
        && var delay := DelayAfter(attempts, jitter);
           && RetryLeaves(s.items[k], t.items[k], attempts, if attempts == MAX_ATTEMPTS then None else Some(at + delay))
           && wait == if IsCancellationTerminal(s.items[k].state) || attempts == MAX_ATTEMPTS then None else Some(delay)
  }

  lemma UndoOutcome(s: System, worker: Job, k: ItemKey, item: Item, u: Undone, at: int)
    requires Inv(s) && (k.job, worker) in s.jobCopies
    ensures var (t, left) := CanceledOne(s, worker, k, item, u, at);
            if left.refused then t == s
            else UndoLeaves(s, t, k, item, u, at, u.Ends? && EndSucceeds(s, k, worker, u.state, u.reason), left.wait)
  {
    hide Inv;
    hide EndedBy;
    hide EndSucceeds;
    hide EndLeaves;
    hide RetriedBy;
    hide RetrySucceeds;
    hide RetryLeaves;
    hide Backoff;
    hide DelayAfter;
    EndOutcome(s, k, worker, Skipped, None);
    EndOutcome(s, k, worker, NeedsReview, Some("provider-unknown"));
    EndsHaveItem(s, k, worker, Skipped, None);
    EndsHaveItem(s, k, worker, NeedsReview, Some("provider-unknown"));
    match u
    case StillOpen =>
    case Ends(state, reason) => EndOutcome(s, k, worker, state, reason); EndsHaveItem(s, k, worker, state, reason);
    case Refuses(why) => EndOutcome(s, k, worker, NeedsReview, Some(why)); EndsHaveItem(s, k, worker, NeedsReview, Some(why));
    case CannotUndo(_, jitter) =>
      var attempts := item.cancellationAttempts + 1;
      var next := if attempts < MAX_ATTEMPTS then Some(at + Backoff(attempts, jitter)) else None;
      RetryOutcome(s, k, attempts, next);
      if RetrySucceeds(s, k, attempts, next) {
        RetriesHaveItem(s, k, attempts, next);
        BackoffIsDelay(attempts, jitter);
      }
  }

  lemma EndsHaveItem(s: System, k: ItemKey, worker: Job, state: ItemState, reason: Option<Reason>)
    ensures EndSucceeds(s, k, worker, state, reason) ==> k in s.items
  {
    hide FinishSucceeds;
  }

  lemma RetriesHaveItem(s: System, k: ItemKey, attempts: int, next: Option<int>)
    requires RetrySucceeds(s, k, attempts, next)
    ensures k in s.items && 1 <= attempts <= MAX_ATTEMPTS
  {
    hide FinishSucceeds;
  }

  lemma RefusedEndIsNothing(s: System, k: ItemKey, worker: Job, state: ItemState, reason: Option<Reason>)
    requires !EndSucceeds(s, k, worker, state, reason)
    ensures EndedBy(s, k, worker, state, reason) == s
  {
    hide FinishSucceeds;
    hide FinishedBy;
    if EndsItem(s, k, state, reason) {
      RefusedFinishIsNothing(s, k, CompleteCancellation(worker, s.items[k], state, reason));
    }
  }

  /** A cancellation step of the canceller that holds the job copy `worker`. */
  predicate IsUndoOf(op: Op, j: JobId, page: seq<(ItemKey, Item)>) {
    && op.FinishItem? && op.k.job == j && IsCancellationStep(op)
    && exists i :: 0 <= i < |page| && page[i].0 == op.k
  }

  /** Records the end of one item or, when that is refused, asks for its review. */
  method EndOrReview(store: Store, worker: Job, k: ItemKey, state: ItemState, reason: Option<Reason>, turn: nat -> nat -> seq<Op>)
    returns (r: Outcome, ghost steps: seq<Step>)
    requires store.Valid() && (k.job, worker) in store.jobCopies && worker.state == Canceling
    requires (state == Reverted && reason.None?) || (state == NeedsReview && reason.Some?)
    modifies store
    ensures store.Valid() && store.Contents() == Run(old(store.Contents()), Ops(steps)) && Later(old(store.Contents()), store.Contents())
    ensures var mine := Committed(old(store.Contents()), steps);
            |mine| <= 1 && forall op | op in mine :: op.FinishItem? && op.k == k && IsCancellationStep(op)
    ensures OfferedIn(steps, turn)
    ensures QuietIn(turn) ==>
              (store.Contents(), Left(r == Conflict, None))
              == (if EndSucceeds(old(store.Contents()), k, worker, state, reason)
                  then Ended(old(store.Contents()), worker, k, state, reason)
                  else Ended(old(store.Contents()), worker, k, NeedsReview, Some("provider-unknown")))
  {
    hide Inv;
    hide Commits;
    hide Apply;
    hide Run;
    hide Committed;
    hide FinishValueOf;
    hide Offered;
    hide OfferedIn;
    hide Quiet;
    hide EndedBy;
    hide EndSucceeds;
    ghost var start := store.Contents();
    r, steps := store.CompleteCancellationItem(k, worker, state, reason, turn(0));
    CallIsOffered(steps, turn, 0);
    if r == Conflict {
      if QuietIn(turn) { RefusedEndIsNothing(start, k, worker, state, reason); }
      ghost var middle, first := store.Contents(), steps;
      var again, more := store.CompleteCancellationItem(k, worker, NeedsReview, Some("provider-unknown"), turn(1));
      CallIsOffered(more, turn, 1);
      OfferedInAppend(first, more, turn);
      StepsAppend(start, first, more);
      LaterIsTransitive(start, middle, store.Contents());
      assert Committed(start, first) == [];
      assert [] + Committed(middle, more) == Committed(middle, more);
      r, steps := again, first + more;
    }
  }

  /** Takes one item of the page through its cancellation; `wait` is set when it has to be looked at
      again. */
  method CancelOne(store: Store, j: JobId, worker: Job, k: ItemKey, item: Item, u: Undone, at: int, turn: nat -> nat -> seq<Op>)
    returns (r: Outcome, wait: Option<int>, ghost steps: seq<Step>)
    requires store.Valid() && (j, worker) in store.jobCopies && worker.state == Canceling && k.job == j && GoodUndo(u)
    modifies store
    ensures store.Valid() && store.Contents() == Run(old(store.Contents()), Ops(steps)) && Later(old(store.Contents()), store.Contents())
    ensures var mine := Committed(old(store.Contents()), steps);
            |mine| <= 1 && forall op | op in mine :: op.FinishItem? && op.k == k && IsCancellationStep(op)
    ensures DeferredUntil(item, at).Some? ==> wait.Some? && wait.value <= DeferredUntil(item, at).value - at && steps == []
    ensures wait.Some? ==> 1 <= wait.value
    ensures OfferedIn(steps, turn)
    ensures QuietIn(turn) ==> (store.Contents(), Left(r == Conflict, wait)) == CanceledOne(old(store.Contents()), worker, k, item, u, at)
    ensures QuietIn(turn) ==>
              var s := old(store.Contents());
              if r == Conflict then store.Contents() == s
              else UndoLeaves(s, store.Contents(), k, item, u, at, u.Ends? && EndSucceeds(s, k, worker, u.state, u.reason), wait)
  {
    hide Inv;
    hide Commits;
    hide Apply;
    hide Run;
    hide Committed;
    hide FinishValueOf;
    hide Offered;
    hide OfferedIn;
    hide Quiet;
    hide EndedBy;
    hide EndSucceeds;
    hide RetriedBy;
    hide RetrySucceeds;
    hide UndoLeaves;
    ghost var start := store.Contents();
    UndoOutcome(start, worker, k, item, u, at);
    NoSteps(start);
    NothingIsLater(start);
    r, wait, steps := Done, None, [];
    assert OfferedIn([], turn) by { NothingOffered(turn(0)); CallIsOffered([], turn, 0); }
    if item.cancellationNextAttemptAt.Some? && at < item.cancellationNextAttemptAt.value {
      return Done, Some(item.cancellationNextAttemptAt.value - at), [];
    }
    if item.state == Pending {
      r, steps := store.CompleteCancellationItem(k, worker, Skipped, None, turn(0));
      CallIsOffered(steps, turn, 0);
      return;
    }
    if item.state == Applying && item.holder.Some? && at < item.holder.value.expiresAt {
      return Done, Some(item.holder.value.expiresAt - at), [];
    }
    match u
    case StillOpen => wait := Some(60);
    case Ends(state, reason) =>
      r, steps := EndOrReview(store, worker, k, state, reason, turn);
    case Refuses(why) =>
      r, steps := store.CompleteCancellationItem(k, worker, NeedsReview, Some(why), turn(0));
      CallIsOffered(steps, turn, 0);
    case CannotUndo(retryable, jitter) =>
      if retryable {
        var attempts := item.cancellationAttempts + 1;
        var delay := Backoff(attempts, jitter);
        var again;
        r, again, steps := store.RetryCancellationItem(k, attempts, if attempts < MAX_ATTEMPTS then Some(at + delay) else None, turn(0));
        CallIsOffered(steps, turn, 0);
        if again { wait := Some(delay); }
      } else {
        r, steps := store.CompleteCancellationItem(k, worker, NeedsReview, Some("provider-unknown"), turn(0));
        CallIsOffered(steps, turn, 0);
      }
  }

  /** One cancellation message: every item of the page in turn, then either another look or the end of
      the cancellation. Another look comes within a minute and never after a deferred item is due. */
  method Cancel(store: Store, j: JobId, worker: Job, page: seq<(ItemKey, Item)>, undone: map<ItemKey, Undone>, found: Option<Item>,
                at: int, turn: nat -> nat -> nat -> seq<Op>)
    returns (reply: Reply, ghost steps: seq<Step>)
    requires store.Valid() && (j, worker) in store.jobCopies && worker.state == Canceling
    requires forall x | x in page :: x.0.job == j && x.0 in undone && GoodUndo(undone[x.0])
    modifies store
    ensures store.Valid() && store.Contents() == Run(old(store.Contents()), Ops(steps))
    ensures forall op | op in Committed(old(store.Contents()), steps) :: IsUndoOf(op, j, page) || (op.FinalizeCancellation? && op.j == j)
    ensures reply.Again? ==>
              && 1 <= reply.seconds <= 60
              && forall x | x in page && DeferredUntil(x.1, at).Some? :: reply.seconds <= DeferredUntil(x.1, at).value - at
    ensures OfferedAmong(steps, turn)
    ensures QuietAmong(turn) ==>
              var (t, refused, pending, delay) := CanceledAll(old(store.Contents()), worker, page, undone, at, false, 60);
              if !PageLoads(page) then reply == Raised && store.Contents() == old(store.Contents())
              else
                && reply == (if refused then Raised else if pending then Again(delay) else FinalReply(t, j, found))
                && store.Contents() == (if refused || pending then t else FinalizedBy(t, j, found))
    ensures reply.Nothing? ==>
              && j in store.jobs && store.jobs[j].state == Canceled
              && forall x | x in page :: DeferredUntil(x.1, at).None?
  {
    hide Inv;
    hide Commits;
    hide Apply;
    hide Run;
    hide Committed;
    hide DeferredUntil;
    hide Offered;
    hide OfferedIn;
    hide OfferedAmong;
    hide Quiet;
    hide CanceledOne;
    ghost var start := store.Contents();
    NoSteps(start);
    NothingIsLater(start);
    steps := [];
    NoCallsOffered(turn);
    hide ValidItem;
    hide ValidJob;
    if !PageLoads(page) { return Raised, steps; }
    assert page[0..] == page;
    var pending, retryDelay := false, 60;
    for i := 0 to |page|
      invariant store.Valid() && store.Contents() == Run(start, Ops(steps)) && Later(start, store.Contents())
      invariant forall op | op in Committed(start, steps) :: IsUndoOf(op, j, page)
      invariant OfferedAmong(steps, turn)
      invariant QuietAmong(turn) ==>
                  CanceledAll(start, worker, page, undone, at, false, 60)
                  == CanceledAll(store.Contents(), worker, page[i..], undone, at, pending, retryDelay)
      invariant 1 <= retryDelay <= 60
      invariant forall x | x in page[..i] && DeferredUntil(x.1, at).Some? ::
                  pending && retryDelay <= DeferredUntil(x.1, at).value - at
    {
      var (k, item) := page[i];
      assert page[i] in page && page[..i + 1] == page[..i] + [page[i]];
      assert page[i..][0] == page[i] && page[i..][1..] == page[i + 1..];
      ghost var middle := store.Contents();
      var r, wait, more := CancelOne(store, j, worker, k, item, undone[k], at, turn(i));
      StepsAppend(start, steps, more);
      LaterIsTransitive(start, middle, store.Contents());
      CallsAreOffered(more, turn, i);
      OfferedAmongAppend(steps, more, turn);
      steps := steps + more;
      if r == Conflict { return Raised, steps; }
      if wait.Some? {
        pending := true;
        if wait.value < retryDelay { retryDelay := wait.value; }
      }
    }
    assert page[..|page|] == page;
    if pending { return Again(retryDelay), steps; }
    ghost var before := store.Contents();
    var r, canceled, last := store.FinalizeCancellation(j, found, turn(|page|)(0));
    CallIsOffered(last, turn(|page|), 0);
    CallsAreOffered(last, turn, |page|);
    OfferedAmongAppend(steps, last, turn);
    StepsAppend(start, steps, last);
    steps := steps + last;
    if r == Conflict { reply := Raised; } else if canceled { reply := Nothing; } else { reply := Again(2); }
  }
}
