/**
 What a job carries through a run: what it was ordered with, what its preview and its scheduling
 added, and how often it has moved on; and when a transition of it commits.
 */
module MigrationOrders {
  import opened Types
  import opened MigrationRecords
  import opened MigrationProtocol
  import opened MigrationInvariant
  import opened MigrationSteps
  import opened MigrationCounters

  /** The order of a job, as its committed operations tell it. */
  datatype Order = Order(
    canarySize: int, accountConcurrency: int, policy: Policy, createdAt: int,
    moves: nat, cursor: Option<string>, expiresAt: Option<int>, tax: Option<string>)

  /** The operations that move a job to its next revision. */
  predicate IsMove(op: Op) {
    match op
    case AdvancePreview(_, _, _, _) => true
    case CompletePreview(_, _, _, _, _, _) => true
    case ScheduleExecution(_, _, _, _, _, _) => true
    case Control(_, _, _, _, _) => true
    case StartExecution(_, _, _) => true
    case ContinueExecution(_, _) => true
    case BeginCancel(_, _, _) => true
    case FinalizeCancellation(_, _, _) => true
    case _ => false
  }

  /** What an operation adds to an order. */
  function Noted(o: Order, op: Op): Order {
    var moved := if IsMove(op) then o.(moves := o.moves + 1) else o;
    match op
    case AdvancePreview(_, _, _, cursor) => moved.(cursor := Some(cursor))
    case CompletePreview(_, _, _, _, _, expiresAt) => moved.(cursor := None, expiresAt := Some(expiresAt))
    case ScheduleExecution(_, _, _, _, _, tax) => moved.(tax := Some(tax))
    case _ => moved
  }

  /** The order of a job after one operation; None before the job is created. */
  function NextOrder(s: System, op: Op, j: JobId, o: Option<Order>): Option<Order> {
    if !Commits(s, op) then o
    else if op.CreateJob? && op.j == j then
      Some(Order(op.canarySize, op.accountConcurrency, op.policy, op.createdAt, 0, None, None, None))
    else if IsMove(op) && op.j == j && o.Some? then Some(Noted(o.value, op))
    else o
  }

  function OrderAfter(s: System, ops: seq<Op>, j: JobId, o: Option<Order>): Option<Order>
    decreases |ops|
  {
    if ops == [] then o else OrderAfter(Apply(s, ops[0]), ops[1..], j, NextOrder(s, ops[0], j, o))
  }

  /** A job row says what its order says; its dry run is the first and only one, of the aggregate it still has. */
  predicate Carries(c: Job, o: Order) {
    && c.canarySize == o.canarySize && c.accountConcurrency == o.accountConcurrency
    && c.policy == o.policy && c.createdAt == o.createdAt
    && c.revision == 1 + o.moves && c.cursor == o.cursor && c.tax == o.tax
    && c.dryRun == (if o.expiresAt.Some? then Some(DryRun(1, c.preview, o.expiresAt.value)) else None)
  }

  predicate IsCarried(s: System, j: JobId, o: Option<Order>) {
    (j in s.jobs <==> o.Some?) && (o.Some? ==> Carries(s.jobs[j], o.value))
  }

  /** A move writes the row it noted. */
  lemma MoveIsNoted(op: Op, o: Order)
    requires IsMove(op) && JobUpdate(op).Some? && Carries(op.readJob, o) && ValidJob(op.readJob)
    ensures JobUpdate(op).value.0 == op.j && Carries(JobUpdate(op).value.2, Noted(o, op))
  {
    hide ControlTarget;
    hide ValidCounts;
    hide ValidCounters;
    hide ValidAggregate;
    hide ContinueTarget;
    hide PausesForCanary;
  }

  /** The other writes of a job row touch its counters and, during the preview, its aggregate. */
  lemma OtherWritesAreNotNoted(s: System, op: Op, j: JobId, o: Order)
    requires Commits(s, op) && !IsMove(op) && !op.CreateJob? && j in s.jobs
    requires JobWriteOf(op) == Some((j, s.jobs[j])) && Carries(s.jobs[j], o) && ValidJob(s.jobs[j])
    ensures j in Effect(s, op).jobs && Carries(Effect(s, op).jobs[j], o)
  {
    hide ValidCounts;
    hide ValidCounters;
    hide ValidAggregate;
    hide AddPreviewItem;
    hide ReplacePreviewItem;
    hide FinishValueOf;
    hide FinishedItem;
    hide ChangesMetrics;
    hide ClaimCommits;
    hide FinishCommits;
    hide MoveCount;
  }

  lemma CreationIsNoted(s: System, op: Op)
    requires op.CreateJob? && Commits(s, op)
    ensures op.j !in s.jobs && op.j in Effect(s, op).jobs
    ensures Carries(Effect(s, op).jobs[op.j],
                    Order(op.canarySize, op.accountConcurrency, op.policy, op.createdAt, 0, None, None, None))
  {
  }

  lemma MoveWritesItsJob(s: System, op: Op)
    requires IsMove(op) && Commits(s, op)
    ensures JobUpdate(op).Some? && JobWriteOf(op) == Some((JobUpdate(op).value.0, JobUpdate(op).value.1))
    ensures JobUpdate(op).value.0 == op.j && JobUpdate(op).value.1 == op.readJob
    ensures op.j in Effect(s, op).jobs && Effect(s, op).jobs[op.j] == JobUpdate(op).value.2
  {
    hide ControlTarget;
    hide ValidCounts;
    hide ValidAggregate;
    hide ContinueTarget;
    hide PausesForCanary;
    hide CompletedPreviewJob;
    hide ControlledJob;
    hide JobUnchanged;
  }

  lemma NoJobAppears(s: System, op: Op, j: JobId)
    requires Commits(s, op) && j !in s.jobs && !(op.CreateJob? && op.j == j)
    ensures j !in Effect(s, op).jobs
  {
    hide MetricsJob;
    hide ValidItem;
    hide FinishedItem;
    hide FinishValueOf;
    hide ChangesMetrics;
    hide AddPreviewItem;
    hide ReplacePreviewItem;
    hide ReadsAreValid;
  }

  lemma OwnWriteIsNoted(s: System, op: Op, j: JobId, o: Order)
    requires Inv(s) && Commits(s, op) && j in s.jobs && Carries(s.jobs[j], o)
    requires JobWriteOf(op).Some? && JobWriteOf(op).value.0 == j
    ensures !op.CreateJob? && j in Effect(s, op).jobs
    ensures Carries(Effect(s, op).jobs[j], if IsMove(op) && op.j == j then Noted(o, op) else o)
  {
    assert !op.CreateJob?;
    hide Inv;
    hide Commits;
    hide Effect;
    hide JobWriteOf;
    hide JobUpdate;
    hide Carries;
    hide Noted;
    hide ValidJob;
    WriteReadsCurrentJob(s, op);
    if IsMove(op) {
      MoveWritesItsJob(s, op);
      MoveIsNoted(op, o);
    } else {
      OtherWritesAreNotNoted(s, op, j, o);
    }
  }

  lemma CarriedStep(s: System, op: Op, j: JobId, o: Option<Order>)
    requires Inv(s) && IsCarried(s, j, o)
    ensures IsCarried(Apply(s, op), j, NextOrder(s, op, j, o))
  {
    hide Inv;
    hide IsMove;
    hide Commits;
    hide Effect;
    hide JobWriteOf;
    hide Carries;
    hide Noted;
    hide ValidJob;
    hide JobUpdate;
    if Commits(s, op) {
      if op.CreateJob? && op.j == j {
        CreationIsNoted(s, op);
      } else if j !in s.jobs {
        NoJobAppears(s, op, j);
        if IsMove(op) { MoveWritesItsJob(s, op); }
      } else if JobWriteOf(op).Some? && JobWriteOf(op).value.0 == j {
        OwnWriteIsNoted(s, op, j, o.value);
      } else {
        OtherJobsAreSpared(s, op, j);
        if IsMove(op) { MoveWritesItsJob(s, op); }
      }
    }
  }

  lemma {:induction false} RunCarriesOrders(s: System, ops: seq<Op>, j: JobId, o: Option<Order>)
    requires Inv(s) && IsCarried(s, j, o)
    ensures IsCarried(Run(s, ops), j, OrderAfter(s, ops, j, o))
    decreases |ops|
  {
    hide Inv;
    hide IsCarried;
    hide Apply;
    hide NextOrder;
    if ops == [] {
    } else {
      CarriedStep(s, ops[0], j, o);
      ApplyKeepsInv(s, ops[0]);
      RunCarriesOrders(Apply(s, ops[0]), ops[1..], j, NextOrder(s, ops[0], j, o));
    }
  }

  /** In every run a job keeps the canary size, concurrency, policy and creation time it was created with; its
      revision counts its committed moves; its discovery cursor is the last one stored until the preview
      completes; its dry run is made once, of the aggregate it keeps from then on; its tax authorization is that
      of its scheduling. No claim, finish or preview write and no operation of another job touches any of it. */
  lemma JobsCarryTheirOrder(ops: seq<Op>, j: JobId)
    ensures var s := Run(EMPTY, ops); var o := OrderAfter(EMPTY, ops, j, None);
            && (j in s.jobs <==> o.Some?)
            && (o.Some? ==> Carries(s.jobs[j], o.value))
  {
    EmptyInv();
    hide Inv;
    RunCarriesOrders(EMPTY, ops, j, None);
  }

  /** When a move of a job may be made, told from its row and its order. */
  predicate MayMove(c: Job, o: Order, op: Op)
    requires IsMove(op)
  {
    match op
    case AdvancePreview(_, _, expected, cursor) =>
      c.state == Previewing && expected == 1 + o.moves && 1 <= |cursor| <= 512
    case CompletePreview(_, _, expected, hash, counts, expiresAt) =>
      && c.state == Previewing && expected == 1 + o.moves
      && hash == c.preview && counts == c.preview.counts && 1 <= expiresAt <= 9_999_999_999
    case ScheduleExecution(_, _, dryRunRevision, hash, at, _) =>
      && c.state == AwaitingApproval && dryRunRevision == 1
      && hash == c.preview && o.expiresAt.Some? && at < o.expiresAt.value
    case StartExecution(_, _, expected) => c.state == Scheduled && expected == 1 + o.moves
    case BeginCancel(_, _, expected) => c.state == CancelRequested && expected == 1 + o.moves
    case FinalizeCancellation(_, _, workFound) =>
      c.state == Canceling && c.counts.pending + c.appliedItems == 0 && !workFound
    case _ =>
      && c.state == Running
      && (c.counts.pending == 0 || (c.mutationStarted && !c.canaryApproved && c.canaryClaims == c.canaryCompleted))
  }

  /** The moves and when they commit: in every run a move computed from the current row, which can be loaded,
      commits exactly then. A preview completes with the aggregate of its row only, and a job is scheduled only
      from the one dry run it has, before that expires. */
  lemma MovesCommitExactly(ops: seq<Op>, op: Op)
    requires IsMove(op) && !op.Control?
    requires var s := Run(EMPTY, ops); op.j in s.jobs && op.readJob == s.jobs[op.j] && ValidJob(op.readJob)
    ensures var s := Run(EMPTY, ops); var c := s.jobs[op.j]; var o := OrderAfter(EMPTY, ops, op.j, None);
            && o.Some?
            && (Commits(s, op) <==> MayMove(c, o.value, op))
  {
    var s := Run(EMPTY, ops);
    EmptyInv();
    RunKeepsInv(EMPTY, ops);
    JobsCarryTheirOrder(ops, op.j);
    assert (op.j, s.jobs[op.j]) in s.jobCopies;
    hide Inv;
    hide Run;
    hide OrderAfter;
    hide Commits;
    hide Carries;
    hide ValidJob;
    hide IsMove;
    CurrentMoveCommits(s, op, OrderAfter(EMPTY, ops, op.j, None).value);
  }

  lemma CurrentMoveCommits(s: System, op: Op, o: Order)
    requires IsMove(op) && !op.Control? && op.j in s.jobs && op.readJob == s.jobs[op.j] && ValidJob(op.readJob)
    requires (op.j, op.readJob) in s.jobCopies && Carries(op.readJob, o)
    ensures Commits(s, op) <==> MayMove(op.readJob, o, op)
  {
    hide ControlTarget;
    hide CompletedPreviewJob;
  }

  /** Where the moves lead: a completed preview waits for approval, a scheduled job for its start, and so on;
      no other operation of the protocol but the control commands changes the state of a job that exists. */
  lemma MovesLeadExactly(ops: seq<Op>, op: Op, j: JobId)
    requires Commits(Run(EMPTY, ops), op) && j in Run(EMPTY, ops).jobs && !op.Control?
    ensures var s := Run(EMPTY, ops); var was := s.jobs[j].state;
            && j in Effect(s, op).jobs
            && var state := Effect(s, op).jobs[j].state;
               if !IsMove(op) || op.j != j then state == was else
               match op
               case AdvancePreview(_, _, _, _) => was == Previewing && state == Previewing
               case CompletePreview(_, _, _, _, _, _) => was == Previewing && state == AwaitingApproval
               case ScheduleExecution(_, _, _, _, _, _) => was == AwaitingApproval && state == Scheduled
               case StartExecution(_, _, _) => was == Scheduled && state == Running
               case BeginCancel(_, _, _) => was == CancelRequested && state == Canceling
               case FinalizeCancellation(_, _, _) => was == Canceling && state == Canceled
               case _ => was == Running && (state == Paused || state == Completed || state == CompletedWithErrors)
  {
    var s := Run(EMPTY, ops);
    EmptyInv();
    hide Run;
    hide Inv;
    hide Commits;
    hide Effect;
    RunKeepsInv(EMPTY, ops);
    StateStep(s, op, j);
  }

  lemma StateStep(s: System, op: Op, j: JobId)
    requires Inv(s) && Commits(s, op) && j in s.jobs
    ensures j in Effect(s, op).jobs
    ensures !IsMove(op) || op.j != j ==> Effect(s, op).jobs[j].state == s.jobs[j].state
    ensures IsMove(op) && op.j == j ==>
              && JobUpdate(op).Some? && JobUpdate(op).value.1 == op.readJob == s.jobs[j]
              && Effect(s, op).jobs[j] == JobUpdate(op).value.2
  {
    hide Inv;
    hide Commits;
    hide Effect;
    hide JobWriteOf;
    if JobWriteOf(op).Some? && JobWriteOf(op).value.0 == j {
      WriteReadsCurrentJob(s, op);
      if IsMove(op) { MoveWritesItsJob(s, op); } else { OtherWritesKeepStates(s, op, j); }
    } else {
      OtherJobsAreSpared(s, op, j);
      if IsMove(op) { MoveWritesItsJob(s, op); }
    }
  }

  lemma OtherWritesKeepStates(s: System, op: Op, j: JobId)
    requires Commits(s, op) && !IsMove(op) && j in s.jobs && JobWriteOf(op) == Some((j, s.jobs[j]))
    ensures j in Effect(s, op).jobs && Effect(s, op).jobs[j].state == s.jobs[j].state
  {
    hide AddPreviewItem;
    hide ReplacePreviewItem;
    hide FinishValueOf;
    hide FinishedItem;
    hide ChangesMetrics;
    hide ClaimCommits;
    hide FinishCommits;
    hide MoveCount;
  }
}
