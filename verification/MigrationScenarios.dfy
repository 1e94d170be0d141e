/**
 Runs in which a promise of the migration protocol fails: each starts from the empty table, takes
 only steps that a worker, a webhook or an operator sends, and ends in the committed operation that
 the exact conditions of the other modules exclude. One job with one item is enough for all of them.
 */
module MigrationScenarios {
  import opened Types
  import opened MigrationRecords
  import opened MigrationProtocol
  import opened MigrationTotals
  import opened MigrationInvariant
  import opened MigrationSteps
  import opened MigrationCounters
  import opened MigrationLoads
  import opened MigrationApproval
  import opened MigrationCancellation
  import opened MigrationEvents
  import opened MigrationStore
  import opened MigrationScenes

  // ---------------------------------------------------------------- a canary that is retried

  function SecondClaim(c: Scene): Item { ClaimedItem(FirstClaim(c), CanaryRequest(c, 31)) }

  function RetriedCanaryOps(c: Scene): seq<Op> {
    ClaimedOps(c) + [Tick(30)] + [ClaimItem(c.k, ClaimedJob(c), FirstClaim(c), CanaryRequest(c, 31))]
  }

  lemma SecondClaimCommits(s: System, c: Scene)
    requires IsScene(c) && 2 <= c.canarySize && Holds(s, c.k, ClaimedJob(c), FirstClaim(c)) && Leased(s, c, 1, 31) && s.now == 31
    ensures ClaimCommits(s, c.k, ClaimedJob(c), FirstClaim(c), CanaryRequest(c, 31))
    ensures ClaimsCanary(FirstClaim(c), CanaryRequest(c, 31)) && FirstClaim(c).state == Applying
  {
  }

  lemma {:induction false} NothingTakenBack(s: System, ops: seq<Op>, j: JobId)
    requires forall op | op in ops :: !op.FinishItem?
    ensures NeverTakesBack(s, ops, j)
    decreases |ops|
  {
    hide Apply;
    hide Commits;
    if ops == [] {
    } else {
      NothingTakenBack(Apply(s, ops[0]), ops[1..], j);
    }
  }

  lemma RetriedCanaryRun(c: Scene)
    requires IsScene(c) && 2 <= c.canarySize
    ensures Shows(Run(EMPTY, RetriedCanaryOps(c)), c.k, CanaryClaimedJob(ClaimedJob(c)), SecondClaim(c))
  {
    hide Run;
    hide Apply;
    hide Commits;
    hide Inv;
    hide ValidJob;
    hide ValidItem;
    hide Holds;
    hide IsScene;
    hide ClaimedOps;
    hide ClaimCommits;
    hide ClaimsCanary;
    hide ClaimedJob;
    hide FirstClaim;
    hide CanaryClaimedJob;
    hide ClaimedItem;
    hide ClaimedAttempt;
    var claim := ClaimItem(c.k, ClaimedJob(c), FirstClaim(c), CanaryRequest(c, 31));
    ClaimedRun(c);
    Extend(ClaimedOps(c), Tick(30));
    TickStep(Run(EMPTY, ClaimedOps(c)), c.k, ClaimedJob(c), FirstClaim(c), 30);
    var s := Run(EMPTY, ClaimedOps(c) + [Tick(30)]);
    SecondClaimCommits(s, c);
    Extend(ClaimedOps(c) + [Tick(30)], claim);
    ClaimStep(s, c.k, ClaimedJob(c), FirstClaim(c), CanaryRequest(c, 31));
  }

  lemma SecondClaimIsSecond(c: Scene)
    requires IsScene(c)
    ensures SecondClaim(c).attempts == 2
    ensures CanaryClaimedJob(ClaimedJob(c)).state == Running && !CanaryClaimedJob(ClaimedJob(c)).canaryApproved
  {
  }

  /** A canary whose lease runs out can be claimed again before the approval: that job is never approved,
      whatever runs afterwards without take-backs. */
  lemma RetriedCanaryIsReachable(c: Scene)
    requires IsScene(c) && 2 <= c.canarySize
    ensures var s := Run(EMPTY, RetriedCanaryOps(c));
            && NeverTakesBack(EMPTY, RetriedCanaryOps(c), c.k.job)
            && c.k in s.items && s.items[c.k].attempts == 2 && c.k.job in s.jobs
            && s.jobs[c.k.job].state == Running && !s.jobs[c.k.job].canaryApproved
    ensures forall ops | NeverTakesBack(Run(EMPTY, RetriedCanaryOps(c)), ops, c.k.job) ::
              var t := Run(Run(EMPTY, RetriedCanaryOps(c)), ops); c.k.job in t.jobs && !t.jobs[c.k.job].canaryApproved
  {
    hide Run;
    hide IsScene;
    hide NeverTakesBack;
    NothingTakenBack(EMPTY, RetriedCanaryOps(c), c.k.job);
    SecondClaimIsSecond(c);
    RetriedCanaryRun(c);
    forall ops | NeverTakesBack(Run(EMPTY, RetriedCanaryOps(c)), ops, c.k.job)
      ensures var t := Run(Run(EMPTY, RetriedCanaryOps(c)), ops); c.k.job in t.jobs && !t.jobs[c.k.job].canaryApproved
    {
      RetriedJobsAreNeverApproved(RetriedCanaryOps(c), ops, c.k);
    }
  }

  // ---------------------------------------------------------------- a finished item

  /** The worker reports the provider's answer for its claim. */
  function Report(state: ItemState): Caller { CompleteItem(1, state, None, None, None) }

  function ReportedItem(c: Scene, state: ItemState): Item { FirstClaim(c).(state := state, holder := None) }

  function ReportedJob(c: Scene, state: ItemState): Job { MetricsJob(ClaimedJob(c), FirstClaim(c), ReportedItem(c, state)) }

  function ReportedOps(c: Scene, state: ItemState): seq<Op> {
    ClaimedOps(c) + [FinishItem(c.k, ClaimedJob(c), FirstClaim(c), Report(state))]
  }

  predicate IsReport(state: ItemState) { state == ItemState.Applied || state == PendingPayment }

  lemma ReportOf(state: ItemState)
    requires IsReport(state)
    ensures FinishValueOf(Report(state)) == Some(FinishValue(1, state, None, None, Some(None), None, None, None))
  {
  }

  lemma ReportValue(c: Scene, state: ItemState)
    requires IsScene(c) && IsReport(state)
    ensures var v := FinishValueOf(Report(state)); var becomes := ReportedItem(c, state);
            && v.Some? && v.value.attempts == 1 && FinishedItem(FirstClaim(c), v.value) == becomes && ValidItem(becomes)
            && ChangesMetrics(ClaimedJob(c), FirstClaim(c), becomes) && !SpoilsByFinish(ClaimedJob(c), FirstClaim(c), becomes)
  {
    hide ClaimedJob;
    hide FirstClaim;
    hide IsScene;
    hide FinishValueOf;
    ClaimedFacts(c);
    ReportOf(state);
  }

  lemma ReportedRun(c: Scene, state: ItemState)
    requires IsScene(c) && IsReport(state)
    ensures Shows(Run(EMPTY, ReportedOps(c, state)), c.k, ReportedJob(c, state), ReportedItem(c, state))
  {
    hide Run;
    hide Shows;
    hide IsScene;
    hide IsReport;
    hide ClaimedOps;
    hide ClaimedJob;
    hide FirstClaim;
    hide ReportedItem;
    hide FinishValueOf;
    hide FinishedItem;
    hide ChangesMetrics;
    hide MetricsJob;
    hide SpoilsByFinish;
    hide ValidItem;
    ReportValue(c, state);
    LeasedFinishRun(c, Report(state), ReportedItem(c, state));
  }

  /** The job fields a finish moves and those it leaves. */
  lemma MetricsFields(j: Job, was: Item, becomes: Item)
    ensures var n := MetricsJob(j, was, becomes);
            && n.state == j.state && n.revision == j.revision && n.createdAt == j.createdAt && n.canaryClaims == j.canaryClaims
            && n.mutationStarted == j.mutationStarted && n.canaryApproved == j.canaryApproved
            && n.canaryCompleted == j.canaryCompleted + One(CompletesCanary(was, becomes))
            && n.counts.pending == j.counts.pending + One(CountBucket(becomes.state) == InPending) - One(CountBucket(was.state) == InPending)
  {
  }

  lemma ReportedFacts(c: Scene, state: ItemState)
    requires IsScene(c) && IsReport(state)
    ensures var job, i := ReportedJob(c, state), ReportedItem(c, state);
            && job.state == Running && job.revision == 4 && job.createdAt == 1
            && job.canaryClaims == 1 && job.canaryCompleted == (if state == PendingPayment then 0 else 1)
            && i.state == state && i.reason.None? && i.attempts == 1 && i.scheduleId.None? && i.rollbackGuard.None?
            && i.holder.None? && i.nextAttemptAt.None? && i.cancellationAttempts == 0 && i.cancellationNextAttemptAt.None?
            && i.lastEvent.None? && i.canary
  {
    hide IsScene;
    hide ClaimedJob;
    hide FirstClaim;
    hide MetricsJob;
    ClaimedFacts(c);
    MetricsFields(ClaimedJob(c), FirstClaim(c), ReportedItem(c, state));
  }

  // ---------------------------------------------------------------- a canceling job with an open item

  /** The item waits for its payment. */
  function OpenItem(c: Scene): Item { ReportedItem(c, PendingPayment) }

  function OpenJob(c: Scene): Job { ReportedJob(c, PendingPayment) }

  function RequestedJob(c: Scene): Job { ControlledJob(OpenJob(c), CancelRequested, ControlAction.Cancel) }

  function CancelingJob(c: Scene): Job {
    var j := RequestedJob(c);
    j.(state := Canceling, revision := j.revision + 1, cancellationRemaining := j.counts.pending + j.appliedItems)
  }

  function CancelingOps(c: Scene): seq<Op> {
    ReportedOps(c, PendingPayment) + [Control(c.k.job, OpenJob(c), 4, ControlAction.Cancel, false)] + [BeginCancel(c.k.job, RequestedJob(c), 5)]
  }

  lemma CancelUpdates(c: Scene)
    requires OpenJob(c).state == Running && OpenJob(c).revision == 4
    ensures JobUpdate(Control(c.k.job, OpenJob(c), 4, ControlAction.Cancel, false)) == Some((c.k.job, OpenJob(c), RequestedJob(c)))
    ensures JobUpdate(BeginCancel(c.k.job, RequestedJob(c), 5)) == Some((c.k.job, RequestedJob(c), CancelingJob(c)))
    ensures var n := CancelingJob(c);
            n.state == Canceling && n.canaryClaims == OpenJob(c).canaryClaims && n.canaryCompleted == OpenJob(c).canaryCompleted
  {
    hide OpenJob;
  }

  /** The job is canceling, and what was read before the cancel can still be used. */
  ghost predicate IsCanceling(s: System, c: Scene) {
    && Shows(s, c.k, CancelingJob(c), OpenItem(c))
    && (c.k.job, OpenJob(c)) in s.jobCopies && ValidJob(OpenJob(c)) && CancelingJob(c).state == Canceling
    && CancelingJob(c).canaryClaims == 1 && CancelingJob(c).canaryCompleted == 0
  }

  lemma CancelingRun(c: Scene)
    requires IsScene(c)
    ensures IsCanceling(Run(EMPTY, CancelingOps(c)), c)
  {
    hide Run;
    hide Apply;
    hide Commits;
    hide JobUpdate;
    hide Inv;
    hide ValidJob;
    hide ValidItem;
    hide ReportedJob;
    hide ReportedItem;
    hide RequestedJob;
    hide CancelingJob;
    hide ReportedOps;
    hide IsScene;
    ReportedRun(c, PendingPayment);
    ReportedFacts(c, PendingPayment);
    CancelUpdates(c);
    var control := Control(c.k.job, OpenJob(c), 4, ControlAction.Cancel, false);
    var begin := BeginCancel(c.k.job, RequestedJob(c), 5);
    var ops := ReportedOps(c, PendingPayment);
    Extend(ops, control);
    JobStep(Run(EMPTY, ops), c.k, OpenJob(c), OpenItem(c), control, RequestedJob(c));
    Extend(ops + [control], begin);
    JobStep(Run(EMPTY, ops + [control]), c.k, RequestedJob(c), OpenItem(c), begin, CancelingJob(c));
  }

  // ---------------------------------------------------------------- retries without end

  /** The canceller's retry, computed from the item as it was before any retry. */
  function FirstRetry(c: Scene): Caller { RetryCancellation(CancelingJob(c), OpenItem(c), 1, Some(60)) }

  function RetriedItem(c: Scene): Item { OpenItem(c).(cancellationAttempts := 1, cancellationNextAttemptAt := Some(60)) }

  function LateRetry(c: Scene): Op { FinishItem(c.k, CancelingJob(c), RetriedItem(c), FirstRetry(c)) }

  function Repeat(op: Op, n: nat): seq<Op> { if n == 0 then [] else [op] + Repeat(op, n - 1) }

  /** The same retry asked for once more n times by cancellers that all counted from the first read. */
  function LateRetryOps(c: Scene, n: nat): seq<Op> {
    CancelingOps(c) + [FinishItem(c.k, CancelingJob(c), OpenItem(c), FirstRetry(c))] + Repeat(LateRetry(c), n)
  }

  /** An open item without reason, schedule or due time. */
  predicate IsPlain(i: Item) {
    && i.state == PendingPayment && i.reason.None? && i.attempts == 1 && i.scheduleId.None? && i.rollbackGuard.None?
    && i.holder.None? && i.nextAttemptAt.None? && i.cancellationAttempts == 0 && i.cancellationNextAttemptAt.None?
  }

  lemma OpenIsPlain(c: Scene)
    requires IsScene(c)
    ensures IsPlain(OpenItem(c)) && OpenItem(c).lastEvent.None? && OpenJob(c).state == Running && OpenJob(c).createdAt == 1
  {
    hide IsScene;
    hide ReportedItem;
    hide ReportedJob;
    ReportedFacts(c, PendingPayment);
  }

  /** What a retry computed from an open item asks for. */
  lemma RetryOf(job: Job, i: Item)
    requires job.state == Canceling && IsPlain(i)
    ensures FinishValueOf(RetryCancellation(job, i, 1, Some(60)))
         == Some(FinishValue(1, PendingPayment, None, None, Some(None), None, Some((1, Some(60))), None))
  {
  }

  lemma RetryMakes(job: Job, i: Item, retried: Item, read: Item, v: FinishValue)
    requires job.state == Canceling && IsPlain(i) && retried == i.(cancellationAttempts := 1, cancellationNextAttemptAt := Some(60))
    requires v == FinishValue(1, PendingPayment, None, None, Some(None), None, Some((1, Some(60))), None)
    requires read == i || read == retried
    ensures MayFinishFrom(read.state) && read.attempts == v.attempts && read.holder.None?
    ensures FinishedItem(read, v) == retried && ValidItem(retried)
    ensures !ChangesMetrics(job, read, retried) && !SpoilsByFinish(job, read, retried)
  {
  }

  /** A retry from the first read commits on the fresh item and on the retried one alike. */
  lemma RetryValue(c: Scene, read: Item)
    requires IsScene(c) && CancelingJob(c).state == Canceling && (read == OpenItem(c) || read == RetriedItem(c))
    ensures var v := FinishValueOf(FirstRetry(c));
            && v.Some? && MayFinishFrom(read.state) && read.attempts == v.value.attempts && read.holder.None?
            && FinishedItem(read, v.value) == RetriedItem(c) && ValidItem(RetriedItem(c))
            && !ChangesMetrics(CancelingJob(c), read, RetriedItem(c)) && !SpoilsByFinish(CancelingJob(c), read, RetriedItem(c))
  {
    hide CancelingJob;
    hide OpenItem;
    hide IsScene;
    hide IsPlain;
    hide MayFinishFrom;
    hide FinishValueOf;
    hide FinishedItem;
    hide ValidItem;
    hide ChangesMetrics;
    hide SpoilsByFinish;
    OpenIsPlain(c);
    RetryOf(CancelingJob(c), OpenItem(c));
    RetryMakes(CancelingJob(c), OpenItem(c), RetriedItem(c), read, FinishValueOf(FirstRetry(c)).value);
  }

  /** The table after the first retry, with the copies the late cancellers still hold. */
  ghost predicate IsRetried(s: System, c: Scene) {
    && Shows(s, c.k, CancelingJob(c), RetriedItem(c)) && CancelingJob(c).state == Canceling
    && (c.k, OpenItem(c)) in s.itemCopies && ValidItem(OpenItem(c))
  }

  lemma RetryStep(s: System, c: Scene, read: Item)
    requires IsScene(c) && Shows(s, c.k, CancelingJob(c), read) && CancelingJob(c).state == Canceling
    requires (c.k, OpenItem(c)) in s.itemCopies && ValidItem(OpenItem(c)) && (read == OpenItem(c) || read == RetriedItem(c))
    ensures var op := FinishItem(c.k, CancelingJob(c), read, FirstRetry(c)); Commits(s, op) && IsRetried(Apply(s, op), c)
  {
    hide FinishValueOf;
    hide FinishedItem;
    hide ChangesMetrics;
    hide SpoilsByFinish;
    hide MayFinishFrom;
    hide ValidItem;
    hide ValidJob;
    hide Inv;
    hide Commits;
    hide Apply;
    hide CancelingJob;
    hide OpenItem;
    hide RetriedItem;
    hide IsScene;
    RetryValue(c, read);
    OpenFinishStep(s, c.k, CancelingJob(c), read, FirstRetry(c), RetriedItem(c));
  }

  lemma {:induction false} LateRetriesCommit(s: System, c: Scene, n: nat)
    requires IsScene(c) && IsRetried(s, c)
    ensures CancellationSteps(s, Repeat(LateRetry(c), n), c.k) == n
    decreases n
  {
    hide Shows;
    hide ValidItem;
    hide CancelingJob;
    hide OpenItem;
    hide RetriedItem;
    hide IsScene;
    hide Apply;
    hide Commits;
    if n == 0 {
    } else {
      var op, rest := LateRetry(c), Repeat(LateRetry(c), n - 1);
      RetryStep(s, c, RetriedItem(c));
      assert IsCancellationStep(op) && op.k == c.k;
      assert Repeat(op, n)[1..] == rest;
      LateRetriesCommit(Apply(s, op), c, n - 1);
    }
  }

  lemma {:induction false} StepsOfTwoRuns(s: System, a: seq<Op>, b: seq<Op>, k: ItemKey)
    ensures CancellationSteps(s, a + b, k) == CancellationSteps(s, a, k) + CancellationSteps(Run(s, a), b, k)
    decreases |a|
  {
    hide Apply;
    hide Commits;
    if a == [] {
      assert a + b == b;
    } else {
      assert (a + b)[0] == a[0] && (a + b)[1..] == a[1..] + b;
      StepsOfTwoRuns(Apply(s, a[0]), a[1..], b, k);
    }
  }

  /** Without the condition of SixCancellationStepsPerItem there is no bound: for every n there is a run
      in which at least n cancellation steps of one item commit, each a retry that some canceller
      computed from the item as it was before the first one. */
  lemma LateRetriesAreUnbounded(c: Scene, n: nat)
    requires IsScene(c)
    ensures n <= CancellationSteps(EMPTY, LateRetryOps(c, n), c.k)
  {
    hide Run;
    hide Apply;
    hide Commits;
    hide CancellationSteps;
    hide ValidItem;
    hide Inv;
    hide ValidJob;
    hide CancelingOps;
    hide CancelingJob;
    hide OpenItem;
    hide RetriedItem;
    hide IsScene;
    var first := FinishItem(c.k, CancelingJob(c), OpenItem(c), FirstRetry(c));
    CancelingRun(c);
    Extend(CancelingOps(c), first);
    RetryStep(Run(EMPTY, CancelingOps(c)), c, OpenItem(c));
    StepsOfTwoRuns(EMPTY, CancelingOps(c) + [first], Repeat(LateRetry(c), n), c.k);
    LateRetriesCommit(Run(EMPTY, CancelingOps(c) + [first]), c, n);
  }

  // ---------------------------------------------------------------- an ended item that is opened again

  /** The provider's webhook that the pending update of the item has expired, which read the job before
      the cancel. */
  function Expiry(c: Scene, id: string): Caller { WebhookUpdate(OpenJob(c), OpenItem(c), false, 1, 0, Event(10, id)) }

  function ExpiredItem(c: Scene, id: string): Item {
    OpenItem(c).(state := PendingUpdateExpired, reason := Some("payment-failed"), lastEvent := Some(Event(10, id)))
  }

  function ExpiredJob(c: Scene, id: string): Job { MetricsJob(CancelingJob(c), OpenItem(c), ExpiredItem(c, id)) }

  function ExpiredOps(c: Scene, id: string): seq<Op> {
    CancelingOps(c) + [FinishItem(c.k, CancelingJob(c), OpenItem(c), Expiry(c, id))]
  }

  /** The retry of a canceller that read the item before the webhook was stored. */
  function OvertakenRetry(c: Scene, id: string): Op { FinishItem(c.k, ExpiredJob(c, id), ExpiredItem(c, id), FirstRetry(c)) }

  /** The value of an expiry for an item that waits for its payment. */
  lemma ExpiryOf(job: Job, i: Item, e: Event)
    requires job.state == Running && job.createdAt <= e.createdAt && i.state == PendingPayment && i.lastEvent.None?
    ensures FinishValueOf(WebhookUpdate(job, i, false, 1, 0, e))
         == Some(FinishValue(i.attempts, PendingUpdateExpired, Some("payment-failed"), i.scheduleId, None, None, None, Some(e)))
  {
  }

  lemma ExpiryValue(c: Scene, id: string)
    requires IsScene(c) && CancelingJob(c).state == Canceling && CancelingJob(c).canaryCompleted < CancelingJob(c).canaryClaims
    ensures var v, was := FinishValueOf(Expiry(c, id)), OpenItem(c);
            && v.Some? && MayFinishFrom(was.state) && was.attempts == v.value.attempts && was.holder.None?
            && FinishedItem(was, v.value) == ExpiredItem(c, id) && ValidItem(ExpiredItem(c, id))
            && ChangesMetrics(CancelingJob(c), was, ExpiredItem(c, id)) && !SpoilsByFinish(CancelingJob(c), was, ExpiredItem(c, id))
  {
    hide IsScene;
    hide CancelingJob;
    hide ReportedJob;
    hide ReportedItem;
    hide FinishValueOf;
    ReportedFacts(c, PendingPayment);
    ExpiryOf(OpenJob(c), OpenItem(c), Event(10, id));
  }

  lemma ExpiredRun(c: Scene, id: string)
    requires IsScene(c)
    ensures var s := Run(EMPTY, ExpiredOps(c, id));
            && Shows(s, c.k, ExpiredJob(c, id), ExpiredItem(c, id)) && ExpiredJob(c, id).state == Canceling
            && (c.k.job, CancelingJob(c)) in s.jobCopies && (c.k, OpenItem(c)) in s.itemCopies
            && ValidJob(CancelingJob(c)) && ValidItem(OpenItem(c)) && CancelingJob(c).state == Canceling
  {
    hide Run;
    hide Apply;
    hide Commits;
    hide Inv;
    hide ValidJob;
    hide ValidItem;
    hide IsScene;
    hide CancelingOps;
    hide CancelingJob;
    hide OpenJob;
    hide OpenItem;
    hide ExpiredItem;
    hide FinishValueOf;
    hide FinishedItem;
    hide ChangesMetrics;
    hide SpoilsByFinish;
    hide MayFinishFrom;
    CancelingRun(c);
    ExpiryValue(c, id);
    var s := Run(EMPTY, CancelingOps(c));
    Extend(CancelingOps(c), FinishItem(c.k, CancelingJob(c), OpenItem(c), Expiry(c, id)));
    OpenFinishStep(s, c.k, CancelingJob(c), OpenItem(c), Expiry(c, id), ExpiredItem(c, id));
  }

  lemma ReopeningMakes(i: Item, was: Item, id: string, v: FinishValue)
    requires IsPlain(i) && was == i.(state := PendingUpdateExpired, reason := Some("payment-failed"), lastEvent := Some(Event(10, id)))
    requires v == FinishValue(1, PendingPayment, None, None, Some(None), None, Some((1, Some(60))), None)
    ensures MayFinishFrom(was.state) && was.attempts == v.attempts && was.holder.None? && IsCancellationTerminal(was.state)
    ensures ValidItem(FinishedItem(was, v)) && FinishedItem(was, v).state == PendingPayment
  {
  }

  lemma ReopeningValue(c: Scene, id: string)
    requires IsScene(c) && CancelingJob(c).state == Canceling
    ensures var v, was := FinishValueOf(FirstRetry(c)), ExpiredItem(c, id);
            && v.Some? && MayFinishFrom(was.state) && was.attempts == v.value.attempts && was.holder.None?
            && ValidItem(FinishedItem(was, v.value)) && FinishedItem(was, v.value).state == PendingPayment == v.value.state
            && IsCancellationTerminal(was.state)
  {
    hide CancelingJob;
    hide OpenItem;
    hide IsScene;
    hide IsPlain;
    hide MayFinishFrom;
    hide IsCancellationTerminal;
    hide FinishValueOf;
    hide FinishedItem;
    hide ValidItem;
    OpenIsPlain(c);
    RetryOf(CancelingJob(c), OpenItem(c));
    ReopeningMakes(OpenItem(c), ExpiredItem(c, id), id, FinishValueOf(FirstRetry(c)).value);
  }

  /** No operation finishes an item that has ended. */
  predicate FinishesOpenItems(ops: seq<Op>) {
    forall op | op in ops && op.FinishItem? :: !IsCancellationTerminal(op.readItem.state)
  }

  lemma {:induction false} OpenItemsAreNotReopened(s: System, ops: seq<Op>, j: JobId)
    requires FinishesOpenItems(ops)
    ensures NeverReopens(s, ops, j)
    decreases |ops|
  {
    hide Apply;
    hide Commits;
    hide IsCancellationTerminal;
    hide FinishValueOf;
    if ops == [] {
    } else {
      OpenItemsAreNotReopened(Apply(s, ops[0]), ops[1..], j);
    }
  }

  lemma ClaimedOpsFinishNothing(c: Scene)
    ensures FinishesOpenItems(ClaimedOps(c))
  {
    hide CreatedJob;
    hide PreviewedJob;
    hide AwaitingJob;
    hide ScheduledJob;
    hide RunningJob;
    hide IsCancellationTerminal;
  }

  lemma ExpiredOpsReopenNothing(c: Scene, id: string)
    requires IsScene(c)
    ensures NeverReopens(EMPTY, ExpiredOps(c, id), c.k.job)
  {
    hide NeverReopens;
    hide ClaimedOps;
    hide ClaimedJob;
    hide ReportedJob;
    hide RequestedJob;
    hide CancelingJob;
    hide Expiry;
    hide Report;
    hide IsScene;
    ReportedFacts(c, PendingPayment);
    ClaimedFacts(c);
    hide FirstClaim;
    hide ReportedItem;
    ClaimedOpsFinishNothing(c);
    OpenItemsAreNotReopened(EMPTY, ExpiredOps(c, id), c.k.job);
  }

  lemma OvertakenRetryMakes(s: System, c: Scene, id: string)
    requires IsScene(c) && Shows(s, c.k, ExpiredJob(c, id), ExpiredItem(c, id)) && ExpiredJob(c, id).state == Canceling
    requires (c.k.job, CancelingJob(c)) in s.jobCopies && (c.k, OpenItem(c)) in s.itemCopies
    requires ValidJob(CancelingJob(c)) && ValidItem(OpenItem(c)) && CancelingJob(c).state == Canceling
    ensures var op, j := OvertakenRetry(c, id), c.k.job;
            && Commits(s, op) && Reopens(ExpiredJob(c, id), j, op) && Spoils(ExpiredJob(c, id), j, op)
            && c.k in Effect(s, op).items && Effect(s, op).items[c.k].state == PendingPayment
  {
    hide IsScene;
    hide Commits;
    hide Effect;
    hide Inv;
    hide ValidJob;
    hide ValidItem;
    hide CancelingJob;
    hide OpenItem;
    hide ExpiredItem;
    hide ExpiredJob;
    hide FinishValueOf;
    hide FinishedItem;
    hide FinishedJob;
    hide FinishCommits;
    hide MayFinishFrom;
    ReopeningValue(c, id);
    var v := FinishValueOf(FirstRetry(c)).value;
    CurrentFinishCommits(s, c.k, ExpiredJob(c, id), ExpiredItem(c, id), FirstRetry(c));
    FinishMakes(s, c.k, ExpiredJob(c, id), ExpiredItem(c, id), FirstRetry(c), FinishedItem(ExpiredItem(c, id), v));
  }

  /** A cancellation retry overtaken by the webhook that ends its item commits and opens the item again:
      the remaining counter of the canceling job is wrong from then on, so its row can never be loaded
      again and the cancellation never ends. */
  lemma ReopeningIsReachable(c: Scene, id: string)
    requires IsScene(c)
    ensures var s := Run(EMPTY, ExpiredOps(c, id)); var op := OvertakenRetry(c, id); var j := c.k.job;
            && NeverReopens(EMPTY, ExpiredOps(c, id), j) && Commits(s, op) && j in s.jobs && Reopens(s.jobs[j], j, op)
            && var t := Effect(s, op);
               && j in t.jobs && !RemainingExact(t.jobs[j], j, t.items) && !ValidJob(t.jobs[j])
               && c.k in t.items && t.items[c.k].state == PendingPayment
    ensures forall later :: var s := Run(EMPTY, ExpiredOps(c, id) + [OvertakenRetry(c, id)]); var t := Run(s, later);
              c.k.job in t.jobs && c.k.job in s.jobs && t.jobs[c.k.job] == s.jobs[c.k.job]
  {
    hide Run;
    hide NeverReopens;
    hide ExpiredOps;
    hide OvertakenRetry;
    hide ExpiredJob;
    hide ExpiredItem;
    hide CancelingJob;
    hide OpenItem;
    hide Commits;
    hide Effect;
    hide Reopens;
    hide Spoils;
    hide RemainingExact;
    hide Inv;
    hide ValidJob;
    hide ValidItem;
    hide IsScene;
    var s, op, j := Run(EMPTY, ExpiredOps(c, id)), OvertakenRetry(c, id), c.k.job;
    ExpiredRun(c, id);
    ExpiredOpsReopenNothing(c, id);
    OvertakenRetryMakes(s, c, id);
    RemainingBreaksExactlyOnReopen(ExpiredOps(c, id), op, j);
    JobStaysValidExactly(s, op, j);
    Extend(ExpiredOps(c, id), op);
    forall later ensures var s := Run(EMPTY, ExpiredOps(c, id) + [op]); var t := Run(s, later);
                         j in t.jobs && j in s.jobs && t.jobs[j] == s.jobs[j]
    {
      RefusedJobsNeverChange(ExpiredOps(c, id) + [op], later, j);
    }
  }

  // ---------------------------------------------------------------- an approval that did not wait

  /** The provider's webhook that the update went through, delivered before the worker reports. */
  function EarlyWebhook(c: Scene, id: string): Caller { WebhookUpdate(ClaimedJob(c), FirstClaim(c), true, 0, 1, Event(10, id)) }

  function UpdatedItem(c: Scene, id: string): Item {
    FirstClaim(c).(state := PendingUpdateApplied, holder := None, lastEvent := Some(Event(10, id)))
  }

  function UpdatedJob(c: Scene, id: string): Job { MetricsJob(ClaimedJob(c), FirstClaim(c), UpdatedItem(c, id)) }

  function ReopenedItem(c: Scene, id: string): Item { UpdatedItem(c, id).(state := PendingPayment) }

  function ReopenedJob(c: Scene, id: string): Job { MetricsJob(UpdatedJob(c, id), UpdatedItem(c, id), ReopenedItem(c, id)) }

  function UpdatedOps(c: Scene, id: string): seq<Op> {
    ClaimedOps(c) + [FinishItem(c.k, ClaimedJob(c), FirstClaim(c), EarlyWebhook(c, id))]
  }

  /** The worker's answer, that the payment is still open, arrives after the webhook. */
  function TakeBackOps(c: Scene, id: string): seq<Op> {
    UpdatedOps(c, id) + [FinishItem(c.k, UpdatedJob(c, id), UpdatedItem(c, id), Report(PendingPayment))]
  }

  lemma EarlyWebhookOf(job: Job, i: Item, e: Event)
    requires job.state == Running && job.createdAt <= e.createdAt && i.state == Applying && i.lastEvent.None?
    ensures FinishValueOf(WebhookUpdate(job, i, true, 0, 1, e))
         == Some(FinishValue(i.attempts, PendingUpdateApplied, None, i.scheduleId, None, None, None, Some(e)))
  {
  }

  lemma EarlyWebhookValue(c: Scene, id: string)
    requires IsScene(c)
    ensures var v, becomes := FinishValueOf(EarlyWebhook(c, id)), UpdatedItem(c, id);
            && v.Some? && v.value.attempts == 1 && FinishedItem(FirstClaim(c), v.value) == becomes && ValidItem(becomes)
            && ChangesMetrics(ClaimedJob(c), FirstClaim(c), becomes) && !SpoilsByFinish(ClaimedJob(c), FirstClaim(c), becomes)
  {
    hide ClaimedJob;
    hide FirstClaim;
    hide IsScene;
    hide FinishValueOf;
    ClaimedFacts(c);
    EarlyWebhookOf(ClaimedJob(c), FirstClaim(c), Event(10, id));
  }

  lemma LateReportMakes(i: Item, was: Item, job: Job, id: string, v: FinishValue)
    requires i.reason.None? && i.attempts == 1 && i.scheduleId.None? && i.rollbackGuard.None? && i.nextAttemptAt.None?
    requires i.cancellationAttempts == 0 && i.cancellationNextAttemptAt.None? && job.state == Running
    requires was == i.(state := PendingUpdateApplied, holder := None, lastEvent := Some(Event(10, id)))
    requires v == FinishValue(1, PendingPayment, None, None, Some(None), None, None, None)
    ensures MayFinishFrom(was.state) && was.attempts == v.attempts && was.holder.None?
    ensures FinishedItem(was, v) == was.(state := PendingPayment) && ValidItem(was.(state := PendingPayment))
    ensures ChangesMetrics(job, was, was.(state := PendingPayment)) && !SpoilsByFinish(job, was, was.(state := PendingPayment))
  {
  }

  lemma LateReportValue(c: Scene, id: string)
    requires IsScene(c)
    ensures var v, was := FinishValueOf(Report(PendingPayment)), UpdatedItem(c, id);
            && v.Some? && MayFinishFrom(was.state) && was.attempts == v.value.attempts && was.holder.None?
            && FinishedItem(was, v.value) == ReopenedItem(c, id) && ValidItem(ReopenedItem(c, id))
            && ChangesMetrics(UpdatedJob(c, id), was, ReopenedItem(c, id)) && !SpoilsByFinish(UpdatedJob(c, id), was, ReopenedItem(c, id))
  {
    hide ClaimedJob;
    hide FirstClaim;
    hide IsScene;
    hide MetricsJob;
    hide MayFinishFrom;
    hide FinishValueOf;
    hide FinishedItem;
    hide ValidItem;
    hide ChangesMetrics;
    hide SpoilsByFinish;
    ClaimedFacts(c);
    ReportOf(PendingPayment);
    MetricsFields(ClaimedJob(c), FirstClaim(c), UpdatedItem(c, id));
    LateReportMakes(FirstClaim(c), UpdatedItem(c, id), UpdatedJob(c, id), id, FinishValueOf(Report(PendingPayment)).value);
  }

  /** The canary counts as completed although it is open again. */
  lemma ReopenedPauses(c: Scene, id: string)
    requires IsScene(c) && c.canarySize == 1
    ensures PausesForCanary(ReopenedJob(c, id)) && ReopenedJob(c, id).state == Running && ReopenedJob(c, id).counts.pending == 1
    ensures ReopenedItem(c, id).attempts == 1 && ReopenedItem(c, id).state == PendingPayment
  {
    hide ClaimedJob;
    hide FirstClaim;
    hide MetricsJob;
    ClaimedFacts(c);
    MetricsFields(ClaimedJob(c), FirstClaim(c), UpdatedItem(c, id));
    MetricsFields(UpdatedJob(c, id), UpdatedItem(c, id), ReopenedItem(c, id));
  }

  lemma ReopenedRun(c: Scene, id: string)
    requires IsScene(c)
    ensures Shows(Run(EMPTY, TakeBackOps(c, id)), c.k, ReopenedJob(c, id), ReopenedItem(c, id))
  {
    hide Run;
    hide Apply;
    hide Commits;
    hide Inv;
    hide ValidJob;
    hide ValidItem;
    hide IsScene;
    hide ClaimedOps;
    hide ClaimedJob;
    hide FirstClaim;
    hide UpdatedItem;
    hide ReopenedItem;
    hide FinishValueOf;
    hide FinishedItem;
    hide ChangesMetrics;
    hide MetricsJob;
    hide SpoilsByFinish;
    hide MayFinishFrom;
    EarlyWebhookValue(c, id);
    LateReportValue(c, id);
    ClaimedRun(c);
    LeasedFinishRun(c, EarlyWebhook(c, id), UpdatedItem(c, id));
    var report := FinishItem(c.k, UpdatedJob(c, id), UpdatedItem(c, id), Report(PendingPayment));
    Extend(UpdatedOps(c, id), report);
    OpenFinishStep(Run(EMPTY, UpdatedOps(c, id)), c.k, UpdatedJob(c, id), UpdatedItem(c, id), Report(PendingPayment), ReopenedItem(c, id));
  }

  /** A worker's answer that arrives after the webhook takes the item back, so a job can pause for its
      approval while its only canary is still open: that condition of PausesExactlyAfterFirstAttempts
      cannot be dropped. */
  lemma ApprovalNeedNotWaitAfterTakeBack(c: Scene, id: string)
    requires IsScene(c) && c.canarySize == 1
    ensures var s := Run(EMPTY, TakeBackOps(c, id)); var j := c.k.job;
            && j in s.jobs && Commits(s, ContinueExecution(j, s.jobs[j])) && !EndedOnFirstAttempt(j, s.items)
  {
    hide Run;
    hide Inv;
    hide ValidJob;
    ReopenedRun(c, id);
    ReopenedPauses(c, id);
    hide IsScene;
    hide ReopenedJob;
    hide ReopenedItem;
    hide TakeBackOps;
    var s := Run(EMPTY, TakeBackOps(c, id));
    assert s.jobs[c.k.job] == ReopenedJob(c, id) && s.items[c.k] == ReopenedItem(c, id);
    ContinueIsPause(s, c.k.job);
    assert c.k in Attempted(c.k.job, s.items);
  }

  // ---------------------------------------------------------------- an older webhook that wins

  /** A webhook that an applied item's update went through, tested against the item before any webhook. */
  function Confirmation(c: Scene, e: Event): Caller {
    WebhookUpdate(ReportedJob(c, ItemState.Applied), ReportedItem(c, ItemState.Applied), true, 0, 1, e)
  }

  function ConfirmedItem(c: Scene, e: Event): Item {
    ReportedItem(c, ItemState.Applied).(state := PendingUpdateApplied, lastEvent := Some(e))
  }

  function ConfirmedOps(c: Scene, e: Event): seq<Op> {
    ReportedOps(c, ItemState.Applied)
    + [FinishItem(c.k, ReportedJob(c, ItemState.Applied), ReportedItem(c, ItemState.Applied), Confirmation(c, e))]
  }

  /** The value of a confirmation for an applied item without a webhook. */
  lemma ConfirmationOf(job: Job, i: Item, e: Event)
    requires job.state == Running && job.createdAt <= e.createdAt && i.state == ItemState.Applied && i.lastEvent.None?
    ensures FinishValueOf(WebhookUpdate(job, i, true, 0, 1, e))
         == Some(FinishValue(i.attempts, PendingUpdateApplied, None, i.scheduleId, None, None, None, Some(e)))
  {
  }

  lemma ConfirmationValue(c: Scene, e: Event, read: Item, before: Event)
    requires IsScene(c) && 1 <= e.createdAt && (read == ReportedItem(c, ItemState.Applied) || read == ConfirmedItem(c, before))
    ensures var v := FinishValueOf(Confirmation(c, e));
            && v.Some? && MayFinishFrom(read.state) && read.attempts == v.value.attempts && read.holder.None?
            && FinishedItem(read, v.value) == ConfirmedItem(c, e) && ValidItem(ConfirmedItem(c, e))
            && !ChangesMetrics(ReportedJob(c, ItemState.Applied), read, ConfirmedItem(c, e))
            && !SpoilsByFinish(ReportedJob(c, ItemState.Applied), read, ConfirmedItem(c, e))
            && v.value.event == Some(e)
  {
    hide ReportedJob;
    hide ReportedItem;
    hide FinishValueOf;
    ReportedFacts(c, ItemState.Applied);
    ConfirmationOf(ReportedJob(c, ItemState.Applied), ReportedItem(c, ItemState.Applied), e);
  }

  /** Two confirmations delivered in the wrong order, both tested against the item before the first of
      them is stored: the older one commits last and replaces the newer one. */
  lemma OlderWebhookReplacesNewer(c: Scene, newer: Event, older: Event)
    requires IsScene(c) && 1 <= older.createdAt < newer.createdAt
    ensures var s := Run(EMPTY, ConfirmedOps(c, newer));
            var op := FinishItem(c.k, ReportedJob(c, ItemState.Applied), ConfirmedItem(c, newer), Confirmation(c, older));
            && Commits(s, op) && c.k in s.items && TakesEventBack(s.items[c.k], c.k, op)
            && s.items[c.k].lastEvent == Some(newer) && c.k in Apply(s, op).items && Apply(s, op).items[c.k].lastEvent == Some(older)
  {
    hide Run;
    hide Apply;
    hide Commits;
    hide IsScene;
    hide ReportedOps;
    hide ReportedJob;
    hide ReportedItem;
    hide ConfirmedItem;
    hide FinishValueOf;
    hide FinishedItem;
    hide ValidItem;
    hide SpoilsByFinish;
    hide ChangesMetrics;
    hide MayFinishFrom;
    hide TakesEventBack;
    hide Inv;
    hide ValidJob;
    var job, item := ReportedJob(c, ItemState.Applied), ReportedItem(c, ItemState.Applied);
    var start := Run(EMPTY, ReportedOps(c, ItemState.Applied));
    var first := FinishItem(c.k, job, item, Confirmation(c, newer));
    ReportedRun(c, ItemState.Applied);
    ConfirmationValue(c, newer, item, newer);
    ConfirmationValue(c, older, ConfirmedItem(c, newer), newer);
    ConfirmationEvents(c, newer, older);
    OpenFinishStep(start, c.k, job, item, Confirmation(c, newer), ConfirmedItem(c, newer));
    Extend(ReportedOps(c, ItemState.Applied), first);
    OpenFinishStep(Apply(start, first), c.k, job, ConfirmedItem(c, newer), Confirmation(c, older), ConfirmedItem(c, older));
  }

  lemma ConfirmationEvents(c: Scene, newer: Event, older: Event)
    requires IsScene(c) && 1 <= older.createdAt < newer.createdAt
    ensures ConfirmedItem(c, newer).lastEvent == Some(newer) && ConfirmedItem(c, older).lastEvent == Some(older)
    ensures var op := FinishItem(c.k, ReportedJob(c, ItemState.Applied), ConfirmedItem(c, newer), Confirmation(c, older));
            TakesEventBack(ConfirmedItem(c, newer), c.k, op)
  {
    ConfirmationValue(c, older, ConfirmedItem(c, newer), newer);
  }
}
