/**
 Runs after which a job or an item can never move again. Each starts from the empty table and takes
 only steps that a worker or an operator sends.
 */
module MigrationDeadEnds {
  import opened Types
  import opened MigrationRecords
  import opened MigrationProtocol
  import opened MigrationTotals
  import opened MigrationInvariant
  import opened MigrationSteps
  import opened MigrationCounters
  import opened MigrationLoads
  import opened MigrationStuck
  import opened MigrationStore
  import opened MigrationScenes

  // ---------------------------------------------------------------- a cancel that leaves an unreadable job

  function CancelAwaiting(c: Scene): Op { Control(c.k.job, AwaitingJob(c), 2, ControlAction.Cancel, false) }

  function UnreadableJob(c: Scene): Job { AwaitingJob(c).(state := Canceled, revision := 3) }

  lemma CancelAwaitingUpdate(c: Scene)
    requires IsScene(c)
    ensures JobUpdate(CancelAwaiting(c)) == Some((c.k.job, AwaitingJob(c), UnreadableJob(c)))
    ensures Spoils(AwaitingJob(c), c.k.job, CancelAwaiting(c))
  {
    hide IsFreshPending;
  }

  /** A cancel of a job that waits for approval with an open item commits, and leaves a row that can
      never be loaded again nor changed. */
  lemma CanceledJobIsUnreadable(c: Scene)
    requires IsScene(c)
    ensures var s := Run(EMPTY, AwaitingOps(c)); var op := CancelAwaiting(c); var j := c.k.job;
            && Commits(s, op) && j in s.jobs && ValidJob(s.jobs[j])
            && var t := Effect(s, op);
               && j in t.jobs && t.jobs[j].state == Canceled && !ValidJob(t.jobs[j]) && c.k in t.items && t.items[c.k].state == Pending
    ensures forall later :: var t := Run(Run(EMPTY, AwaitingOps(c) + [CancelAwaiting(c)]), later);
              c.k.job in t.jobs && t.jobs[c.k.job] == UnreadableJob(c)
  {
    hide Run;
    hide Effect;
    hide Commits;
    hide Inv;
    hide ValidJob;
    hide ValidItem;
    hide AwaitingOps;
    hide CancelAwaiting;
    hide AwaitingJob;
    hide Spoils;
    var s, j := Run(EMPTY, AwaitingOps(c)), c.k.job;
    AwaitingRun(c);
    CancelAwaitingUpdate(c);
    hide JobUpdate;
    JobEffect(s, c.k, AwaitingJob(c), c.item, CancelAwaiting(c), UnreadableJob(c));
    JobStaysValidExactly(s, CancelAwaiting(c), j);
    Extend(AwaitingOps(c), CancelAwaiting(c));
    forall later ensures var t := Run(Run(EMPTY, AwaitingOps(c) + [CancelAwaiting(c)]), later);
                         j in t.jobs && t.jobs[j] == UnreadableJob(c)
    {
      RefusedJobsNeverChange(AwaitingOps(c) + [CancelAwaiting(c)], later, j);
    }
  }

  // ---------------------------------------------------------------- a retry that is claimed again

  /** The worker asks for a retry of its claim at time 3. */
  function AskForRetry(): Caller { RetryItem(1, Some("provider-unknown"), Some(3), None) }

  function WaitingItem(c: Scene): Item {
    FirstClaim(c).(state := RetryableFailure, reason := Some("provider-unknown"), nextAttemptAt := Some(3), holder := None)
  }

  function ClaimedRetry(c: Scene): Item { ClaimedItem(WaitingItem(c), CanaryRequest(c, 3)) }

  function WaitingOps(c: Scene): seq<Op> {
    ClaimedOps(c) + [FinishItem(c.k, ClaimedJob(c), FirstClaim(c), AskForRetry())] + [Tick(2)]
  }

  function StuckOps(c: Scene): seq<Op> {
    WaitingOps(c) + [ClaimItem(c.k, ClaimedJob(c), WaitingItem(c), CanaryRequest(c, 3))]
  }

  lemma RetryValueOf(c: Scene)
    requires IsScene(c)
    ensures var v := FinishValueOf(AskForRetry());
            && v.Some? && v.value.attempts == 1 && FinishedItem(FirstClaim(c), v.value) == WaitingItem(c) && ValidItem(WaitingItem(c))
            && !ChangesMetrics(ClaimedJob(c), FirstClaim(c), WaitingItem(c)) && !SpoilsByFinish(ClaimedJob(c), FirstClaim(c), WaitingItem(c))
  {
    hide ClaimedJob;
    hide FirstClaim;
    hide IsScene;
    ClaimedFacts(c);
  }

  lemma WaitingRun(c: Scene)
    requires IsScene(c)
    ensures var s := Run(EMPTY, WaitingOps(c));
            Shows(s, c.k, ClaimedJob(c), WaitingItem(c)) && s.slots == map[] && s.claims == map[] && s.now == 3
  {
    hide Run;
    hide Apply;
    hide Shows;
    hide IsScene;
    hide ClaimedOps;
    hide ClaimedJob;
    hide FirstClaim;
    hide WaitingItem;
    hide FinishValueOf;
    hide FinishedItem;
    hide ChangesMetrics;
    hide SpoilsByFinish;
    hide ValidItem;
    RetryValueOf(c);
    LeasedFinishRun(c, AskForRetry(), WaitingItem(c));
    var ops := ClaimedOps(c) + [FinishItem(c.k, ClaimedJob(c), FirstClaim(c), AskForRetry())];
    Extend(ops, Tick(2));
    TickStep(Run(EMPTY, ops), c.k, ClaimedJob(c), WaitingItem(c), 2);
  }

  lemma RetryIsClaimed(s: System, c: Scene)
    requires IsScene(c) && 2 <= c.canarySize && Holds(s, c.k, ClaimedJob(c), WaitingItem(c))
    requires s.slots == map[] && s.claims == map[] && s.now == 3
    ensures ClaimCommits(s, c.k, ClaimedJob(c), WaitingItem(c), CanaryRequest(c, 3)) && ClaimsCanary(WaitingItem(c), CanaryRequest(c, 3))
    ensures CanaryClaimedJob(ClaimedJob(c)).state == Running && WaitingItem(c).state == RetryableFailure
    ensures ClaimedRetry(c).holder == Some(Holder(c.account, 0, 33))
  {
  }

  lemma StuckRun(c: Scene)
    requires IsScene(c) && 2 <= c.canarySize
    ensures var s := Run(EMPTY, StuckOps(c));
            && Holds(s, c.k, CanaryClaimedJob(ClaimedJob(c)), ClaimedRetry(c)) && !ValidItem(ClaimedRetry(c))
            && ValidJob(CanaryClaimedJob(ClaimedJob(c))) && CanaryClaimedJob(ClaimedJob(c)).state == Running
            && ClaimedRetry(c).holder == Some(Holder(c.account, 0, 33))
  {
    hide Run;
    hide Commits;
    hide Effect;
    hide Inv;
    hide ValidJob;
    hide ValidItem;
    hide Holds;
    hide IsScene;
    hide WaitingOps;
    hide ClaimedJob;
    hide WaitingItem;
    hide ClaimedItem;
    hide CanaryClaimedJob;
    hide ClaimCommits;
    hide ClaimsCanary;
    var s := Run(EMPTY, WaitingOps(c));
    var op := ClaimItem(c.k, ClaimedJob(c), WaitingItem(c), CanaryRequest(c, 3));
    WaitingRun(c);
    RetryIsClaimed(s, c);
    Extend(WaitingOps(c), op);
    ClaimMakes(s, c.k, ClaimedJob(c), WaitingItem(c), CanaryRequest(c, 3));
    ClaimedRetryRow(s, c, op);
  }

  lemma ClaimedRetryRow(s: System, c: Scene, op: Op)
    requires Shows(s, c.k, ClaimedJob(c), WaitingItem(c)) && op == ClaimItem(c.k, ClaimedJob(c), WaitingItem(c), CanaryRequest(c, 3))
    requires Commits(s, op) && Holds(Effect(s, op), c.k, CanaryClaimedJob(ClaimedJob(c)), ClaimedRetry(c))
    requires WaitingItem(c).state == RetryableFailure
    ensures ValidJob(CanaryClaimedJob(ClaimedJob(c))) && !ValidItem(ClaimedRetry(c))
  {
    hide Commits;
    hide Effect;
    hide Inv;
    hide ValidJob;
    hide ValidItem;
    hide ClaimedJob;
    hide WaitingItem;
    hide ClaimedRetry;
    hide CanaryClaimedJob;
    JobStaysValidExactly(s, op, c.k.job);
    ItemStaysValidExactly(s, op, c.k);
  }

  /** A canary that asks for a retry and is claimed again is stuck: in every continuation its row stays as
      it is, its job has a pending item and never ends, and no claim under its account takes its
      subscription, in whatever job. */
  lemma StuckRetryIsReachable(c: Scene)
    requires IsScene(c) && 2 <= c.canarySize
    ensures var s := Run(EMPTY, StuckOps(c));
            IsStuck(s, c.k) && c.k.job in s.jobs && s.jobs[c.k.job].state == Running && ValidJob(s.jobs[c.k.job])
    ensures forall later :: var t := Run(Run(EMPTY, StuckOps(c)), later);
              && c.k in t.items && t.items[c.k] == ClaimedRetry(c)
              && c.k.job in t.jobs && !HasEnded(t.jobs[c.k.job].state) && 1 <= t.jobs[c.k.job].counts.pending
    ensures forall later, op: Op | op.ClaimItem? && op.k.subscription == c.k.subscription && op.request.account == c.account ::
              !Commits(Run(Run(EMPTY, StuckOps(c)), later), op)
  {
    hide Run;
    hide Commits;
    hide ValidJob;
    hide ValidItem;
    hide IsScene;
    hide ClaimedJob;
    hide ClaimedRetry;
    hide CanaryClaimedJob;
    hide StuckOps;
    StuckRun(c);
    forall later ensures var t := Run(Run(EMPTY, StuckOps(c)), later);
              && c.k in t.items && t.items[c.k] == ClaimedRetry(c)
              && c.k.job in t.jobs && !HasEnded(t.jobs[c.k.job].state) && 1 <= t.jobs[c.k.job].counts.pending
    {
      StuckItemsNeverChange(StuckOps(c), later, c.k);
      StuckJobsNeverEnd(StuckOps(c), later, c.k);
    }
    forall later, op: Op | op.ClaimItem? && op.k.subscription == c.k.subscription && op.request.account == c.account
      ensures !Commits(Run(Run(EMPTY, StuckOps(c)), later), op)
    {
      StuckSubscriptionsAreNeverClaimed(StuckOps(c), later, c.k, op);
    }
  }

  // ---------------------------------------------------------------- a slot that another item takes over

  /** A second item of the job, and the preview of both. */
  datatype Pair = Pair(c: Scene, x: ItemKey, y: Item, preview: Aggregate)

  predicate IsPair(p: Pair) {
    && IsScene(p.c) && 2 <= p.c.canarySize && p.x.job == p.c.k.job && p.x != p.c.k && IsFreshPending(p.y)
    && IsPairPreview(p.preview, p.c.preview, p.y)
  }

  predicate IsPairPreview(h: Aggregate, g: Aggregate, i: Item) {
    h.itemCount == 2 && h.digestA == g.digestA + i.digest.a && h.digestB == g.digestB + i.digest.b && HasPending(h.counts, 2)
  }

  function PairJob(p: Pair): Job { PreviewedJob(p.c).(preview := p.preview) }

  function PairAwaitingJob(p: Pair): Job { CompletedPreviewJob(PairJob(p), 100) }

  function PairScheduledJob(p: Pair): Job { PairAwaitingJob(p).(state := Scheduled, revision := 3, tax := Some(p.c.tax)) }

  function PairRunningJob(p: Pair): Job { PairScheduledJob(p).(state := Running, revision := 4) }

  function OnceClaimedJob(p: Pair): Job { CanaryClaimedJob(PairRunningJob(p)) }

  function TwiceClaimedJob(p: Pair): Job { CanaryClaimedJob(OnceClaimedJob(p)) }

  function PairRequestedJob(p: Pair): Job { ControlledJob(TwiceClaimedJob(p), CancelRequested, ControlAction.Cancel) }

  function PairCancelingJob(p: Pair): Job {
    var j := PairRequestedJob(p);
    j.(state := Canceling, revision := j.revision + 1, cancellationRemaining := j.counts.pending + j.appliedItems)
  }

  function TakingClaim(p: Pair): Item { ClaimedItem(p.y, CanaryRequest(p.c, 31)) }

  function PairScheduledOps(p: Pair): seq<Op> {
    var create := CreateJob(p.c.k.job, p.c.canarySize, 1, NextRenewal, 1);
    var put := PutPreviewItem(p.c.k, CreatedJob(p.c), p.c.item);
    var second := PutPreviewItem(p.x, PreviewedJob(p.c), p.y);
    var complete := CompletePreview(p.x.job, PairJob(p), 1, p.preview, p.preview.counts, 100);
    [create] + [put] + [second] + [complete] + [ScheduleExecution(p.x.job, PairAwaitingJob(p), 1, p.preview, 1, p.c.tax)]
  }

  /** The first item is claimed, its lease runs out, and the second one takes over its slot. */
  function TakenOps(p: Pair): seq<Op> {
    PairScheduledOps(p) + [StartExecution(p.x.job, PairScheduledJob(p), 3)]
    + [ClaimItem(p.c.k, PairRunningJob(p), p.c.item, CanaryRequest(p.c, 1))] + [Tick(30)]
    + [ClaimItem(p.x, OnceClaimedJob(p), p.y, CanaryRequest(p.c, 31))]
  }

  function BlockedOps(p: Pair): seq<Op> {
    TakenOps(p) + [Control(p.x.job, TwiceClaimedJob(p), 4, ControlAction.Cancel, false)] + [BeginCancel(p.x.job, PairRequestedJob(p), 5)]
  }

  /** Both items and their job. */
  ghost predicate ShowsBoth(s: System, p: Pair, job: Job, first: Item, second: Item) {
    Shows(s, p.x, job, second) && Holds(s, p.c.k, job, first) && ValidItem(first)
  }

  lemma BothShown(s: System, p: Pair, job: Job, first: Item, second: Item)
    requires IsPair(p) && Inv(s) && ValidJob(job) && ValidItem(first) && ValidItem(second)
    requires Holds(s, p.c.k, job, first) && Holds(s, p.x, job, second)
    ensures ShowsBoth(s, p, job, first, second) && Shows(s, p.c.k, job, first)
  {
    hide Inv;
    hide ValidJob;
    hide ValidItem;
    hide IsScene;
  }

  lemma PairIsAdded(p: Pair)
    requires IsPair(p)
    ensures PreviewedJob(p.c).state == Previewing && PreviewedJob(p.c).preview == p.c.preview
    ensures AddPreviewItem(p.c.preview, p.y) == Some(p.preview) && ValidAggregate(p.preview)
    ensures PairJob(p).state == Previewing && PairJob(p).revision == 1 && PairJob(p).preview == p.preview
  {
    hide IsFreshPending;
    hide AddPreviewItem;
    hide ValidAggregate;
    hide CreatedJob;
    hide PreviewedJob;
    CreatedIsEmpty(p.c);
    SecondItemIsAdded(p.c.preview, p.preview, p.c.item, p.y);
  }

  lemma PairIsValid(g: Aggregate, h: Aggregate, i: Item, y: Item)
    requires ValidDigest(i.digest) && ValidDigest(y.digest) && IsPreviewOf(g, i) && IsPairPreview(h, g, y)
    ensures ValidAggregate(h)
  {
  }

  lemma SecondItemIsAdded(g: Aggregate, h: Aggregate, i: Item, y: Item)
    requires IsFreshPending(i) && IsFreshPending(y) && IsPreviewOf(g, i) && IsPairPreview(h, g, y)
    ensures ValidAggregate(h) && AddPreviewItem(g, y) == Some(h)
  {
    hide FreshItem;
    hide ValidDigest;
    hide AddPreviewItem;
    hide ValidAggregate;
    PreviewIsValid(g, i);
    PairIsValid(g, h, i, y);
    PendingItemIsAdded(g, h, y);
  }

  lemma PairUpdates(p: Pair)
    ensures JobUpdate(ScheduleExecution(p.x.job, PairAwaitingJob(p), 1, p.preview, 1, p.c.tax))
         == Some((p.x.job, PairAwaitingJob(p), PairScheduledJob(p)))
    ensures JobUpdate(StartExecution(p.x.job, PairScheduledJob(p), 3)) == Some((p.x.job, PairScheduledJob(p), PairRunningJob(p)))
  {
  }

  lemma PairScheduledRun(p: Pair)
    requires IsPair(p)
    ensures var s := Run(EMPTY, PairScheduledOps(p)); ShowsBoth(s, p, PairScheduledJob(p), p.c.item, p.y) && SameLeases(EMPTY, s)
  {
    hide Run;
    hide Apply;
    hide Commits;
    hide JobUpdate;
    hide Inv;
    hide ValidJob;
    hide ValidItem;
    hide AddPreviewItem;
    hide ValidAggregate;
    hide IsFreshPending;
    hide CreatedJob;
    hide PreviewedJob;
    hide PairJob;
    hide CompletedPreviewJob;
    hide PairScheduledJob;
    hide NewJob;
    var c := p.c;
    CreatedIsEmpty(c);
    FirstItemIsAdded(c.item, CreatedJob(c).preview, c.preview);
    PairIsAdded(p);
    CreateStep(c);
    CompleteUpdate(p.x.job, PairJob(p), p.preview, 1, 100);
    PairUpdates(p);
    var create := CreateJob(c.k.job, c.canarySize, 1, NextRenewal, 1);
    var put := PutPreviewItem(c.k, CreatedJob(c), c.item);
    var second := PutPreviewItem(p.x, PreviewedJob(c), p.y);
    var complete := CompletePreview(p.x.job, PairJob(p), 1, p.preview, p.preview.counts, 100);
    var schedule := ScheduleExecution(p.x.job, PairAwaitingJob(p), 1, p.preview, 1, c.tax);
    assert [] + [create] == [create];
    NoSteps(EMPTY);
    Extend([], create);
    Extend([create], put);
    Extend([create] + [put], second);
    Extend([create] + [put] + [second], complete);
    Extend([create] + [put] + [second] + [complete], schedule);
    var s1 := Run(EMPTY, [create] + [put]);
    PutStep(Apply(EMPTY, create), c.k, CreatedJob(c), c.item, c.preview);
    SecondPut(s1, p);
    var s2 := Run(EMPTY, [create] + [put] + [second]);
    JobStep(s2, p.x, PairJob(p), p.y, complete, PairAwaitingJob(p));
    JobStep(Run(EMPTY, [create] + [put] + [second] + [complete]), p.x, PairAwaitingJob(p), p.y, schedule, PairScheduledJob(p));
  }

  lemma SecondPut(s: System, p: Pair)
    requires IsPair(p) && Shows(s, p.c.k, PreviewedJob(p.c), p.c.item) && s.items == map[p.c.k := p.c.item] && SameLeases(EMPTY, s)
    ensures var t := Apply(s, PutPreviewItem(p.x, PreviewedJob(p.c), p.y));
            ShowsBoth(t, p, PairJob(p), p.c.item, p.y) && SameLeases(EMPTY, t)
  {
    hide Inv;
    hide Apply;
    hide ValidJob;
    hide ValidItem;
    hide AddPreviewItem;
    hide IsFreshPending;
    hide PreviewedJob;
    hide ValidAggregate;
    PairIsAdded(p);
    PutStep(s, p.x, PreviewedJob(p.c), p.y, p.preview);
  }

  lemma PairFacts(p: Pair)
    requires IsPair(p)
    ensures var job := PairRunningJob(p);
            && job.state == Running && job.revision == 4 && !job.mutationStarted && job.canaryClaims == 0 && job.accountConcurrency == 1
            && job.canarySize == p.c.canarySize
  {
    hide IsPair;
  }

  lemma OnceClaimedFacts(p: Pair)
    requires IsPair(p)
    ensures OnceClaimedJob(p).state == Running && OnceClaimedJob(p).revision == 4 && !OnceClaimedJob(p).mutationStarted
    ensures OnceClaimedJob(p).canaryClaims == 1 && OnceClaimedJob(p).accountConcurrency == 1 && OnceClaimedJob(p).canarySize == p.c.canarySize
    ensures TwiceClaimedJob(p).state == Running && TwiceClaimedJob(p).revision == 4
  {
    hide PairRunningJob;
    PairFacts(p);
  }

  /** A canary claim of a pending item under a free slot, with its subscription unclaimed. */
  lemma PendingClaimCommits(s: System, k: ItemKey, job: Job, i: Item, r: ClaimRequest)
    requires Holds(s, k, job, i) && IsFreshPending(i) && job.state == Running && job.revision == r.expectedRevision && !job.mutationStarted
    requires job.canaryClaims < job.canarySize && 0 <= r.slot < job.accountConcurrency
    requires r.canaryBatch && r.leaseSeconds == 30 && 1 <= r.now <= s.now && r.now <= 100
    requires SlotFree(s, SlotKey(r.account, r.slot), r.now) && ClaimKey(r.account, k.subscription) !in s.claims
    ensures ClaimCommits(s, k, job, i, r) && ClaimsCanary(i, r) && i.state == Pending && ClaimedAttempt(i) == 1
    ensures ClaimedItem(i, r).state == Applying
  {
  }

  /** The first claim, with the second item waiting. */
  lemma OnceClaimed(s: System, p: Pair)
    requires IsPair(p) && ShowsBoth(s, p, PairRunningJob(p), p.c.item, p.y) && SameLeases(EMPTY, s)
    ensures var t := Apply(s, ClaimItem(p.c.k, PairRunningJob(p), p.c.item, CanaryRequest(p.c, 1)));
            ShowsBoth(t, p, OnceClaimedJob(p), FirstClaim(p.c), p.y) && Leased(t, p.c, 1, 31) && t.now == 1
  {
    hide Inv;
    hide Apply;
    hide ValidJob;
    hide ValidItem;
    hide IsFreshPending;
    hide PairRunningJob;
    hide ClaimedItem;
    hide ClaimedAttempt;
    hide CanaryClaimedJob;
    hide ClaimCommits;
    hide ClaimsCanary;
    PairFacts(p);
    BothShown(s, p, PairRunningJob(p), p.c.item, p.y);
    PendingClaimCommits(s, p.c.k, PairRunningJob(p), p.c.item, CanaryRequest(p.c, 1));
    ClaimStep(s, p.c.k, PairRunningJob(p), p.c.item, CanaryRequest(p.c, 1));
  }

  /** The second claim takes over the slot of the first one. */
  lemma SlotTaken(s: System, p: Pair)
    requires IsPair(p) && ShowsBoth(s, p, OnceClaimedJob(p), FirstClaim(p.c), p.y) && Leased(s, p.c, 1, 31) && s.now == 31
    ensures var t := Apply(s, ClaimItem(p.x, OnceClaimedJob(p), p.y, CanaryRequest(p.c, 31)));
            && ShowsBoth(t, p, TwiceClaimedJob(p), FirstClaim(p.c), TakingClaim(p))
            && t.slots == map[SlotKey(p.c.account, 0) := Lease(p.x, 1, 61)]
  {
    hide Inv;
    hide Apply;
    hide ValidJob;
    hide ValidItem;
    hide IsFreshPending;
    hide OnceClaimedJob;
    hide FirstClaim;
    hide ClaimedItem;
    hide ClaimedAttempt;
    hide CanaryClaimedJob;
    hide ClaimCommits;
    hide ClaimsCanary;
    OnceClaimedFacts(p);
    assert ClaimKey(p.c.account, p.x.subscription) !in s.claims;
    PendingClaimCommits(s, p.x, OnceClaimedJob(p), p.y, CanaryRequest(p.c, 31));
    ClaimStep(s, p.x, OnceClaimedJob(p), p.y, CanaryRequest(p.c, 31));
  }

  lemma TakenRun(p: Pair)
    requires IsPair(p)
    ensures var s := Run(EMPTY, TakenOps(p));
            && ShowsBoth(s, p, TwiceClaimedJob(p), FirstClaim(p.c), TakingClaim(p))
            && s.slots == map[SlotKey(p.c.account, 0) := Lease(p.x, 1, 61)]
  {
    hide Run;
    hide Apply;
    hide Commits;
    hide JobUpdate;
    hide Inv;
    hide ValidJob;
    hide ValidItem;
    hide IsScene;
    hide IsFreshPending;
    hide PairScheduledOps;
    hide PairScheduledJob;
    hide PairRunningJob;
    hide OnceClaimedJob;
    hide TwiceClaimedJob;
    hide FirstClaim;
    hide TakingClaim;
    hide Leased;
    var start := StartExecution(p.x.job, PairScheduledJob(p), 3);
    var claim := ClaimItem(p.c.k, PairRunningJob(p), p.c.item, CanaryRequest(p.c, 1));
    var taking := ClaimItem(p.x, OnceClaimedJob(p), p.y, CanaryRequest(p.c, 31));
    var ops := PairScheduledOps(p);
    PairScheduledRun(p);
    PairUpdates(p);
    Extend(ops, start);
    JobStep(Run(EMPTY, ops), p.x, PairScheduledJob(p), p.y, start, PairRunningJob(p));
    Extend(ops + [start], claim);
    OnceClaimed(Run(EMPTY, ops + [start]), p);
    Extend(ops + [start] + [claim], Tick(30));
    var s := Run(EMPTY, ops + [start] + [claim]);
    TickStep(s, p.x, OnceClaimedJob(p), p.y, 30);
    Extend(ops + [start] + [claim] + [Tick(30)], taking);
    LeasedStays(s, Run(EMPTY, ops + [start] + [claim] + [Tick(30)]), p);
    SlotTaken(Run(EMPTY, ops + [start] + [claim] + [Tick(30)]), p);
  }

  lemma LeasedStays(s: System, t: System, p: Pair)
    requires Leased(s, p.c, 1, 31) && t.slots == s.slots && t.claims == s.claims
    ensures Leased(t, p.c, 1, 31)
  {
  }

  lemma PairCancelUpdates(p: Pair)
    requires TwiceClaimedJob(p).state == Running && TwiceClaimedJob(p).revision == 4
    ensures JobUpdate(Control(p.x.job, TwiceClaimedJob(p), 4, ControlAction.Cancel, false))
         == Some((p.x.job, TwiceClaimedJob(p), PairRequestedJob(p)))
    ensures JobUpdate(BeginCancel(p.x.job, PairRequestedJob(p), 5)) == Some((p.x.job, PairRequestedJob(p), PairCancelingJob(p)))
    ensures PairCancelingJob(p).state == Canceling
  {
    hide TwiceClaimedJob;
  }

  lemma BlockedRun(p: Pair)
    requires IsPair(p)
    ensures var s := Run(EMPTY, BlockedOps(p));
            && ShowsBoth(s, p, PairCancelingJob(p), FirstClaim(p.c), TakingClaim(p)) && PairCancelingJob(p).state == Canceling
            && s.slots == map[SlotKey(p.c.account, 0) := Lease(p.x, 1, 61)]
  {
    hide Run;
    hide Apply;
    hide Commits;
    hide JobUpdate;
    hide Inv;
    hide ValidJob;
    hide ValidItem;
    hide IsScene;
    hide IsFreshPending;
    hide TakenOps;
    hide TwiceClaimedJob;
    hide PairRequestedJob;
    hide PairCancelingJob;
    hide FirstClaim;
    hide TakingClaim;
    var control := Control(p.x.job, TwiceClaimedJob(p), 4, ControlAction.Cancel, false);
    var begin := BeginCancel(p.x.job, PairRequestedJob(p), 5);
    TakenRun(p);
    OnceClaimedFacts(p);
    PairCancelUpdates(p);
    Extend(TakenOps(p), control);
    JobStep(Run(EMPTY, TakenOps(p)), p.x, TwiceClaimedJob(p), TakingClaim(p), control, PairRequestedJob(p));
    Extend(TakenOps(p) + [control], begin);
    JobStep(Run(EMPTY, TakenOps(p) + [control]), p.x, PairRequestedJob(p), TakingClaim(p), begin, PairCancelingJob(p));
  }

  /** An item whose lease ran out while it was applied, and whose slot another item then took over,
      cannot be ended by anybody once its job is canceled, although both rows can be loaded: the
      cancellation never ends. */
  lemma BlockedCancellationIsReachable(p: Pair)
    requires IsPair(p)
    ensures var s := Run(EMPTY, BlockedOps(p)); var k := p.c.k;
            HasLostItsLease(s, k) && ValidItem(s.items[k]) && s.items[k].reason.None? && ValidJob(s.jobs[k.job])
    ensures forall later :: var t := Run(Run(EMPTY, BlockedOps(p)), later); var k := p.c.k;
              && k in t.items && t.items[k] == FirstClaim(p.c) && k.job in t.jobs && IsBeingCanceled(t.jobs[k.job].state)
  {
    hide Run;
    hide Inv;
    hide ValidJob;
    hide ValidItem;
    hide IsPair;
    hide BlockedOps;
    hide PairCancelingJob;
    hide TakingClaim;
    hide FirstClaim;
    var s, k := Run(EMPTY, BlockedOps(p)), p.c.k;
    BlockedRun(p);
    PairIsScene(p);
    ClaimedFacts(p.c);
    NoSlotRow(s, k);
    forall later ensures var t := Run(Run(EMPTY, BlockedOps(p)), later);
              && k in t.items && t.items[k] == FirstClaim(p.c) && k.job in t.jobs && IsBeingCanceled(t.jobs[k.job].state)
    {
      LostItemsNeverChange(BlockedOps(p), later, k);
    }
  }

  lemma PairIsScene(p: Pair)
    requires IsPair(p)
    ensures IsScene(p.c) && p.x != p.c.k && p.x.job == p.c.k.job
  {
  }

  lemma NoSlotRow(s: System, k: ItemKey)
    requires forall key | key in s.slots :: s.slots[key].owner != k
    ensures !IsReleasable(s, k)
  {
    forall i: Item ensures !CanRelease(s, k, i) { }
  }
}
