/**
 The canary phase over whole runs: how many claims may precede the approval, who can grant it,
 and what a pause for approval says about the canary items.
 */
module MigrationCanary {
  import opened Types
  import opened MigrationRecords
  import opened MigrationProtocol
  import opened MigrationTotals
  import opened MigrationInvariant
  import opened MigrationSteps
  import opened MigrationRows

  /** A committed claim of an item of the job, other than a look at a spent item's outcome. */
  predicate StartsAttempt(s: System, op: Op, j: JobId) {
    op.ClaimItem? && op.k.job == j && Commits(s, op) && !IsReconcileOnly(op.readItem)
  }

  predicate BeforeApproval(s: System, j: JobId) {
    j in s.jobs && !s.jobs[j].canaryApproved
  }

  /** How many claims of the job commit in a run before the job is approved. */
  function ClaimsBeforeApproval(s: System, ops: seq<Op>, j: JobId): nat
    decreases |ops|
  {
    if ops == [] then 0 else
    var first := if StartsAttempt(s, ops[0], j) && BeforeApproval(s, j) then 1 else 0;
    first + ClaimsBeforeApproval(Apply(s, ops[0]), ops[1..], j)
  }

  /** One step: an unapproved claim spends one canary slot and nothing gives one back. */
  lemma StepSpendsCanary(s: System, op: Op, j: JobId)
    requires Inv(s) && j in s.jobs
    ensures j in Apply(s, op).jobs
    ensures Apply(s, op).jobs[j].canarySize == s.jobs[j].canarySize
    ensures Apply(s, op).jobs[j].canaryClaims
         >= s.jobs[j].canaryClaims + (if StartsAttempt(s, op, j) && BeforeApproval(s, j) then 1 else 0)
  {
    hide Inv;
    hide Effect;
    if Commits(s, op) {
      JobRowAfter(s, op, j);
      ApplyKeepsInv(s, op);
      hide AddPreviewItem;
      hide ReplacePreviewItem;
      hide FinishValueOf;
      hide FinishedItem;
    }
  }

  lemma {:induction false} ClaimsSpendCanary(s: System, ops: seq<Op>, j: JobId)
    requires Inv(s) && j in s.jobs
    ensures ClaimsBeforeApproval(s, ops, j) <= s.jobs[j].canarySize - s.jobs[j].canaryClaims
    decreases |ops|
  {
    if ops == [] {
      JobIsOk(s, j);
    } else {
      ApplyKeepsInv(s, ops[0]);
      StepSpendsCanary(s, ops[0], j);
      hide Inv;
      hide Apply;
      ClaimsSpendCanary(Apply(s, ops[0]), ops[1..], j);
    }
  }

  lemma CreationStep(s: System, op: Op, j: JobId)
    requires Inv(s) && j !in s.jobs
    ensures !StartsAttempt(s, op, j)
    ensures j in Apply(s, op).jobs ==> Apply(s, op).jobs[j].canaryClaims == 0
  {
    hide Inv;
    hide Effect;
    if Commits(s, op) { ItemsAfter(s, op); }
  }

  lemma {:induction false} CanarySizeStays(s: System, ops: seq<Op>, j: JobId)
    requires Inv(s) && j in s.jobs
    ensures j in Run(s, ops).jobs && Run(s, ops).jobs[j].canarySize == s.jobs[j].canarySize
    decreases |ops|
  {
    hide Inv;
    hide Apply;
    if ops == [] {
    } else {
      ApplyKeepsInv(s, ops[0]);
      StepSpendsCanary(s, ops[0], j);
      CanarySizeStays(Apply(s, ops[0]), ops[1..], j);
    }
  }

  lemma {:induction false} ClaimsAfterCreation(s: System, ops: seq<Op>, j: JobId)
    requires Inv(s) && j !in s.jobs && j in Run(s, ops).jobs
    ensures ClaimsBeforeApproval(s, ops, j) <= Run(s, ops).jobs[j].canarySize
    decreases |ops|
  {
    hide Inv;
    hide Apply;
    hide StartsAttempt;
    var t := Apply(s, ops[0]);
    ApplyKeepsInv(s, ops[0]);
    CreationStep(s, ops[0], j);
    if j in t.jobs {
      ClaimsSpendCanary(t, ops[1..], j);
      CanarySizeStays(t, ops[1..], j);
    } else {
      ClaimsAfterCreation(t, ops[1..], j);
    }
  }

  /** In every run at most canarySize claims of a job commit before its approval. */
  lemma CanaryLimitsUnapprovedClaims(ops: seq<Op>, j: JobId)
    requires j in Run(EMPTY, ops).jobs
    ensures ClaimsBeforeApproval(EMPTY, ops, j) <= Run(EMPTY, ops).jobs[j].canarySize
  {
    hide Run;
    EmptyInv();
    hide Inv;
    ClaimsAfterCreation(EMPTY, ops, j);
  }

  /** The approval is given by exactly one kind of step: resuming a paused job that waits for it.
      A job comes to wait for it by exactly one kind of step: execution pausing the job when its
      canary slots are used up, all of them have ended and other items are pending. */
  lemma ApprovalPath(ops: seq<Op>, op: Op, j: JobId)
    requires j in Run(EMPTY, ops).jobs
    ensures var s := Run(EMPTY, ops); var t := Apply(s, op);
            && j in t.jobs
            && (!s.jobs[j].canaryApproved && t.jobs[j].canaryApproved ==>
                  op.Control? && op.action == Resume && s.jobs[j].state == Paused && s.jobs[j].canaryApprovalRequired
                  && t.jobs[j].state == Running && !t.jobs[j].canaryApprovalRequired)
            && (!s.jobs[j].canaryApprovalRequired && t.jobs[j].canaryApprovalRequired ==>
                  op.ContinueExecution? && s.jobs[j].state == Running && t.jobs[j].state == Paused
                  && s.jobs[j].canaryClaims == s.jobs[j].canarySize <= s.jobs[j].canaryCompleted
                  && s.jobs[j].counts.pending > 0)
  {
    hide Run;
    var s := Run(EMPTY, ops);
    EmptyInv();
    RunKeepsInv(EMPTY, ops);
    assert JobOk(s.jobs[j]) by { JobIsOk(s, j); }
    hide Inv;
    hide Effect;
    hide JobAfter;
    hide JobOpAgrees;
    if Commits(s, op) {
      JobRowAfter(s, op, j);
      FlagSteps(s.jobs[j], j, op);
    }
  }

  /** How one row change can set the approval flags. */
  lemma FlagSteps(c: Job, j: JobId, op: Op)
    requires JobOk(c)
    requires JobOpAgrees(c, j, op)
    ensures var n := JobAfter(c, j, op);
            && (!c.canaryApproved && n.canaryApproved ==>
                  op.Control? && op.action == Resume && c.state == Paused && c.canaryApprovalRequired
                  && n.state == Running && !n.canaryApprovalRequired)
            && (!c.canaryApprovalRequired && n.canaryApprovalRequired ==>
                  op.ContinueExecution? && c.state == Running && n.state == Paused
                  && c.canaryClaims == c.canarySize <= c.canaryCompleted && c.counts.pending > 0)
  {
    hide AddPreviewItem;
    hide ReplacePreviewItem;
    hide FinishValueOf;
    hide FinishedItem;
    hide ChangesMetrics;
  }

  lemma JobIsOk(s: System, j: JobId)
    requires Inv(s) && j in s.jobs
    ensures JobOk(s.jobs[j])
  {
    hide Total;
    hide CountersAgree;
    assert (j, s.jobs[j]) in s.jobCopies;
  }
}
