/**
 Lease safety in every reachable state: one worker per subscription, bounded concurrency per
 account and per job.
 */
module MigrationLeases {
  import opened Types
  import opened MigrationRecords
  import opened MigrationProtocol
  import opened MigrationTotals
  import opened MigrationInvariant
  import opened MigrationSteps
  import opened MigrationRows

  /** The items that hold an unexpired lease under an account. */
  function LeaseHolders(s: System, account: AccountKey): set<ItemKey> {
    set k | k in s.items && s.items[k].holder.Some? && s.items[k].holder.value.account == account
            && s.now < s.items[k].holder.value.expiresAt
  }

  function LeaseHoldersOfJob(s: System, account: AccountKey, j: JobId): set<ItemKey> {
    set k | k in LeaseHolders(s, account) && k.job == j
  }

  /** Items mapped to different numbers below n are at most n. */
  lemma {:induction false} DistinctSlots(holders: set<ItemKey>, slotOf: map<ItemKey, int>, n: nat)
    requires forall k | k in holders :: k in slotOf && 0 <= slotOf[k] < n
    requires forall k, x | k in holders && x in holders && slotOf[k] == slotOf[x] :: k == x
    ensures |holders| <= n
    decreases n
  {
    if n == 0 {
      forall k ensures k !in holders {}
    } else {
      var rest := set k | k in holders && slotOf[k] != n - 1;
      DistinctSlots(rest, slotOf, n - 1);
      if k :| k in holders && slotOf[k] == n - 1 {
        assert holders == rest + {k};
      } else {
        assert holders == rest;
      }
    }
  }

  lemma RowIsOk(s: System, k: ItemKey)
    requires Inv(s) && k in s.items
    ensures ItemOk(s.items[k])
  {
    hide Total;
    hide LeaseBacked;
    assert (k, s.items[k]) in s.itemCopies;
  }

  /** No two items of one subscription, in any jobs, are ever being applied at once under one
      account, not even after a lease has run out. */
  lemma OneMutationPerSubscription(ops: seq<Op>, k: ItemKey, x: ItemKey)
    requires var s := Run(EMPTY, ops);
             && k in s.items && x in s.items && k.subscription == x.subscription
             && s.items[k].state == Applying && s.items[x].state == Applying
    ensures var s := Run(EMPTY, ops);
            && s.items[k].holder.Some? && s.items[x].holder.Some?
            && (s.items[k].holder.value.account == s.items[x].holder.value.account ==> k == x)
  {
    hide Run;
    var s := Run(EMPTY, ops);
    EmptyInv();
    RunKeepsInv(EMPTY, ops);
    LeaseFacts(s, k);
    LeaseFacts(s, x);
    RowIsOk(s, k);
    RowIsOk(s, x);
    hide Inv;
  }

  /** Two items with unexpired leases under one account hold different slots. */
  lemma HoldersHaveOwnSlots(s: System, account: AccountKey, k: ItemKey, x: ItemKey)
    requires Inv(s) && k in LeaseHolders(s, account) && x in LeaseHolders(s, account)
    ensures 0 <= s.items[k].holder.value.slot < MAX_SLOTS
    ensures k.job in s.jobs && s.items[k].holder.value.slot < s.jobs[k.job].accountConcurrency
    ensures s.items[k].holder.value.slot == s.items[x].holder.value.slot ==> k == x
  {
    LeaseFacts(s, k);
    LeaseFacts(s, x);
    RowIsOk(s, k);
    hide Inv;
  }

  /** At most five items of an account, and at most accountConcurrency items of one job under it,
      hold unexpired leases at any time, across expiries, take-overs and stale finishes. */
  lemma LeasesAreBounded(ops: seq<Op>, account: AccountKey, j: JobId)
    requires j in Run(EMPTY, ops).jobs
    ensures var s := Run(EMPTY, ops);
            && |LeaseHolders(s, account)| <= MAX_SLOTS
            && |LeaseHoldersOfJob(s, account, j)| <= s.jobs[j].accountConcurrency
  {
    hide Run;
    var s := Run(EMPTY, ops);
    EmptyInv();
    RunKeepsInv(EMPTY, ops);
    JobCopyFacts(s, j, s.jobs[j]) by { hide Total; assert (j, s.jobs[j]) in s.jobCopies; }
    hide Inv;
    hide CountersAgree;
    var slotOf := map k | k in LeaseHolders(s, account) :: s.items[k].holder.value.slot;
    forall k, x | k in LeaseHolders(s, account) && x in LeaseHolders(s, account)
      ensures 0 <= slotOf[k] < MAX_SLOTS && (slotOf[k] == slotOf[x] ==> k == x)
      ensures k.job == j ==> slotOf[k] < s.jobs[j].accountConcurrency
    {
      HoldersHaveOwnSlots(s, account, k, x);
    }
    DistinctSlots(LeaseHolders(s, account), slotOf, MAX_SLOTS);
    DistinctSlots(LeaseHoldersOfJob(s, account, j), slotOf, s.jobs[j].accountConcurrency);
  }

  // ---------------------------------------------------------------- all accounts at once

  /** The items a worker pool migrates under one account: those of a job or those of a subscription. */
  datatype Scope = OfJob(job: JobId) | OfSubscription(subscription: SubscriptionId)

  predicate IsWithin(k: ItemKey, scope: Scope) {
    match scope
    case OfJob(j) => k.job == j
    case OfSubscription(x) => k.subscription == x
  }

  /** Every claim that commits in the scope is made under the account. */
  predicate ClaimsUse(s: System, ops: seq<Op>, scope: Scope, account: AccountKey)
    decreases |ops|
  {
    ops == [] ||
    (&& (Commits(s, ops[0]) && ops[0].ClaimItem? && IsWithin(ops[0].k, scope) ==> ops[0].request.account == account)
     && ClaimsUse(Apply(s, ops[0]), ops[1..], scope, account))
  }

  predicate HoldersUse(s: System, scope: Scope, account: AccountKey) {
    forall k | k in s.items && IsWithin(k, scope) && s.items[k].holder.Some? :: s.items[k].holder.value.account == account
  }

  lemma HolderAfter(c: Item, k: ItemKey, op: Op)
    requires ItemOpAgrees(c, k, op) && ItemOk(ItemAfter(c, k, op)) && ItemAfter(c, k, op).holder.Some?
    ensures if op.ClaimItem? && op.k == k then ItemAfter(c, k, op).holder.value.account == op.request.account
            else ItemAfter(c, k, op).holder == c.holder
  {
    hide FinishValueOf;
  }

  lemma StepKeepsAccount(s: System, op: Op, scope: Scope, account: AccountKey)
    requires Inv(s) && HoldersUse(s, scope, account)
    requires Commits(s, op) && op.ClaimItem? && IsWithin(op.k, scope) ==> op.request.account == account
    ensures HoldersUse(Apply(s, op), scope, account)
  {
    hide Inv;
    hide Commits;
    hide Effect;
    hide IsWithin;
    hide ItemAfter;
    hide ItemOpAgrees;
    hide ItemOk;
    if Commits(s, op) {
      ItemsAfter(s, op);
      ApplyKeepsInv(s, op);
      forall k | k in Effect(s, op).items && IsWithin(k, scope) && Effect(s, op).items[k].holder.Some?
        ensures Effect(s, op).items[k].holder.value.account == account
      {
        if k in s.items {
          ItemRowAfter(s, op, k);
          RowIsOk(Effect(s, op), k);
          HolderAfter(s.items[k], k, op);
        } else {
          NewItemsHoldNothing(s, op);
        }
      }
    }
  }

  lemma NewItemsHoldNothing(s: System, op: Op)
    requires Commits(s, op)
    ensures op.PutPreviewItem? ==> op.item.holder.None?
  {
  }

  lemma {:induction false} RunKeepsAccount(s: System, ops: seq<Op>, scope: Scope, account: AccountKey)
    requires Inv(s) && HoldersUse(s, scope, account) && ClaimsUse(s, ops, scope, account)
    ensures HoldersUse(Run(s, ops), scope, account)
    decreases |ops|
  {
    hide Inv;
    hide Apply;
    hide Commits;
    hide HoldersUse;
    if ops == [] {
    } else {
      ApplyKeepsInv(s, ops[0]);
      StepKeepsAccount(s, ops[0], scope, account);
      RunKeepsAccount(Apply(s, ops[0]), ops[1..], scope, account);
    }
  }

  /** The items of a job with unexpired leases, under whatever account. */
  function AllLeaseHolders(s: System, j: JobId): set<ItemKey> {
    set k | k in s.items && k.job == j && s.items[k].holder.Some? && s.now < s.items[k].holder.value.expiresAt
  }

  /** A job whose claims are all made under one account has at most accountConcurrency unexpired leases
      altogether. */
  lemma JobLeasesAreBounded(ops: seq<Op>, account: AccountKey, j: JobId)
    requires j in Run(EMPTY, ops).jobs && ClaimsUse(EMPTY, ops, OfJob(j), account)
    ensures |AllLeaseHolders(Run(EMPTY, ops), j)| <= Run(EMPTY, ops).jobs[j].accountConcurrency
  {
    hide Run;
    hide ClaimsUse;
    var s := Run(EMPTY, ops);
    EmptyInv();
    hide Inv;
    RunKeepsAccount(EMPTY, ops, OfJob(j), account);
    forall k | k in AllLeaseHolders(s, j) ensures k in LeaseHoldersOfJob(s, account, j) { assert IsWithin(k, OfJob(j)); }
    assert AllLeaseHolders(s, j) == LeaseHoldersOfJob(s, account, j);
    LeasesAreBounded(ops, account, j);
  }

  /** A subscription whose claims are all made under one account is applied by at most one item at a
      time, in whatever jobs. */
  lemma OneMutationAcrossAccounts(ops: seq<Op>, account: AccountKey, k: ItemKey, x: ItemKey)
    requires k.subscription == x.subscription && ClaimsUse(EMPTY, ops, OfSubscription(k.subscription), account)
    requires var s := Run(EMPTY, ops); k in s.items && x in s.items && s.items[k].state == Applying && s.items[x].state == Applying
    ensures k == x
  {
    hide Run;
    hide ClaimsUse;
    EmptyInv();
    hide Inv;
    RunKeepsAccount(EMPTY, ops, OfSubscription(k.subscription), account);
    OneMutationPerSubscription(ops, k, x);
    assert IsWithin(k, OfSubscription(k.subscription)) && IsWithin(x, OfSubscription(k.subscription));
  }
}
