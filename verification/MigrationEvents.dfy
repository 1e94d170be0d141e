/**
 What an item write keeps of the row its worker read, and when the last webhook of an item can be
 replaced by an older one.
 */
module MigrationEvents {
  import opened Types
  import opened MigrationRecords
  import opened MigrationProtocol
  import opened MigrationInvariant
  import opened MigrationSteps
  import opened MigrationRows

  predicate WritesExistingItem(op: Op, k: ItemKey) {
    (op.RejectPreviewItem? || op.ClaimItem? || op.FinishItem?) && op.k == k
  }

  // ---------------------------------------------------------------- item writes and the current row

  /** The fields a claim or a finish carries over from its copy and does not compare. All others it
      compares, sets itself, or cannot find changed. */
  predicate CarriesCurrentFields(op: Op, c: Item)
    requires op.ClaimItem? || (op.FinishItem? && FinishValueOf(op.caller).Some?)
  {
    if op.ClaimItem? then
      op.readItem.reason == c.reason && op.readItem.scheduleId == c.scheduleId && op.readItem.lastEvent == c.lastEvent
    else
      FinishValueOf(op.caller).value.event.Some? || op.readItem.lastEvent == c.lastEvent
  }

  lemma CarriesOnOneRow(c: Item, k: ItemKey, op: Op)
    requires (op.ClaimItem? || (op.FinishItem? && FinishValueOf(op.caller).Some?)) && op.k == k && ItemOpAgrees(c, k, op)
    ensures ItemAfter(c, k, op) == ItemAfter(c, k, op.(readItem := c)) <==> CarriesCurrentFields(op, c)
  {
    hide FinishValueOf;
  }

  /** In every run a committed claim or finish writes the row it would have computed from the current
      row of the item exactly when its copy agrees on the fields it carries over: the last webhook
      unless it brings one, and for a claim also the reason and the schedule. */
  lemma ItemWritesAreAtomicExactly(ops: seq<Op>, op: Op)
    requires Commits(Run(EMPTY, ops), op) && (op.ClaimItem? || op.FinishItem?)
    ensures var s := Run(EMPTY, ops);
            && op.k in s.items && op.k in Effect(s, op).items && (op.FinishItem? ==> FinishValueOf(op.caller).Some?)
            && (Effect(s, op).items[op.k] == ItemAfter(s.items[op.k], op.k, op.(readItem := s.items[op.k]))
                <==> CarriesCurrentFields(op, s.items[op.k]))
  {
    hide Run;
    hide Inv;
    var s := Run(EMPTY, ops);
    EmptyInv();
    RunKeepsInv(EMPTY, ops);
    CommittedWriteFinds(s, op);
    ItemRowAfter(s, op, op.k);
    hide Commits;
    hide Effect;
    hide ItemAfter;
    hide ItemOpAgrees;
    hide CarriesCurrentFields;
    hide FinishValueOf;
    CarriesOnOneRow(s.items[op.k], op.k, op);
  }

  lemma CommittedWriteFinds(s: System, op: Op)
    requires Commits(s, op) && (op.ClaimItem? || op.FinishItem?)
    ensures op.k in s.items && (op.FinishItem? ==> FinishValueOf(op.caller).Some?)
  {
    hide FinishValueOf;
    hide FinishedItem;
    hide ValidItem;
  }

  // ---------------------------------------------------------------- the last webhook

  /** The last webhook is lost or replaced by an older one. */
  predicate EventGoesBack(c: Item, n: Item) {
    c.lastEvent.Some? && (n.lastEvent.None? || n.lastEvent.value.createdAt < c.lastEvent.value.createdAt)
  }

  /** When a write takes the last webhook of the current row back: a webhook is older than it, or the
      copy of any other write is. */
  predicate TakesEventBack(c: Item, k: ItemKey, op: Op) {
    && WritesExistingItem(op, k)
    && if op.FinishItem? && FinishValueOf(op.caller).Some? && FinishValueOf(op.caller).value.event.Some?
       then c.lastEvent.Some? && FinishValueOf(op.caller).value.event.value.createdAt < c.lastEvent.value.createdAt
       else EventGoesBack(c, op.readItem)
  }

  lemma EventOfOneStep(c: Item, k: ItemKey, op: Op)
    requires ItemOpAgrees(c, k, op)
    ensures EventGoesBack(c, ItemAfter(c, k, op)) <==> TakesEventBack(c, k, op)
  {
    hide FinishValueOf;
  }

  lemma EventOfOneApply(s: System, op: Op, k: ItemKey)
    requires Inv(s) && k in s.items
    ensures k in Apply(s, op).items
    ensures EventGoesBack(s.items[k], Apply(s, op).items[k]) <==> Commits(s, op) && TakesEventBack(s.items[k], k, op)
  {
    hide Inv;
    hide Effect;
    if Commits(s, op) {
      ItemRowAfter(s, op, k);
      hide Commits;
      hide ItemAfter;
      hide ItemOpAgrees;
      hide TakesEventBack;
      EventOfOneStep(s.items[k], k, op);
    }
  }

  /** At no step of the run does the last webhook of an item go back. */
  predicate EventAdvances(s: System, ops: seq<Op>, k: ItemKey)
    decreases |ops|
  {
    ops == [] ||
    (&& (k in s.items && k in Apply(s, ops[0]).items ==> !EventGoesBack(s.items[k], Apply(s, ops[0]).items[k]))
     && EventAdvances(Apply(s, ops[0]), ops[1..], k))
  }

  /** No committed operation of the run takes it back. */
  predicate NeverTakesEventBack(s: System, ops: seq<Op>, k: ItemKey)
    decreases |ops|
  {
    ops == [] ||
    (&& !(Commits(s, ops[0]) && k in s.items && TakesEventBack(s.items[k], k, ops[0]))
     && NeverTakesEventBack(Apply(s, ops[0]), ops[1..], k))
  }

  lemma {:induction false} AdvancesExactly(s: System, ops: seq<Op>, k: ItemKey)
    requires Inv(s)
    ensures EventAdvances(s, ops, k) <==> NeverTakesEventBack(s, ops, k)
    decreases |ops|
  {
    hide Inv;
    hide Apply;
    hide Commits;
    hide TakesEventBack;
    hide EventGoesBack;
    if ops == [] {
    } else {
      if k in s.items { EventOfOneApply(s, ops[0], k); }
      ApplyKeepsInv(s, ops[0]);
      AdvancesExactly(Apply(s, ops[0]), ops[1..], k);
    }
  }

  /** The last webhook of an item never goes back in a run exactly when no committed operation brings a
      webhook older than the current last one or was conditioned on a copy with an older one. */
  lemma EventsAdvanceExactly(ops: seq<Op>, k: ItemKey)
    ensures EventAdvances(EMPTY, ops, k) <==> NeverTakesEventBack(EMPTY, ops, k)
  {
    EmptyInv();
    hide Inv;
    AdvancesExactly(EMPTY, ops, k);
  }

  /** A webhook that was tested for lateness on the current last webhook takes nothing back. */
  lemma TestedWebhooksAdvance(ops: seq<Op>, op: Op)
    requires op.FinishItem? && op.caller.WebhookUpdate? && Commits(Run(EMPTY, ops), op)
    requires op.k in Run(EMPTY, ops).items && op.caller.first.lastEvent == Run(EMPTY, ops).items[op.k].lastEvent
    ensures !TakesEventBack(Run(EMPTY, ops).items[op.k], op.k, op)
  {
    hide Run;
    hide FinishedItem;
    hide ValidItem;
  }
}
