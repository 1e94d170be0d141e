/**
 Undoing a next-renewal migration: the guard the worker stores after it has applied a plan, the test
 that allows a rollback, and the release that restores the original phases. SHA-256 is injective
 here, so the guard holds the hashed values themselves.
 */
module ScheduleRollback {
  import opened Types
  import opened SchedulePlan

  /** The hashed part of a schedule. */
  datatype Projection = Projection(id: string, endBehavior: EndBehavior, defaultSettings: string, phases: seq<Phase>)

  datatype Guard = Guard(schedule: Projection, defaults: string, phaseIndex: nat, phaseStart: int)

  /** A migration item as far as rollbacks look at it; `snapshot` was taken when it was previewed. */
  datatype MigrationItem = MigrationItem(subscription: string, snapshot: Snapshot, scheduleId: Option<string>, guard: Option<Guard>)

  function ProjectionOf(s: Schedule): Projection { Projection(s.id, s.endBehavior, s.defaultSettings, s.phases) }

  function PlanOf(s: Snapshot, source: Price, target: Price): Option<Plan>
    requires IsSnapshot(s)
  {
    if Plannable(s, source, target) then Some(PlanFor(s, source, target)) else None
  }

  /** The guard of an applied plan; None where the source asks for a review. */
  function MakeGuard(current: Snapshot, item: MigrationItem, source: Price, target: Price, scheduleId: Option<string>): Option<Guard>
    requires IsSnapshot(current) && IsSnapshot(item.snapshot)
  {
    if current.subscription != item.subscription || scheduleId.None? || current.schedule.None?
       || current.schedule.value.id != scheduleId.value || !Plannable(item.snapshot, source, target) then None
    else
      var schedule, plan := current.schedule.value, PlanFor(item.snapshot, source, target);
      var index := schedule.currentPhaseIndex;
      if schedule.endBehavior != Release || schedule.phases[index..] != plan.phases
         || (plan.defaultSettings.Some? && schedule.defaultSettings != plan.defaultSettings.value) then None
      else Some(Guard(ProjectionOf(schedule), schedule.defaultSettings, index, schedule.phases[index].startDate))
  }

  predicate StartsAt(phases: seq<Phase>, k: nat, anchor: int) { k < |phases| && phases[k].startDate == anchor }

  /** The only phase that starts at a time. */
  predicate IsOnlyMatch(phases: seq<Phase>, k: nat, anchor: int) {
    StartsAt(phases, k, anchor) && forall x | 0 <= x < |phases| && phases[x].startDate == anchor :: x == k
  }

  function FirstMatch(phases: seq<Phase>, anchor: int): nat {
    if phases == [] || phases[0].startDate == anchor then 0 else 1 + FirstMatch(phases[1..], anchor)
  }

  lemma {:induction false} FirstMatchIsFirst(phases: seq<Phase>, k: nat, anchor: int)
    requires StartsAt(phases, k, anchor) && forall x | 0 <= x < k :: phases[x].startDate != anchor
    ensures FirstMatch(phases, anchor) == k
    decreases k
  {
    if k == 0 {
    } else {
      FirstMatchIsFirst(phases[1..], k - 1, anchor);
    }
  }

  lemma OnlyMatchIsUnique(phases: seq<Phase>, k: nat, anchor: int)
    requires IsOnlyMatch(phases, k, anchor)
    ensures FirstMatch(phases, anchor) == k
  {
    FirstMatchIsFirst(phases, k, anchor);
  }

  /** Whether a migrated schedule may be undone. */
  predicate Allows(current: Snapshot, item: MigrationItem, source: Price, target: Price)
    requires IsSnapshot(current) && IsSnapshot(item.snapshot)
  {
    && item.guard.Some? && current.schedule.Some? && Some(current.schedule.value.id) == item.scheduleId
    && var guard, schedule := item.guard.value, current.schedule.value;
       var index := schedule.currentPhaseIndex;
       var anchor := schedule.phases[index].startDate;
       && guard.phaseIndex <= index && guard.phaseStart <= anchor
       && (|| ProjectionOf(schedule) == guard.schedule
           || (&& schedule.defaultSettings == guard.defaults
               && PlanOf(item.snapshot, source, target).Some?
               && schedule.endBehavior == Release
               && var phases := PlanFor(item.snapshot, source, target).phases;
                  var m := FirstMatch(phases, anchor);
                  IsOnlyMatch(phases, m, anchor) && schedule.phases[index..] == phases[m..]))
  }

  // ---------------------------------------------------------------- the worker's loops

  /** The indices of the phases that start at a time. */
  method MatchingPhases(phases: seq<Phase>, anchor: int) returns (matches: seq<nat>)
    ensures forall k: nat :: k in matches <==> StartsAt(phases, k, anchor)
    ensures |matches| == 1 <==> IsOnlyMatch(phases, FirstMatch(phases, anchor), anchor)
    ensures |matches| == 1 ==> matches[0] == FirstMatch(phases, anchor)
  {
    matches := [];
    for i := 0 to |phases|
      invariant forall k: nat :: k in matches <==> k < i && StartsAt(phases, k, anchor)
      invariant forall a, b | 0 <= a < b < |matches| :: matches[a] < matches[b]
    {
      if phases[i].startDate == anchor {
        assert forall a | 0 <= a < |matches| :: matches[a] in matches;
        matches := matches + [i];
      }
    }
    assert forall a | 0 <= a < |matches| :: matches[a] in matches;
    if matches != [] {
      forall x: nat | x < matches[0] ensures phases[x].startDate != anchor {
        assert x in matches <==> StartsAt(phases, x, anchor);
      }
      FirstMatchIsFirst(phases, matches[0], anchor);
      if |matches| == 1 {
        forall x: nat | x < |phases| && phases[x].startDate == anchor ensures x == matches[0] {
          assert StartsAt(phases, x, anchor) && x in matches;
        }
      } else {
        assert StartsAt(phases, matches[1], anchor) && matches[0] < matches[1];
      }
    } else {
      assert !StartsAt(phases, FirstMatch(phases, anchor), anchor);
    }
  }

  method GuardAllows(current: Snapshot, item: MigrationItem, source: Price, target: Price) returns (ok: bool)
    requires IsSnapshot(current) && IsSnapshot(item.snapshot)
    ensures ok <==> Allows(current, item, source, target)
  {
    if item.guard.None? || current.schedule.None? || Some(current.schedule.value.id) != item.scheduleId { return false; }
    var guard, schedule := item.guard.value, current.schedule.value;
    var index := schedule.currentPhaseIndex;
    var anchor := schedule.phases[index].startDate;
    if index < guard.phaseIndex || anchor < guard.phaseStart { return false; }
    if ProjectionOf(schedule) == guard.schedule { return true; }
    if schedule.defaultSettings != guard.defaults { return false; }
    var plan := BuildNextRenewalPlan(item.snapshot, source, target);
    if plan.Review? { return false; }
    var matching := MatchingPhases(plan.value.phases, anchor);
    ok := |matching| == 1 && schedule.endBehavior == Release && schedule.phases[index..] == plan.value.phases[matching[0]..];
  }

  /** The phases the release sends to the provider; None where the source asks for a review. */
  method ReleasePhases(original: Schedule, anchor: int) returns (r: Option<seq<Phase>>)
    ensures r == Restored(original, anchor)
  {
    var matches := MatchingPhases(original.phases, anchor);
    if |matches| != 1 || matches[0] < original.currentPhaseIndex { return None; }
    r := Some(original.phases[matches[0]..]);
  }

  function Restored(original: Schedule, anchor: int): Option<seq<Phase>> {
    var k := FirstMatch(original.phases, anchor);
    if IsOnlyMatch(original.phases, k, anchor) && original.currentPhaseIndex <= k then Some(original.phases[k..]) else None
  }

  // ---------------------------------------------------------------- results

  /** The phases of the schedule from the current one on. */
  function Remaining(s: Schedule): seq<Phase>
    requires s.currentPhaseIndex < |s.phases|
  {
    s.phases[s.currentPhaseIndex..]
  }

  /** A rollback allowed by a guard made for the same item undoes only what the plan did: the
      schedule's phases from the current one on are the planned phases from some phase on. */
  lemma AllowedRollbackSeesThePlan(applied: Snapshot, current: Snapshot, item: MigrationItem, source: Price, target: Price)
      returns (m: nat)
    requires IsSnapshot(applied) && IsSnapshot(current) && IsSnapshot(item.snapshot)
    requires item.guard.Some? && MakeGuard(applied, item, source, target, item.scheduleId) == item.guard
    requires Allows(current, item, source, target)
    ensures Plannable(item.snapshot, source, target) && current.schedule.Some?
    ensures var phases := PlanFor(item.snapshot, source, target).phases; var schedule := current.schedule.value;
            && m < |phases| && Remaining(schedule) == phases[m..]
            && phases[m].startDate == schedule.phases[schedule.currentPhaseIndex].startDate
            && schedule.endBehavior == Release && schedule.defaultSettings == item.guard.value.defaults
  {
    var phases, schedule := PlanFor(item.snapshot, source, target).phases, current.schedule.value;
    var index := schedule.currentPhaseIndex;
    if ProjectionOf(schedule) == item.guard.value.schedule {
      m := index - item.guard.value.phaseIndex;
      assert applied.schedule.value.phases[item.guard.value.phaseIndex..][m..] == schedule.phases[index..];
    } else {
      m := FirstMatch(phases, schedule.phases[index].startDate);
    }
  }

  /** When a rollback is allowed: the schedule is the item's own, has not gone back before the guarded
      phase, and either is still as the guard saw it or has gone on along the plan: it ends as the plan
      does, with the guarded settings, and its phases from the current one on are those of the plan from
      the only planned phase that starts with it. */
  lemma AllowedExactly(current: Snapshot, item: MigrationItem, source: Price, target: Price)
    requires IsSnapshot(current) && IsSnapshot(item.snapshot)
    ensures Allows(current, item, source, target) <==>
              && item.guard.Some? && current.schedule.Some? && Some(current.schedule.value.id) == item.scheduleId
              && var schedule := current.schedule.value; var first := Remaining(schedule)[0];
                 && item.guard.value.phaseIndex <= schedule.currentPhaseIndex && item.guard.value.phaseStart <= first.startDate
                 && (|| ProjectionOf(schedule) == item.guard.value.schedule
                     || (&& Plannable(item.snapshot, source, target)
                         && schedule.defaultSettings == item.guard.value.defaults && schedule.endBehavior == Release
                         && var phases := PlanFor(item.snapshot, source, target).phases;
                            exists m :: 0 <= m < |phases| && Remaining(schedule) == phases[m..] && !HasOtherStart(phases, m, first.startDate)))
  {
    if current.schedule.Some? && Plannable(item.snapshot, source, target) {
      var schedule, phases := current.schedule.value, PlanFor(item.snapshot, source, target).phases;
      var anchor := Remaining(schedule)[0].startDate;
      forall m | 0 <= m < |phases| && Remaining(schedule) == phases[m..] && !HasOtherStart(phases, m, anchor)
        ensures FirstMatch(phases, anchor) == m && IsOnlyMatch(phases, m, anchor)
      {
        assert phases[m..][0] == phases[m];
        OnlyMatchIsUnique(phases, m, anchor);
      }
    }
  }

  /** Some phase other than this one starts at the date. */
  predicate HasOtherStart(phases: seq<Phase>, at: nat, date: int) {
    exists k :: 0 <= k < |phases| && k != at && phases[k].startDate == date
  }

  /** A phase from the current one on is where a release starts exactly when it alone starts at the date;
      what is released is the phases from it on. A release without such a phase asks for a review. */
  lemma RestoredExactly(original: Schedule, anchor: int)
    ensures forall at: nat | at < |original.phases| && original.phases[at].startDate == anchor ::
              Restored(original, anchor)
              == if at < original.currentPhaseIndex || HasOtherStart(original.phases, at, anchor) then None
                 else Some(original.phases[at..])
    ensures (forall at: nat | at < |original.phases| :: original.phases[at].startDate != anchor) ==> Restored(original, anchor).None?
  {
    forall at: nat | at < |original.phases| && original.phases[at].startDate == anchor
      ensures IsOnlyMatch(original.phases, at, anchor) <==> !HasOtherStart(original.phases, at, anchor)
      ensures IsOnlyMatch(original.phases, at, anchor) ==> FirstMatch(original.phases, anchor) == at
    {
      if IsOnlyMatch(original.phases, at, anchor) { OnlyMatchIsUnique(original.phases, at, anchor); }
    }
  }

  /** A guard is made exactly when the provider shows the planned subscription under the schedule the worker
      knows, ending in release, with the planned phases from its current one on and, where the plan sets
      them, the planned default settings; it holds what the provider shows, seen from the current phase. */
  lemma GuardIsMadeExactly(current: Snapshot, item: MigrationItem, source: Price, target: Price, scheduleId: Option<string>)
    requires IsSnapshot(current) && IsSnapshot(item.snapshot)
    ensures MakeGuard(current, item, source, target, scheduleId).Some? <==>
              && Plannable(item.snapshot, source, target) && current.subscription == item.subscription
              && current.schedule.Some? && scheduleId == Some(current.schedule.value.id)
              && current.schedule.value.endBehavior == Release
              && var plan := PlanFor(item.snapshot, source, target);
                 && |Remaining(current.schedule.value)| == |plan.phases|
                 && (forall k | 0 <= k < |plan.phases| :: Remaining(current.schedule.value)[k] == plan.phases[k])
                 && plan.defaultSettings in {None, Some(current.schedule.value.defaultSettings)}
    ensures MakeGuard(current, item, source, target, scheduleId).Some? ==>
              var guard, schedule := MakeGuard(current, item, source, target, scheduleId).value, current.schedule.value;
              && guard.schedule == Projection(schedule.id, Release, schedule.defaultSettings, schedule.phases)
              && guard.defaults == schedule.defaultSettings && guard.phaseIndex == schedule.currentPhaseIndex
              && guard.phaseStart == Remaining(schedule)[0].startDate
  {
    if current.schedule.Some? && Plannable(item.snapshot, source, target) {
      var rest, phases := Remaining(current.schedule.value), PlanFor(item.snapshot, source, target).phases;
      assert rest == phases <==> |rest| == |phases| && forall k | 0 <= k < |phases| :: rest[k] == phases[k];
    }
  }

  /** A migrated phase against the phase it is restored to. */
  predicate Undoes(migrated: Phase, restored: Phase, source: Price, target: Price) {
    && restored.startDate == migrated.startDate && restored.endDate == migrated.endDate
    && restored.duration == migrated.duration && restored.settings == migrated.settings
    && (migrated == restored || restored.items == Swapped(migrated.items, target, source))
  }

  lemma LastRemainingIsClosed(s: Schedule)
    requires IsSchedule(s)
    ensures IsPhase(Remaining(s)[|Remaining(s)| - 1])
  {
    assert Remaining(s)[|Remaining(s)| - 1] == s.phases[|s.phases| - 1];
  }

  lemma LastPlannedIsOpen(s: Snapshot, source: Price, target: Price)
    requires IsSnapshot(s) && Plannable(s, source, target) && (s.schedule.None? || |Remaining(s.schedule.value)| == 1)
    ensures var phases := PlanFor(s, source, target).phases; phases != [] && !IsPhase(phases[|phases| - 1])
  {
    if s.schedule.Some? { BaseKeepsTheSchedule(s, source, target); }
  }

  predicate HasTwoRemaining(s: Snapshot)
    requires IsSnapshot(s)
  {
    s.schedule.Some? && 2 <= |Remaining(s.schedule.value)|
  }

  /** A plan made of no schedule or of its last phase ends in a phase without an end, which no provider
      schedule has: such a plan never gets a guard. */
  lemma GuardsNeedTwoRemainingPhases(current: Snapshot, item: MigrationItem, source: Price, target: Price, scheduleId: Option<string>)
    requires IsSnapshot(current) && IsSnapshot(item.snapshot)
    requires MakeGuard(current, item, source, target, scheduleId).Some?
    ensures HasTwoRemaining(item.snapshot)
  {
    LastRemainingIsClosed(current.schedule.value);
    if !HasTwoRemaining(item.snapshot) { LastPlannedIsOpen(item.snapshot, source, target); }
  }

  /** What the provider shows once it has taken over a plan. */
  function TakenOver(item: MigrationItem, source: Price, target: Price, scheduleId: string): Snapshot
    requires IsSnapshot(item.snapshot)
  {
    var plan := PlanFor(item.snapshot, source, target);
    var settings := if plan.defaultSettings.Some? then plan.defaultSettings.value else "";
    item.snapshot.(subscription := item.subscription, schedule := Some(Schedule(scheduleId, Release, 0, settings, plan.phases)))
  }

  lemma TakenOverGetsGuard(item: MigrationItem, source: Price, target: Price, scheduleId: string)
    requires IsSnapshot(item.snapshot) && Plannable(item.snapshot, source, target) && HasTwoRemaining(item.snapshot)
    ensures var current := TakenOver(item, source, target, scheduleId);
            IsSnapshot(current) && MakeGuard(current, item, source, target, Some(scheduleId)).Some?
  {
    var current := TakenOver(item, source, target, scheduleId);
    var base, phases := BasePhases(item.snapshot), PlanFor(item.snapshot, source, target).phases;
    BaseKeepsTheSchedule(item.snapshot, source, target);
    BaseIsPlannable(item.snapshot, source, target);
    forall k | 0 <= k < |phases| ensures IsPhase(phases[k]) {
      assert base[k] in item.snapshot.schedule.value.phases;
    }
    assert phases[0..] == phases;
  }

  /** An item that can be planned gets a guard from some state of its subscription exactly when the
      worker knows its schedule and the plan was made of at least two remaining phases of one. */
  lemma GuardsExistExactlyForTwoRemainingPhases(item: MigrationItem, source: Price, target: Price, scheduleId: Option<string>)
    requires IsSnapshot(item.snapshot) && Plannable(item.snapshot, source, target)
    ensures (exists current | IsSnapshot(current) :: MakeGuard(current, item, source, target, scheduleId).Some?)
       <==> scheduleId.Some? && HasTwoRemaining(item.snapshot)
  {
    if scheduleId.Some? && HasTwoRemaining(item.snapshot) {
      TakenOverGetsGuard(item, source, target, scheduleId.value);
    }
    forall current | IsSnapshot(current) && MakeGuard(current, item, source, target, scheduleId).Some?
      ensures HasTwoRemaining(item.snapshot)
    {
      GuardsNeedTwoRemainingPhases(current, item, source, target, scheduleId);
    }
  }

  /** An allowed rollback restores exactly the original phases from the current one on, each the original
      of the migrated phase that stands in its place, if no other original phase starts when the current
      one does; otherwise it asks for a review. */
  lemma RollbackRestoresOriginalSuffix(applied: Snapshot, current: Snapshot, item: MigrationItem, source: Price, target: Price)
      returns (m: nat)
    requires IsSnapshot(applied) && IsSnapshot(current) && IsSnapshot(item.snapshot)
    requires item.guard.Some? && MakeGuard(applied, item, source, target, item.scheduleId) == item.guard
    requires Allows(current, item, source, target)
    ensures item.snapshot.schedule.Some? && current.schedule.Some?
    ensures var original, schedule := item.snapshot.schedule.value, current.schedule.value;
            var anchor := schedule.phases[schedule.currentPhaseIndex].startDate;
            && m < |Remaining(original)|
            && Restored(original, anchor)
               == (if HasOtherStart(original.phases, original.currentPhaseIndex + m, anchor) then None else Some(Remaining(original)[m..]))
            && |Remaining(schedule)| == |Remaining(original)[m..]|
            && forall k | 0 <= k < |Remaining(schedule)| ::
                 Undoes(Remaining(schedule)[k], Remaining(original)[m..][k], source, target)
  {
    GuardsNeedTwoRemainingPhases(applied, item, source, target, item.scheduleId);
    m := AllowedRollbackSeesThePlan(applied, current, item, source, target);
    var original, schedule := item.snapshot.schedule.value, current.schedule.value;
    var base, phases := BasePhases(item.snapshot), PlanFor(item.snapshot, source, target).phases;
    BaseKeepsTheSchedule(item.snapshot, source, target);
    var anchor, at := phases[m].startDate, original.currentPhaseIndex + m;
    assert original.phases[at] == base[m] && StartsAt(original.phases, at, anchor);
    RestoredExactly(original, anchor);
    assert original.phases[at..] == Remaining(original)[m..];
    forall k | 0 <= k < |Remaining(schedule)|
      ensures Undoes(Remaining(schedule)[k], Remaining(original)[m..][k], source, target)
    {
      assert Remaining(schedule)[k] == phases[m + k] && Remaining(original)[m..][k] == base[m + k];
      if 0 < m + k { SwappingBackRecoversLines(item.snapshot, source, target, m + k); }
    }
  }
}
