/**
 The next-renewal plan: a subscription schedule whose later phases carry the target price instead of
 the source price. The builder edits copies of the phases in loops; it is proved against a
 specification by position, and the specification is proved to change one price per later phase and
 to be undone by the opposite replacement.
 */
module SchedulePlan {
  import opened Types

  type Price = string

  datatype Proration = NoProration | CreateProrations | AlwaysInvoice
  datatype EndBehavior = Release | CancelAtEnd

  /** A phase line; `terms` stands for quantity, taxes, discounts, metadata and price configuration. */
  datatype Line = Line(price: Price, terms: string)

  datatype Item = Item(id: string, line: Line)

  /** A schedule phase; `settings` stands for every field not named here. */
  datatype Phase = Phase(
    startDate: int, endDate: Option<int>, duration: Option<string>,
    items: seq<Line>, proration: Proration, settings: string)

  datatype Schedule = Schedule(
    id: string, endBehavior: EndBehavior, currentPhaseIndex: nat, defaultSettings: string, phases: seq<Phase>)

  /** The provider's state of one subscription; `settings` are those a phase repeats. */
  datatype Snapshot = Snapshot(
    subscription: string, items: seq<Item>, currentPeriodStart: int, currentPeriodEnd: int,
    pendingUpdate: bool, settings: string, schedule: Option<Schedule>)

  datatype Reason = SourceDrift | AmbiguousPrice | UnsupportedSchedule | PhaseLimit | UpdatePending

  /** A plan always ends in release and asks for no proration. */
  datatype Plan = Plan(scheduleId: Option<string>, defaultSettings: Option<string>, phases: seq<Phase>)

  datatype Result<T> = Ok(value: T) | Review(reason: Reason)

  // ---------------------------------------------------------------- the snapshot's own rules

  predicate IsPhase(p: Phase) {
    && (p.endDate.Some? <==> p.duration.None?)
    && (p.endDate.Some? ==> p.startDate < p.endDate.value)
    && 1 <= |p.items| <= 20
  }

  predicate IsSchedule(s: Schedule) {
    1 <= |s.phases| <= 20 && s.currentPhaseIndex < |s.phases| && forall p | p in s.phases :: IsPhase(p)
  }

  predicate IsSnapshot(s: Snapshot) {
    s.currentPeriodStart < s.currentPeriodEnd && (s.schedule.Some? ==> IsSchedule(s.schedule.value))
  }

  // ---------------------------------------------------------------- specification

  function Count(items: seq<Line>, price: Price): nat {
    if items == [] then 0 else (if items[0].price == price then 1 else 0) + Count(items[1..], price)
  }

  /** Every line at one price moves to another. */
  function Swapped(items: seq<Line>, from: Price, to: Price): (r: seq<Line>)
    ensures |r| == |items|
  {
    seq(|items|, i requires 0 <= i < |items| => if items[i].price == from then items[i].(price := to) else items[i])
  }

  function Lines(items: seq<Item>): (r: seq<Line>)
    ensures |r| == |items|
  {
    seq(|items|, i requires 0 <= i < |items| => items[i].line)
  }

  /** The later form of a phase. */
  function Migrated(p: Phase, source: Price, target: Price): Phase {
    p.(items := Swapped(p.items, source, target), proration := NoProration)
  }

  function PhaseOfSubscription(s: Snapshot): Phase {
    Phase(s.currentPeriodStart, Some(s.currentPeriodEnd), None, Lines(s.items), NoProration, s.settings)
  }

  /** The open phase that follows a last phase. */
  function Continued(p: Phase, start: int): Phase { p.(startDate := start, endDate := None) }

  /** The phases the plan is made of before any price changes: those still to come, and one more when
      only the current one is left. */
  function BasePhases(s: Snapshot): seq<Phase>
    requires IsSnapshot(s)
  {
    if s.schedule.None? then
      var current := PhaseOfSubscription(s);
      [current, Continued(current, s.currentPeriodEnd)]
    else
      var rest := s.schedule.value.phases[s.schedule.value.currentPhaseIndex..];
      if |rest| == 1 && rest[0].endDate.Some? then rest + [Continued(rest[0], rest[0].endDate.value)] else rest
  }

  /** When a subscription can be planned at all. */
  predicate Plannable(s: Snapshot, source: Price, target: Price)
    requires IsSnapshot(s)
  {
    && source != target && !s.pendingUpdate
    && Count(Lines(s.items), source) == 1 && Count(Lines(s.items), target) == 0
    && (s.schedule.Some? ==>
          && s.schedule.value.endBehavior == Release
          && var rest := s.schedule.value.phases[s.schedule.value.currentPhaseIndex..];
             && |rest| <= 10 && (|rest| == 1 ==> rest[0].endDate.Some?)
             && Count(rest[0].items, source) == 1
             && var base := BasePhases(s);
                forall k | 1 <= k < |base| :: Count(base[k].items, target) == 0 && Count(base[k].items, source) == 1)
  }

  /** The planned phases: the current one as it is, the later ones migrated. */
  function PlannedPhases(base: seq<Phase>, source: Price, target: Price): (r: seq<Phase>)
    ensures |r| == |base|
  {
    seq(|base|, k requires 0 <= k < |base| => if k == 0 then base[0] else Migrated(base[k], source, target))
  }

  function PlanFor(s: Snapshot, source: Price, target: Price): Plan
    requires IsSnapshot(s)
  {
    Plan(if s.schedule.Some? then Some(s.schedule.value.id) else None,
         if s.schedule.Some? then Some(s.schedule.value.defaultSettings) else None,
         PlannedPhases(BasePhases(s), source, target))
  }

  // ---------------------------------------------------------------- the builder

  method CountLines(items: seq<Line>, price: Price) returns (n: nat)
    ensures n == Count(items, price)
  {
    n := 0;
    for i := |items| downto 0
      invariant n == Count(items[i..], price)
    {
      assert items[i..][0] == items[i] && items[i..][1..] == items[i + 1..];
      if items[i].price == price { n := n + 1; }
    }
  }

  /** Moves the one line at the source price of a phase to the target price. */
  method ReplacePhasePrice(phase: Phase, source: Price, target: Price) returns (r: Result<Phase>)
    ensures r == if Count(phase.items, source) == 1 then Ok(Migrated(phase, source, target))
                 else Review(if Count(phase.items, source) > 1 then AmbiguousPrice else UnsupportedSchedule)
  {
    var matches := CountLines(phase.items, source);
    if matches != 1 { return Review(if matches > 1 then AmbiguousPrice else UnsupportedSchedule); }
    var items := phase.items;
    for i := 0 to |items|
      invariant |items| == |phase.items|
      invariant forall x | 0 <= x < |items| ::
                  items[x] == if x < i && phase.items[x].price == source then phase.items[x].(price := target) else phase.items[x]
    {
      if items[i].price == source { items := items[i := items[i].(price := target)]; }
    }
    assert items == Swapped(phase.items, source, target);
    r := Ok(phase.(items := items, proration := NoProration));
  }

  /** Builds the plan, or says why the subscription needs review. It succeeds exactly on plannable
      subscriptions. */
  method BuildNextRenewalPlan(s: Snapshot, source: Price, target: Price) returns (r: Result<Plan>)
    requires IsSnapshot(s)
    ensures r.Ok? <==> Plannable(s, source, target)
    ensures r.Ok? ==> r.value == PlanFor(s, source, target)
    ensures r == Review(UpdatePending) ==> s.pendingUpdate
    ensures r == Review(PhaseLimit) ==> s.schedule.Some? && |s.schedule.value.phases| - s.schedule.value.currentPhaseIndex > 10
    ensures r == Review(SourceDrift) ==>
              || source == target || Count(Lines(s.items), source) == 0
              || (s.schedule.Some? && Count(s.schedule.value.phases[s.schedule.value.currentPhaseIndex].items, source) == 0)
    ensures r == Review(AmbiguousPrice) ==>
              || Count(Lines(s.items), source) > 1 || Count(Lines(s.items), target) > 0
              || exists k :: 0 <= k < |BasePhases(s)| && (Count(BasePhases(s)[k].items, source) > 1 || Count(BasePhases(s)[k].items, target) > 0)
    ensures r == Review(UnsupportedSchedule) ==>
              && s.schedule.Some?
              && var rest := s.schedule.value.phases[s.schedule.value.currentPhaseIndex..];
                 || s.schedule.value.endBehavior != Release
                 || (|rest| == 1 && rest[0].endDate.None?)
                 || exists k :: 1 <= k < |BasePhases(s)| && Count(BasePhases(s)[k].items, source) == 0
  {
    if source == target { return Review(SourceDrift); }
    var matches := CountLines(Lines(s.items), source);
    if matches != 1 { return Review(if matches > 1 then AmbiguousPrice else SourceDrift); }
    var existing := CountLines(Lines(s.items), target);
    if existing > 0 { return Review(AmbiguousPrice); }
    if s.pendingUpdate { return Review(UpdatePending); }
    if s.schedule.None? {
      var current := PhaseOfSubscription(s);
      var future := current.(startDate := s.currentPeriodEnd, endDate := None);
      var replaced := ReplacePhasePrice(future, source, target);
      assert PlannedPhases(BasePhases(s), source, target) == [current, replaced.value];
      return Ok(Plan(None, None, [current, replaced.value]));
    }
    var schedule := s.schedule.value;
    if schedule.endBehavior != Release { return Review(UnsupportedSchedule); }
    var phases := schedule.phases[schedule.currentPhaseIndex..];
    if !(1 <= |phases| <= 10) { return Review(PhaseLimit); }
    var currentMatches := CountLines(phases[0].items, source);
    if currentMatches != 1 { return Review(if currentMatches > 1 then AmbiguousPrice else SourceDrift); }
    if |phases| == 1 {
      if phases[0].endDate.None? { return Review(UnsupportedSchedule); }
      var future := phases[0].(startDate := phases[0].endDate.value, endDate := None);
      phases := phases + [future];
    }
    ghost var base := phases;
    assert base == BasePhases(s);
    for k := 1 to |phases|
      invariant |phases| == |base|
      invariant phases[0] == base[0]
      invariant forall x | 1 <= x < k :: Count(base[x].items, target) == 0 && Count(base[x].items, source) == 1
      invariant forall x | 1 <= x < |base| :: phases[x] == if x < k then Migrated(base[x], source, target) else base[x]
    {
      var targets := CountLines(phases[k].items, target);
      if targets > 0 { return Review(AmbiguousPrice); }
      var replaced := ReplacePhasePrice(phases[k], source, target);
      if replaced.Review? { return Review(replaced.reason); }
      phases := phases[k := replaced.value];
    }
    assert phases == PlannedPhases(base, source, target);
    if |phases| > 10 { return Review(PhaseLimit); }
    r := Ok(Plan(Some(schedule.id), Some(schedule.defaultSettings), phases));
  }

  // ---------------------------------------------------------------- what the plan changes

  lemma {:induction false} NoneAtPrice(items: seq<Line>, price: Price)
    ensures Count(items, price) == 0 <==> forall i | 0 <= i < |items| :: items[i].price != price
    decreases |items|
  {
    if items == [] {
    } else {
      NoneAtPrice(items[1..], price);
      assert forall i | 1 <= i < |items| :: items[i] == items[1..][i - 1];
    }
  }

  lemma {:induction false} OneAtPrice(items: seq<Line>, price: Price) returns (at: nat)
    requires Count(items, price) == 1
    ensures at < |items| && items[at].price == price
    ensures forall i | 0 <= i < |items| && i != at :: items[i].price != price
    decreases |items|
  {
    if items[0].price == price {
      at := 0;
      NoneAtPrice(items[1..], price);
      assert forall i | 1 <= i < |items| :: items[i] == items[1..][i - 1];
    } else {
      var rest := OneAtPrice(items[1..], price);
      at := rest + 1;
      assert forall i | 1 <= i < |items| :: items[i] == items[1..][i - 1];
    }
  }

  /** One phase against its later form: one line changed its price from source to target and nothing
      else changed but the proration behaviour. */
  predicate OneLineMoved(p: Phase, q: Phase, source: Price, target: Price) {
    && q == p.(items := q.items, proration := NoProration) && |q.items| == |p.items|
    && exists at :: 0 <= at < |p.items| && p.items[at].price == source && q.items == p.items[at := p.items[at].(price := target)]
  }

  lemma MigratedMovesOneLine(p: Phase, source: Price, target: Price)
    requires Count(p.items, source) == 1
    ensures OneLineMoved(p, Migrated(p, source, target), source, target)
  {
    var at := OneAtPrice(p.items, source);
    assert Migrated(p, source, target).items == p.items[at := p.items[at].(price := target)];
  }

  /** A plan leaves the current phase alone and moves one line in every later phase. */
  lemma PlanMovesOneLinePerLaterPhase(s: Snapshot, source: Price, target: Price)
    requires IsSnapshot(s) && Plannable(s, source, target)
    ensures var base := BasePhases(s); var phases := PlanFor(s, source, target).phases;
            && |phases| == |base| && 2 <= |base| <= 10 && phases[0] == base[0]
            && forall k | 1 <= k < |base| :: OneLineMoved(base[k], phases[k], source, target)
  {
    var base := BasePhases(s);
    BaseIsPlannable(s, source, target);
    forall k | 1 <= k < |base| ensures OneLineMoved(base[k], PlanFor(s, source, target).phases[k], source, target) {
      MigratedMovesOneLine(base[k], source, target);
    }
  }

  lemma BaseIsPlannable(s: Snapshot, source: Price, target: Price)
    requires IsSnapshot(s) && Plannable(s, source, target)
    ensures var base := BasePhases(s);
            2 <= |base| <= 10 && forall k | 1 <= k < |base| :: Count(base[k].items, target) == 0 && Count(base[k].items, source) == 1
  {
  }

  /** The plan is for the subscription's own schedule and its settings. The phases still to come are those
      of the schedule; an appended phase starts where the last one ends, repeats it, and has no end. */
  lemma BaseKeepsTheSchedule(s: Snapshot, source: Price, target: Price)
    requires IsSnapshot(s) && Plannable(s, source, target) && s.schedule.Some?
    ensures var base := BasePhases(s); var rest := s.schedule.value.phases[s.schedule.value.currentPhaseIndex..];
            && rest <= base
            && (2 <= |rest| ==> base == rest)
            && (|rest| == 1 ==>
                  |base| == 2 && rest[0].endDate == Some(base[1].startDate) && base[1].endDate == None && base[1].duration == None
                  && base[1] == rest[0].(startDate := base[1].startDate, endDate := None))
    ensures var plan := PlanFor(s, source, target);
            plan.scheduleId == Some(s.schedule.value.id) && plan.defaultSettings == Some(s.schedule.value.defaultSettings)
  {
    var rest := s.schedule.value.phases[s.schedule.value.currentPhaseIndex..];
    assert rest[0] in s.schedule.value.phases;
  }

  lemma SwapBack(items: seq<Line>, source: Price, target: Price)
    requires Count(items, target) == 0
    ensures Swapped(Swapped(items, source, target), target, source) == items
  {
    NoneAtPrice(items, target);
  }

  /** Moving the target price back to the source price recovers the lines of every phase. */
  lemma SwappingBackRecoversLines(s: Snapshot, source: Price, target: Price, k: nat)
    requires IsSnapshot(s) && Plannable(s, source, target) && 1 <= k < |BasePhases(s)|
    ensures Swapped(PlanFor(s, source, target).phases[k].items, target, source) == BasePhases(s)[k].items
  {
    BaseIsPlannable(s, source, target);
    SwapBack(BasePhases(s)[k].items, source, target);
  }

  // ---------------------------------------------------------------- who can be planned

  /** Exactly one line is at the price. */
  predicate HasOne(items: seq<Line>, price: Price) {
    exists at :: 0 <= at < |items| && items[at].price == price && HasNoneBut(items, price, at)
  }

  predicate HasNoneBut(items: seq<Line>, price: Price, at: nat) {
    forall i | 0 <= i < |items| && i != at :: items[i].price != price
  }

  predicate HasNone(items: seq<Line>, price: Price) { forall i | 0 <= i < |items| :: items[i].price != price }

  lemma {:induction false} TheOneIsCounted(items: seq<Line>, price: Price, at: nat)
    requires at < |items| && items[at].price == price && HasNoneBut(items, price, at)
    ensures Count(items, price) == 1
    decreases |items|
  {
    if at == 0 {
      NoneAtPrice(items[1..], price);
    } else {
      TheOneIsCounted(items[1..], price, at - 1);
    }
  }

  lemma CountIsOne(items: seq<Line>, price: Price)
    ensures Count(items, price) == 1 <==> HasOne(items, price)
    ensures Count(items, price) == 0 <==> HasNone(items, price)
  {
    NoneAtPrice(items, price);
    if Count(items, price) == 1 {
      var at := OneAtPrice(items, price);
      assert HasNoneBut(items, price, at);
    }
    if at: nat :| at < |items| && items[at].price == price && HasNoneBut(items, price, at) {
      TheOneIsCounted(items, price, at);
    }
  }

  /** Which subscriptions can be planned, line by line: the prices differ, no update is pending, the
      subscription has exactly one line at the source price and none at the target price; and a schedule
      ends in release, has at most ten phases left, has one source line in each of them and no target
      line after the current one, and if only the current phase is left, that one has an end and no
      target line. */
  lemma PlannableExactly(s: Snapshot, source: Price, target: Price)
    requires IsSnapshot(s)
    ensures Plannable(s, source, target) <==>
              && source != target && !s.pendingUpdate
              && HasOne(Lines(s.items), source) && HasNone(Lines(s.items), target)
              && (s.schedule.Some? ==>
                    && s.schedule.value.endBehavior == Release
                    && var rest := s.schedule.value.phases[s.schedule.value.currentPhaseIndex..];
                       && |rest| <= 10
                       && (forall k | 0 <= k < |rest| :: HasOne(rest[k].items, source))
                       && (forall k | 1 <= k < |rest| :: HasNone(rest[k].items, target))
                       && (|rest| == 1 ==> rest[0].endDate.Some? && HasNone(rest[0].items, target)))
  {
    hide HasOne;
    hide HasNone;
    CountIsOne(Lines(s.items), source);
    CountIsOne(Lines(s.items), target);
    if s.schedule.Some? {
      var rest := s.schedule.value.phases[s.schedule.value.currentPhaseIndex..];
      forall k | 0 <= k < |rest|
        ensures Count(rest[k].items, source) == 1 <==> HasOne(rest[k].items, source)
        ensures Count(rest[k].items, target) == 0 <==> HasNone(rest[k].items, target)
      {
        CountIsOne(rest[k].items, source);
        CountIsOne(rest[k].items, target);
      }
      if |rest| == 1 && rest[0].endDate.Some? {
        assert BasePhases(s)[1].items == rest[0].items;
      } else {
        assert BasePhases(s) == rest;
      }
    }
  }

  /** The plan of a subscription without a schedule has two phases over its lines, settings included: the
      current period as it is, and from its end on, without an end, the same with the source line moved. */
  lemma PlanWithoutScheduleSplitsAtPeriodEnd(s: Snapshot, source: Price, target: Price)
    requires IsSnapshot(s) && Plannable(s, source, target) && s.schedule.None?
    ensures var plan := PlanFor(s, source, target);
            && plan.scheduleId.None? && plan.defaultSettings.None? && |plan.phases| == 2
            && plan.phases[0] == Phase(s.currentPeriodStart, Some(s.currentPeriodEnd), None, Lines(s.items), NoProration, s.settings)
            && plan.phases[1].startDate == s.currentPeriodEnd && plan.phases[1].endDate.None? && plan.phases[1].duration.None?
            && plan.phases[1].settings == s.settings && plan.phases[1].proration == NoProration
            && |plan.phases[1].items| == |s.items|
            && forall i | 0 <= i < |s.items| ::
                 && plan.phases[0].items[i] == s.items[i].line
                 && plan.phases[1].items[i].terms == s.items[i].line.terms
                 && plan.phases[1].items[i].price == if s.items[i].line.price == source then target else s.items[i].line.price
  {
    PlanMovesOneLinePerLaterPhase(s, source, target);
  }
}
