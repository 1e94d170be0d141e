/**
 Which delivery orders of a subscription's events lead to the state of the greatest event. A plan
 skips an event that is not newer than the stored one or has the stored state hash; this is what
 makes the order matter, and exactly when it does is proved here.
 */
module Projection {
  import opened Types
  import opened TextOrder
  import Ingress = WebhookIngress

  type Row = Ingress.Projection

  datatype StateEvent = StateEvent(createdAt: int, id: string, hash: string, state: string)

  /** One delivery: the planned row if there is one, the stored row otherwise. */
  function Deliver(current: Option<Row>, e: StateEvent): Option<Row> {
    var row := Ingress.Plan(current, e.createdAt, e.id, e.hash, e.state);
    if row.Some? then row else current
  }

  function DeliverAll(current: Option<Row>, order: seq<StateEvent>): Option<Row>
    decreases |order|
  {
    if order == [] then current else DeliverAll(Deliver(current, order[0]), order[1..])
  }

  predicate Before(a: StateEvent, b: StateEvent) {
    a.createdAt < b.createdAt || (a.createdAt == b.createdAt && TextOrder.Before(a.id, b.id))
  }

  /** The events of a subscription from the oldest to the newest. */
  predicate Sorted(events: seq<StateEvent>) {
    forall i, j | 0 <= i < j < |events| :: Before(events[i], events[j])
  }

  function Last(events: seq<StateEvent>): StateEvent
    requires events != []
  {
    events[|events| - 1]
  }

  /** The stored row came from an event. */
  predicate From(row: Row, e: StateEvent) {
    row.createdAt == e.createdAt && row.event == e.id && row.hash == e.hash && row.state == e.state
  }

  /** An older event already had the newest state, and the state changed and changed back since. */
  predicate Masked(events: seq<StateEvent>)
    requires events != []
  {
    exists i, j :: 0 <= i < j < |events| && events[i].hash == Last(events).hash != events[j].hash
  }

  predicate DistinctHashes(events: seq<StateEvent>) {
    forall i, j | 0 <= i < j < |events| :: events[i].hash != events[j].hash
  }

  /** Every event is delivered, maybe more than once. */
  predicate Covers(order: seq<StateEvent>, events: seq<StateEvent>) {
    (forall e | e in events :: e in order) && (forall e | e in order :: e in events)
  }

  lemma BeforeIsStrict(a: StateEvent, b: StateEvent)
    requires Before(a, b)
    ensures !Before(b, a) && a != b
  {
    AtMostIsTotal(a.id, b.id);
  }

  /** What one delivery does to a row that came from one of the events. */
  lemma OneDelivery(events: seq<StateEvent>, row: Row, k: nat, j: nat)
    requires Sorted(events) && k < |events| && j < |events| && From(row, events[k])
    ensures var n := Deliver(Some(row), events[j]);
            && n.Some?
            && if k < j && events[j].hash != events[k].hash then From(n.value, events[j]) else n == Some(row)
  {
    if j < k { BeforeIsStrict(events[j], events[k]); }
  }

  // ---------------------------------------------------------------- enough

  /** From a row of event k, or from nothing, the rest of the deliveries end in the newest state. */
  lemma {:induction false} RestEndsInNewest(events: seq<StateEvent>, current: Option<Row>, k: nat, order: seq<StateEvent>)
    requires events != [] && Sorted(events) && !Masked(events)
    requires forall e | e in order :: e in events
    requires current.Some? ==> k < |events| && From(current.value, events[k])
    requires Last(events) in order || (current.Some? && current.value.hash == Last(events).hash)
    ensures var final := DeliverAll(current, order);
            && final.Some? && final.value.hash == Last(events).hash
            && exists i :: 0 <= i < |events| && From(final.value, events[i])
    decreases |order|
  {
    if order == [] {
    } else {
      assert order[0] in events;
      var j :| 0 <= j < |events| && events[j] == order[0];
      var next := Deliver(current, order[0]);
      if current.Some? { OneDelivery(events, current.value, k, j); }
      var taken := current.None? || (k < j && events[j].hash != events[k].hash);
      if current.Some? { NoMask(events, k, j); }
      if order[0] != Last(events) { assert Last(events) in order ==> Last(events) in order[1..]; }
      RestEndsInNewest(events, next, if taken then j else k, order[1..]);
    }
  }

  lemma NoMask(events: seq<StateEvent>, k: nat, j: nat)
    requires events != [] && !Masked(events) && k < |events| && j < |events|
    ensures !(k < j && events[k].hash == Last(events).hash != events[j].hash)
  {
  }

  /** Unless the newest state is masked, every delivery order ends in it, with any redeliveries. */
  lemma EveryOrderEndsInNewestState(events: seq<StateEvent>, order: seq<StateEvent>)
    requires events != [] && Sorted(events) && Covers(order, events) && !Masked(events)
    ensures var final := DeliverAll(None, order); final.Some? && final.value.hash == Last(events).hash
  {
    RestEndsInNewest(events, None, 0, order);
  }

  /** With pairwise different state hashes every delivery order ends in the greatest event's row. */
  lemma EveryOrderEndsInGreatestEvent(events: seq<StateEvent>, order: seq<StateEvent>)
    requires events != [] && Sorted(events) && Covers(order, events) && DistinctHashes(events)
    ensures var final := DeliverAll(None, order); final.Some? && From(final.value, Last(events))
  {
    RestEndsInNewest(events, None, 0, order);
    var final := DeliverAll(None, order);
    var i :| 0 <= i < |events| && From(final.value, events[i]);
    assert i == |events| - 1;
  }

  // ---------------------------------------------------------------- necessary

  lemma {:induction false} SameHashIsSkipped(row: Row, order: seq<StateEvent>)
    requires forall e | e in order :: e.hash == row.hash
    ensures DeliverAll(Some(row), order) == Some(row)
    decreases |order|
  {
    if order == [] {
    } else {
      SameHashIsSkipped(row, order[1..]);
    }
  }

  lemma {:induction false} OlderIsSkipped(row: Row, j: StateEvent, order: seq<StateEvent>)
    requires From(row, j) && forall e | e in order :: Before(e, j)
    ensures DeliverAll(Some(row), order) == Some(row)
    decreases |order|
  {
    if order == [] {
    } else {
      BeforeIsStrict(order[0], j);
      OlderIsSkipped(row, j, order[1..]);
    }
  }

  lemma {:induction false} DeliverAppend(current: Option<Row>, a: seq<StateEvent>, b: seq<StateEvent>)
    ensures DeliverAll(current, a + b) == DeliverAll(DeliverAll(current, a), b)
    decreases |a|
  {
    if a == [] {
      assert a + b == b;
    } else {
      assert (a + b)[0] == a[0] && (a + b)[1..] == a[1..] + b;
      DeliverAppend(Deliver(current, a[0]), a[1..], b);
    }
  }

  predicate IsMask(events: seq<StateEvent>, i: nat, j: nat)
    requires events != []
  {
    i < j < |events| && events[i].hash == Last(events).hash != events[j].hash
  }

  /** Among the events that mask the newest state there is a last one. */
  lemma {:induction false} LastMask(events: seq<StateEvent>, i: nat, j: nat) returns (m: nat)
    requires events != [] && IsMask(events, i, j)
    ensures IsMask(events, i, m) && forall k | m < k < |events| :: events[k].hash == Last(events).hash
    decreases |events| - j
  {
    if k :| j < k < |events| && events[k].hash != Last(events).hash {
      m := LastMask(events, i, k);
    } else {
      m := j;
    }
  }

  /** The order that ends wrong: the older event with the newest state first, the newer ones next,
      then the last event in between, then the rest. */
  function BadOrder(events: seq<StateEvent>, i: nat, j: nat): seq<StateEvent>
    requires i < j < |events|
  {
    [events[i]] + events[j + 1..] + [events[j]] + (events[..i] + events[i + 1..j])
  }

  lemma BadOrderDeliversAll(events: seq<StateEvent>, i: nat, j: nat)
    requires i < j < |events|
    ensures multiset(BadOrder(events, i, j)) == multiset(events)
  {
    assert events == events[..i] + [events[i]] + events[i + 1..j] + [events[j]] + events[j + 1..];
  }

  lemma BadOrderEndsElsewhere(events: seq<StateEvent>, i: nat, j: nat)
    requires events != [] && Sorted(events) && IsMask(events, i, j)
    requires forall k | j < k < |events| :: events[k].hash == Last(events).hash
    ensures var final := DeliverAll(None, BadOrder(events, i, j)); final.Some? && final.value.hash == events[j].hash
  {
    var first, newer, rest := [events[i]], events[j + 1..], events[..i] + events[i + 1..j];
    var row := Ingress.Projection(1, events[i].createdAt, events[i].id, events[i].hash, events[i].state);
    DeliverAppend(None, first + newer + [events[j]], rest);
    DeliverAppend(None, first + newer, [events[j]]);
    DeliverAppend(None, first, newer);
    assert DeliverAll(None, first) == Some(row) by { assert first[1..] == []; }
    SameHashIsSkipped(row, newer);
    OneDelivery(events, row, i, j);
    assert [events[j]][1..] == [];
    var after := Deliver(Some(row), events[j]).value;
    assert DeliverAll(Some(row), [events[j]]) == Some(after);
    OlderIsSkipped(after, events[j], rest);
  }

  predicate EndsInNewest(order: seq<StateEvent>, events: seq<StateEvent>)
    requires events != []
  {
    var final := DeliverAll(None, order);
    final.Some? && final.value.hash == Last(events).hash
  }

  /** The exact condition: all orders of delivering each event once end in the newest state if and
      only if no older event had that state with a different one after it. */
  lemma OrderMattersExactlyWhenMasked(events: seq<StateEvent>)
    requires events != [] && Sorted(events)
    ensures (forall order: seq<StateEvent> | multiset(order) == multiset(events) :: EndsInNewest(order, events))
       <==> !Masked(events)
  {
    if Masked(events) {
      var i, j :| 0 <= i < j < |events| && events[i].hash == Last(events).hash != events[j].hash;
      assert IsMask(events, i, j);
      var m := LastMask(events, i, j);
      BadOrderDeliversAll(events, i, m);
      BadOrderEndsElsewhere(events, i, m);
      assert !EndsInNewest(BadOrder(events, i, m), events);
    } else {
      forall order: seq<StateEvent> | multiset(order) == multiset(events) ensures EndsInNewest(order, events) {
        assert Covers(order, events) by {
          forall e ensures e in order <==> e in events { assert e in multiset(order) <==> e in multiset(events); }
        }
        EveryOrderEndsInNewestState(events, order);
      }
    }
  }
}
