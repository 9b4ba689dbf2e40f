/** Order events end to end: committed transitions, outbox, relay and an idempotent handler put
    together (internal/core/orders, internal/events/relay.go and idempotency.go). */
module Pipeline {
  import opened Orders
  import opened Delivery
  import opened Counting
  import I = Idempotency

  datatype System = System(shop: Shop, relay: Relay, dedup: I.Dedup)

  // Deliver: one step of some call of the idempotent handler.  The bus calls it with sent events
  // only, as often as it likes and overlapping as they please.
  datatype Action = Serve(call: Orders.Call) | Relayed(poll: RelayCall) | Deliver(step: I.Step)

  ghost predicate Possible(s: System, limit: nat, a: Action) {
    match a
    case Serve(call) => call.env.useOutbox
    case Relayed(call) => call.Poll? && FetchOK(s.relay, limit, call)
    case Deliver(step) => I.Enabled(s.dedup, step) && (step.Begin? ==> step.id in s.relay.sent)
  }

  ghost function Next(s: System, limit: nat, a: Action): System
    requires Possible(s, limit, a)
  {
    match a
    case Serve(call) =>
      var shop := Orders.Step(s.shop, call).1;
      System(shop, if |shop.outbox| > |s.shop.outbox| then RelayNext(s.relay, Store) else s.relay, s.dedup)
    case Relayed(call) => s.(relay := RelayNext(s.relay, call))
    case Deliver(step) => s.(dedup := I.Next(s.dedup, step))
  }

  ghost function Run(s: System, limit: nat, actions: seq<Action>): System
    decreases |actions|
  {
    if actions == [] then s
    else Run(if Possible(s, limit, actions[0]) then Next(s, limit, actions[0]) else s, limit, actions[1..])
  }

  ghost const START := System(Shop(map[], [], []), Relay([], [], []), I.NO_CALLS)

  // The schedule of the handler's calls within a run.
  ghost function Deliveries(s: System, limit: nat, actions: seq<Action>): seq<I.Step>
    decreases |actions|
  {
    if actions == [] then []
    else if !Possible(s, limit, actions[0]) then Deliveries(s, limit, actions[1..])
    else
      (if actions[0].Deliver? then [actions[0].step] else [])
      + Deliveries(Next(s, limit, actions[0]), limit, actions[1..])
  }

  lemma {:induction false} DeliveriesDriveDedup(s: System, limit: nat, actions: seq<Action>)
    ensures Run(s, limit, actions).dedup == I.Run(s.dedup, Deliveries(s, limit, actions))
    decreases |actions|
  {
    if actions != [] {
      if Possible(s, limit, actions[0]) {
        var s' := Next(s, limit, actions[0]);
        DeliveriesDriveDedup(s', limit, actions[1..]);
        var rest := Deliveries(s', limit, actions[1..]);
        if actions[0].Deliver? {
          assert ([actions[0].step] + rest)[1..] == rest;
        } else {
          assert [] + rest == rest;
        }
      } else {
        DeliveriesDriveDedup(s, limit, actions[1..]);
      }
    }
  }

  ghost predicate DeliveredWereSent(s: System) {
    forall i :: 0 <= i < |s.dedup.calls| ==> s.dedup.calls[i].id in s.relay.sent
  }

  ghost predicate Sound(s: System) {
    && OutboxMirrors(s.shop) && RelaySound(s.relay)
    && |s.relay.published| == |s.shop.outbox|
    && DeliveredWereSent(s)
  }

  lemma NextKeepsSound(s: System, limit: nat, a: Action)
    requires Sound(s) && Possible(s, limit, a)
    ensures Sound(Next(s, limit, a))
  {
    hide OutboxMirrors, RelaySound;
    match a {
      case Serve(call) =>
        StepKeepsMirror(s.shop, call);
        RelayKeepsSound(s.relay, limit, Store);
        OutboxGrowsByOne(s.shop, call);
        hide Step;
      case Relayed(call) => RelayKeepsSound(s.relay, limit, call);
      case Deliver(step) =>
    }
  }

  lemma OutboxGrowsByOne(s: Shop, call: Orders.Call)
    ensures var s' := Orders.Step(s, call).1;
      s'.outbox == s.outbox || |s'.outbox| == |s.outbox| + 1
  {
  }

  lemma {:induction false} RunKeepsSound(s: System, limit: nat, actions: seq<Action>)
    requires Sound(s)
    ensures Sound(Run(s, limit, actions))
    decreases |actions|
  {
    if actions != [] {
      if Possible(s, limit, actions[0]) {
        NextKeepsSound(s, limit, actions[0]);
        RunKeepsSound(Next(s, limit, actions[0]), limit, actions[1..]);
      } else {
        RunKeepsSound(s, limit, actions[1..]);
      }
    }
  }

  // ----- one record per event -------------------------------------------------------------

  lemma {:induction false} AboutHolds(events: seq<Event>, i: nat, id: string)
    requires i < |events| && events[i].id == id
    ensures events[i] in About(events, id)
  {
    var n := |events| - 1;
    if i < n {
      AboutHolds(events[..n], i, id);
    }
  }

  lemma {:induction false} AboutRepeats(events: seq<Event>, i: nat, j: nat, id: string)
    requires i < j < |events| && events[i] == events[j] && events[i].id == id
    ensures exists a, b :: 0 <= a < b < |About(events, id)| && About(events, id)[a] == About(events, id)[b] == events[i]
  {
    var n := |events| - 1;
    var init := About(events[..n], id);
    if j < n {
      AboutRepeats(events[..n], i, j, id);
      var a, b :| 0 <= a < b < |init| && init[a] == init[b] == events[i];
      assert About(events, id)[a] == About(events, id)[b] == events[i];
    } else {
      AboutHolds(events[..n], i, id);
      var a :| 0 <= a < |init| && init[a] == events[i];
      assert About(events, id)[a] == About(events, id)[|init|] == events[i];
    }
  }

  lemma EventsAreUnique(s: Shop, i: nat, j: nat)
    requires OutboxMirrors(s) && i < j < |s.outbox|
    ensures s.outbox[i] != s.outbox[j]
  {
    if s.outbox[i] == s.outbox[j] {
      var id := s.outbox[i].id;
      assert MirrorAt(s, id);
      AboutRepeats(s.outbox, i, j, id);
      hide About;
      assert false;
    }
  }

  // What an event in the outbox says about its order.
  predicate Happened(s: Shop, e: Event) {
    && e.id in s.orders && s.orders[e.id].total == e.total
    && (e.OrderPaid? ==> s.orders[e.id].status != Pending)
    && (e.OrderCancelled? ==> s.orders[e.id].status == Canceled)
  }

  // Whatever fails, in any order and however often anything is retried: an event whose handler
  // succeeded is in the outbox exactly once and tells of a committed change of its order.  Its
  // handler succeeded at most once more than it could not be marked, unless two deliveries of
  // it overlapped and both took effect; so never if its lookups do not overtake each other.
  lemma EffectsComeFromCommits(limit: nat, actions: seq<Action>, i: nat)
    ensures var s := Run(START, limit, actions);
      && (I.Handlings(s.dedup, i) > 0 ==>
            && i < |s.shop.outbox|
            && Happened(s.shop, s.shop.outbox[i])
            && forall j :: 0 <= j < |s.shop.outbox| && j != i ==> s.shop.outbox[j] != s.shop.outbox[i])
      && (I.Kept(s.dedup, i) <==> !I.Overlapped(s.dedup, i))
      && (I.Serial(I.NO_CALLS, Deliveries(START, limit, actions), i) ==> I.Kept(s.dedup, i))
  {
    StartIsSound();
    RunKeepsSound(START, limit, actions);
    DeliveriesDriveDedup(START, limit, actions);
    var s, steps := Run(START, limit, actions), Deliveries(START, limit, actions);
    I.BrokenIffOverlap(steps, i);
    if I.Serial(I.NO_CALLS, steps, i) {
      I.KeptIffSerial(steps, i);
      assert I.Finishing([]);
      assert steps[..|steps|] + [] == steps;
    }
    if I.Handlings(s.dedup, i) > 0 {
      CountZero(s.dedup.calls, I.In(i, {I.Handled, I.Marked, I.MarkFailed}));
      hide *;
      SentAreCommitted(s, i);
    }
  }

  lemma SentAreCommitted(s: System, i: nat)
    requires Sound(s) && I.Handlings(s.dedup, i) > 0
    ensures i < |s.shop.outbox| && Happened(s.shop, s.shop.outbox[i])
    ensures forall j :: 0 <= j < |s.shop.outbox| && j != i ==> s.shop.outbox[j] != s.shop.outbox[i]
  {
    CountZero(s.dedup.calls, I.In(i, {I.Handled, I.Marked, I.MarkFailed}));
    hide OutboxMirrors, Count;
    assert i in s.relay.sent;
    EventHappened(s.shop, i);
    forall j | 0 <= j < |s.shop.outbox| && j != i ensures s.shop.outbox[j] != s.shop.outbox[i] {
      if i < j {
        EventsAreUnique(s.shop, i, j);
      } else {
        EventsAreUnique(s.shop, j, i);
      }
    }
  }

  lemma EventHappened(s: Shop, i: nat)
    requires OutboxMirrors(s) && i < |s.outbox|
    ensures Happened(s, s.outbox[i])
  {
    var id := s.outbox[i].id;
    AboutHolds(s.outbox, i, id);
    assert MirrorAt(s, id);
    hide About;
  }

  lemma StartIsSound()
    ensures Sound(START)
  {
  }
}
