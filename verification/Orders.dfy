/** Orders and the events their state changes leave in the outbox
    (internal/core/orders/service.go and internal/core/orders/domain). */
module Orders {
  import opened Common

  datatype OrderStatus = Pending | Paid | Shipped | Completed | Canceled

  datatype Item = Item(variantID: string, quantity: int, price: real)

  datatype Order = Order(customerID: string, items: seq<Item>, total: real, status: OrderStatus)

  datatype Event =
    | OrderCreated(id: string, total: real)
    | OrderPaid(id: string, total: real)
    | OrderCancelled(id: string, total: real)

  datatype Shop = Shop(orders: map<string, Order>, outbox: seq<Event>, published: seq<Event>)

  // ----- the state machine ----------------------------------------------------------------

  function Transition(current: OrderStatus, action: string): Option<OrderStatus> {
    match current
    case Pending =>
      if action == "pay" then Some(Paid) else if action == "cancel" then Some(Canceled) else None
    case Paid =>
      if action == "ship" then Some(Shipped) else if action == "cancel" then Some(Canceled) else None
    case Shipped => if action == "complete" then Some(Completed) else None
    case _ => None
  }

  function Rank(s: OrderStatus): nat {
    match s case Pending => 0 case Paid => 1 case Shipped => 2 case Completed => 3 case Canceled => 4
  }

  // ----- items ----------------------------------------------------------------------------

  predicate ValidItem(i: Item) {
    i.variantID != "" && i.quantity > 0 && i.price >= 0.0
  }

  ghost predicate ValidItems(items: seq<Item>) {
    items != [] && forall i :: i in items ==> ValidItem(i)
  }

  function Total(items: seq<Item>): real {
    if items == [] then 0.0
    else Total(items[..|items| - 1]) + items[|items| - 1].price * items[|items| - 1].quantity as real
  }

  method ValidateItems(items: seq<Item>) returns (ok: bool)
    ensures ok <==> ValidItems(items)
  {
    if |items| == 0 {
      return false;
    }
    for k := 0 to |items|
      invariant forall i :: i in items[..k] ==> ValidItem(i)
    {
      if items[k].variantID == "" || items[k].quantity <= 0 || items[k].price < 0.0 {
        assert items[k] in items;
        return false;
      }
    }
    assert items[..|items|] == items;
    return true;
  }

  method CalculateTotal(items: seq<Item>) returns (total: real)
    ensures total == Total(items)
  {
    total := 0.0;
    for k := 0 to |items|
      invariant total == Total(items[..k])
    {
      assert items[..k + 1][..k] == items[..k];
      total := total + items[k].price * items[k].quantity as real;
    }
    assert items[..|items|] == items;
  }

  // ----- the calls ------------------------------------------------------------------------

  // useOutbox: outbox and transaction manager are configured.  A transaction takes effect only
  // if the order write, the outbox write and the commit all work.
  datatype Env = Env(useOutbox: bool, id: Option<string>, readOk: bool, writeOk: bool, storeOk: bool, commitOk: bool)

  datatype Call =
    | Create(customerID: string, items: seq<Item>, env: Env)
    | Move(id: string, action: string, env: Env)

  function EventFor(id: string, order: Order): Option<Event> {
    match order.status
    case Paid => Some(OrderPaid(id, order.total))
    case Canceled => Some(OrderCancelled(id, order.total))
    case _ => None
  }

  ghost function CreateStep(s: Shop, customerID: string, items: seq<Item>, env: Env): (Status, Shop) {
    if !ValidItems(items) then (BadRequest, s)
    else if env.id.None? || !env.writeOk || env.id.value in s.orders then (Internal, s)
    else
      var order := Order(customerID, items, Total(items), Pending);
      var evt := OrderCreated(env.id.value, order.total);
      var orders := s.orders[env.id.value := order];
      if env.useOutbox then
        if env.storeOk && env.commitOk then (Ok, s.(orders := orders, outbox := s.outbox + [evt])) else (Internal, s)
      else (Ok, s.(orders := orders, published := s.published + [evt]))
  }

  function MoveStep(s: Shop, id: string, action: string, env: Env): (Status, Shop) {
    if !env.readOk || id !in s.orders then (NotFound, s)
    else
      match Transition(s.orders[id].status, action)
      case None => (BadRequest, s)
      case Some(next) =>
        var order := s.orders[id].(status := next);
        var evt := EventFor(id, order);
        var orders := s.orders[id := order];
        if !env.writeOk then (Internal, s)
        else if evt.Some? && env.useOutbox then
          if env.storeOk && env.commitOk then (Ok, s.(orders := orders, outbox := s.outbox + [evt.value]))
              else (Internal, s)
        else (Ok, s.(orders := orders, published := s.published + if evt.Some? then [evt.value] else []))
  }

  ghost function Step(s: Shop, call: Call): (Status, Shop) {
    match call
    case Create(customerID, items, env) => CreateStep(s, customerID, items, env)
    case Move(id, action, env) => MoveStep(s, id, action, env)
  }

  ghost function Run(s: Shop, calls: seq<Call>): Shop
    decreases |calls|
  {
    if calls == [] then s else Run(Step(s, calls[0]).1, calls[1..])
  }

  // ----- the outbox mirrors the orders ----------------------------------------------------

  // The events about one order, oldest first.
  function About(events: seq<Event>, id: string): seq<Event> {
    if events == [] then []
    else
      var e := events[|events| - 1];
      About(events[..|events| - 1], id) + if e.id == id then [e] else []
  }

  lemma AboutSnoc(events: seq<Event>, e: Event, id: string)
    ensures About(events + [e], id) == About(events, id) + if e.id == id then [e] else []
  {
    assert (events + [e])[..|events|] == events;
  }

  // The only event histories an order with that status may have.
  predicate Mirrors(history: seq<Event>, id: string, o: Order) {
    var created, paid, cancelled := OrderCreated(id, o.total), OrderPaid(id, o.total), OrderCancelled(id, o.total);
    match o.status
    case Pending => history == [created]
    case Canceled => history == [created, cancelled] || history == [created, paid, cancelled]
    case _ => history == [created, paid]
  }

  ghost predicate MirrorAt(s: Shop, id: string) {
    if id in s.orders then Mirrors(About(s.outbox, id), id, s.orders[id]) else About(s.outbox, id) == []
  }

  ghost predicate OutboxMirrors(s: Shop) {
    forall id :: MirrorAt(s, id)
  }

  lemma StepKeepsMirror(s: Shop, call: Call)
    requires OutboxMirrors(s) && call.env.useOutbox
    ensures OutboxMirrors(Step(s, call).1)
  {
    forall id ensures MirrorAt(Step(s, call).1, id) {
      assert MirrorAt(s, id);
      if call.Create? {
        CreateKeepsMirror(s, call, id);
      } else {
        MoveKeepsMirror(s, call, id);
      }
    }
  }

  lemma CreateKeepsMirror(s: Shop, call: Call, id: string)
    requires MirrorAt(s, id) && call.Create? && call.env.useOutbox
    ensures MirrorAt(Step(s, call).1, id)
  {
    hide About, Total, ValidItems;
    if Step(s, call).0 == Ok {
      AboutSnoc(s.outbox, OrderCreated(call.env.id.value, Total(call.items)), id);
    }
  }

  lemma MoveKeepsMirror(s: Shop, call: Call, id: string)
    requires MirrorAt(s, id) && call.Move? && call.env.useOutbox
    ensures MirrorAt(Step(s, call).1, id)
  {
    hide About;
    if Step(s, call).0 == Ok {
      var next := Transition(s.orders[call.id].status, call.action).value;
      var evt := EventFor(call.id, s.orders[call.id].(status := next));
      if evt.Some? {
        AboutSnoc(s.outbox, evt.value, id);
      }
    }
  }

  // With the outbox, over every run and every failure: an order's events fit its status, each
  // at most once and in order.
  lemma {:induction false} OutboxMirrorsOrders(s: Shop, calls: seq<Call>)
    requires OutboxMirrors(s) && forall call :: call in calls ==> call.env.useOutbox
    ensures OutboxMirrors(Run(s, calls))
    decreases |calls|
  {
    if calls != [] {
      assert calls[0] in calls;
      StepKeepsMirror(s, calls[0]);
      OutboxMirrorsOrders(Step(s, calls[0]).1, calls[1..]);
    }
  }

  // What a change of the stored order is told as: its appearance, and each new status that is
  // a payment or a cancellation.
  function Change(before: Option<Order>, after: Option<Order>, id: string): seq<Event> {
    if before == after || after.None? then []
    else if before.None? then [OrderCreated(id, after.value.total)]
    else
      match after.value.status
      case Paid => [OrderPaid(id, after.value.total)]
      case Canceled => [OrderCancelled(id, after.value.total)]
      case _ => []
  }

  function Stored(s: Shop, id: string): Option<Order> {
    if id in s.orders then Some(s.orders[id]) else None
  }

  function Log(s: Shop, useOutbox: bool): seq<Event> {
    if useOutbox then s.outbox else s.published
  }

  // The change one call makes to an order, and those along a run, of the calls with or of those
  // without the outbox.
  ghost function ChangeBy(s: Shop, call: Call, id: string, useOutbox: bool): seq<Event> {
    if call.env.useOutbox == useOutbox then Change(Stored(s, id), Stored(Step(s, call).1, id), id) else []
  }

  ghost function Changes(s: Shop, calls: seq<Call>, id: string, useOutbox: bool): seq<Event>
    decreases |calls|
  {
    if calls == [] then []
    else ChangeBy(s, calls[0], id, useOutbox) + Changes(Step(s, calls[0]).1, calls[1..], id, useOutbox)
  }

  // The event a call leaves, if any.
  ghost function Told(s: Shop, call: Call): seq<Event> {
    if Step(s, call).0 != Ok then []
    else
      match call
      case Create(_, items, env) => [OrderCreated(env.id.value, Total(items))]
      case Move(id, _, _) =>
        var evt := EventFor(id, Step(s, call).1.orders[id]);
        if evt.Some? then [evt.value] else []
  }

  lemma StepTells(s: Shop, call: Call, useOutbox: bool)
    ensures Log(Step(s, call).1, useOutbox) ==
            Log(s, useOutbox) + if call.env.useOutbox == useOutbox then Told(s, call) else []
  {
    hide ValidItems, Total;
  }

  lemma ToldIsChange(s: Shop, call: Call, id: string)
    ensures About(Told(s, call), id) == Change(Stored(s, id), Stored(Step(s, call).1, id), id)
  {
    hide ValidItems, Total;
  }

  lemma StepTellsChange(s: Shop, call: Call, id: string, useOutbox: bool)
    ensures About(Log(Step(s, call).1, useOutbox), id) ==
            About(Log(s, useOutbox), id) + ChangeBy(s, call, id, useOutbox)
  {
    StepTells(s, call, useOutbox);
    ToldIsChange(s, call, id);
    var told := if call.env.useOutbox == useOutbox then Told(s, call) else [];
    hide Step, Change, Log;
    if told == [] {
      assert Log(s, useOutbox) + told == Log(s, useOutbox);
    } else {
      AboutSnoc(Log(s, useOutbox), told[0], id);
      AboutSnoc([], told[0], id);
      assert told == [] + [told[0]];
    }
  }

  // From any state, over every run and every failure: what the outbox gains about an order are
  // exactly the changes committed to it, in their order; those without the outbox are published.
  lemma {:induction false} OutboxIsImageOfCommits(s: Shop, calls: seq<Call>, id: string, useOutbox: bool)
    ensures About(Log(Run(s, calls), useOutbox), id) ==
            About(Log(s, useOutbox), id) + Changes(s, calls, id, useOutbox)
    decreases |calls|
  {
    if calls != [] {
      var s' := Step(s, calls[0]).1;
      StepTellsChange(s, calls[0], id, useOutbox);
      hide Step, About, ChangeBy, Log;
      OutboxIsImageOfCommits(s', calls[1..], id, useOutbox);
      assert Run(s, calls) == Run(s', calls[1..]);
    }
  }

  // ----- the life of an order -------------------------------------------------------------

  ghost predicate OthersStay(s: Shop, s': Shop, id: string) {
    forall x :: x != id ==> Stored(s', x) == Stored(s, x)
  }

  // Exactly when an order is created: from then on it is stored, pending, with the items it was
  // given, for the sum of their prices.
  lemma CreateIff(s: Shop, call: Call)
    requires call.Create?
    ensures var ((status, s'), env) := (Step(s, call), call.env);
      && (status == Ok <==>
            (&& ValidItems(call.items) && env.id.Some? && env.id.value !in s.orders && env.writeOk
             && (env.useOutbox ==> env.storeOk && env.commitOk)))
      && (status != Ok ==> s' == s)
      && (status == Ok ==>
            var id := env.id.value;
            && id in s'.orders && OthersStay(s, s', id)
            && var o := s'.orders[id];
               && o.customerID == call.customerID && o.items == call.items && o.status == Pending
               && o.total == Total(call.items))
  {
    hide ValidItems, Total;
  }

  // The status after some actions on a pending order, if all of them are allowed.
  function After(actions: seq<string>): Option<OrderStatus> {
    if actions == [] then Some(Pending)
    else
      var before := After(actions[..|actions| - 1]);
      if before.None? then None else Transition(before.value, actions[|actions| - 1])
  }

  // An order is paid, shipped and completed in this order, and may be cancelled until it is
  // shipped: these and no other sequences of actions are allowed.
  lemma AllowedActions(actions: seq<string>)
    ensures After(actions) ==
      if actions == [] then Some(Pending)
      else if actions == ["pay"] then Some(Paid)
      else if actions == ["pay", "ship"] then Some(Shipped)
      else if actions == ["pay", "ship", "complete"] then Some(Completed)
      else if actions == ["cancel"] || actions == ["pay", "cancel"] then Some(Canceled)
      else None
  {
    if |actions| >= 4 {
      TooMany(actions);
    } else if |actions| == 3 {
      assert actions[..2][..1] == actions[..1];
      assert actions == [actions[0], actions[1], actions[2]];
    } else if |actions| == 2 {
      assert actions == [actions[0], actions[1]];
    } else if |actions| == 1 {
      assert actions == [actions[0]];
    }
  }

  // Every allowed action ranks the order higher.
  lemma {:induction false} TooMany(actions: seq<string>)
    ensures After(actions).Some? ==> Rank(After(actions).value) >= |actions|
    ensures After(actions).Some? && |actions| >= 2 ==> After(actions).value != Paid
    ensures |actions| >= 4 ==> After(actions).None?
    decreases |actions|
  {
    if actions != [] {
      TooMany(actions[..|actions| - 1]);
      if |actions| >= 2 {
        TooMany(actions[..|actions| - 1][..|actions| - 2]);
      }
    }
  }

  // An action is taken exactly when the order's status allows it and the writes work.
  lemma MoveIff(s: Shop, call: Call)
    requires call.Move?
    ensures var ((status, s'), id, env) := (Step(s, call), call.id, call.env);
      var next := if id in s.orders then Transition(s.orders[id].status, call.action) else None;
      && (status == Ok <==>
            (&& env.readOk && next.Some? && env.writeOk
             && (env.useOutbox && next.value in {Paid, Canceled} ==> env.storeOk && env.commitOk)))
      && (status != Ok ==> s' == s)
      && (status == Ok ==>
            (&& id in s'.orders && OthersStay(s, s', id) && s'.orders[id].status == next.value
             && s'.orders[id].(status := Pending) == s.orders[id].(status := Pending)))
  {
  }

  // The actions that were taken on an order by a call and along a run.
  ghost function TakenBy(s: Shop, call: Call, id: string): (r: seq<string>)
    ensures |r| <= 1
  {
    if call.Move? && call.id == id && Step(s, call).0 == Ok then [call.action] else []
  }

  ghost function Taken(s: Shop, calls: seq<Call>, id: string): seq<string>
    decreases |calls|
  {
    if calls == [] then [] else TakenBy(s, calls[0], id) + Taken(Step(s, calls[0]).1, calls[1..], id)
  }

  lemma StepStatus(s: Shop, call: Call, id: string)
    requires id in s.orders
    ensures var (status, s') := Step(s, call);
      && id in s'.orders
      && var taken := TakenBy(s, call, id);
         if taken == [] then s'.orders[id].status == s.orders[id].status
         else Transition(s.orders[id].status, taken[0]) == Some(s'.orders[id].status)
  {
    hide ValidItems, Total;
  }

  // The status of an order with some history is the one that its history and the actions taken
  // since lead to.
  lemma {:induction false} StatusIsHistory(s: Shop, calls: seq<Call>, id: string, history: seq<string>)
    requires id in s.orders && After(history) == Some(s.orders[id].status)
    ensures var s' := Run(s, calls);
      id in s'.orders && After(history + Taken(s, calls, id)) == Some(s'.orders[id].status)
    decreases |calls|
  {
    hide Step, Transition, TakenBy, After;
    if calls == [] {
      assert history + [] == history;
    } else {
      var s', taken := Step(s, calls[0]).1, TakenBy(s, calls[0], id);
      StepStatus(s, calls[0], id);
      OneMoreAction(history, taken, s.orders[id].status, s'.orders[id].status);
      assert Taken(s, calls, id) == taken + Taken(s', calls[1..], id);
      assert Run(s, calls) == Run(s', calls[1..]);
      hide *;
      StatusIsHistory(s', calls[1..], id, history + taken);
      assert history + (taken + Taken(s', calls[1..], id)) == history + taken + Taken(s', calls[1..], id);
    }
  }

  lemma OneMoreAction(history: seq<string>, taken: seq<string>, was: OrderStatus, now: OrderStatus)
    requires After(history) == Some(was) && |taken| <= 1
    requires if taken == [] then now == was else Transition(was, taken[0]) == Some(now)
    ensures After(history + taken) == Some(now)
  {
    hide Transition;
    if taken == [] {
      assert history + taken == history;
    } else {
      assert (history + taken)[..|history|] == history;
    }
  }

  // Statuses only advance, and a finished or cancelled order stays as it is.
  lemma {:induction false} StatusesAdvance(s: Shop, calls: seq<Call>, id: string)
    requires id in s.orders
    ensures var s' := Run(s, calls);
      && id in s'.orders && s'.orders[id].(status := Pending) == s.orders[id].(status := Pending)
      && Rank(s.orders[id].status) <= Rank(s'.orders[id].status)
      && (s.orders[id].status in {Completed, Canceled} ==> s'.orders[id] == s.orders[id])
    decreases |calls|
  {
    if calls != [] {
      StatusesAdvance(Step(s, calls[0]).1, calls[1..], id);
    }
  }

  // ----- the service object ---------------------------------------------------------------

  class OrderService {
    var orders: map<string, Order>
    var outbox: seq<Event>
    var published: seq<Event>

    ghost function View(): Shop
      reads this
    {
      Shop(orders, outbox, published)
    }

    constructor ()
      ensures View() == Shop(map[], [], []) && OutboxMirrors(View())
    {
      orders, outbox, published := map[], [], [];
    }

    // Both writes in one transaction: on any error nothing remains.
    method RunInTx(id: string, order: Order, evt: Event, env: Env) returns (ok: bool)
      modifies this
      ensures ok <==> env.writeOk && env.storeOk && env.commitOk
      ensures View() == if ok then old(View()).(orders := old(orders)[id := order],
          outbox := old(outbox) + [evt]) else old(View())
    {
      var before := orders;
      if !env.writeOk {
        return false;
      }
      orders := orders[id := order];
      if !env.storeOk {
        orders := before;
        return false;
      }
      outbox := outbox + [evt];
      if !env.commitOk {
        orders, outbox := before, outbox[..|outbox| - 1];
        return false;
      }
      return true;
    }

    method CreateOrder(customerID: string, items: seq<Item>, env: Env) returns (status: Status)
      modifies this
      ensures (status, View()) == Step(old(View()), Create(customerID, items, env))
      ensures old(OutboxMirrors(View())) && env.useOutbox ==> OutboxMirrors(View())
    {
      if OutboxMirrors(View()) && env.useOutbox {
        StepKeepsMirror(View(), Create(customerID, items, env));
      }
      hide OutboxMirrors;
      var ok := ValidateItems(items);
      if !ok {
        return BadRequest;
      }
      var total := CalculateTotal(items);
      if env.id.None? || env.id.value in orders {
        return Internal;
      }
      var id := env.id.value;
      var order := Order(customerID, items, total, Pending);
      var evt := OrderCreated(id, order.total);
      if env.useOutbox {
        var done := RunInTx(id, order, evt, env);
        return if done then Ok else Internal;
      }
      if !env.writeOk {
        return Internal;
      }
      orders := orders[id := order];
      published := published + [evt];
      return Ok;
    }

    method TransitionOrder(id: string, action: string, env: Env) returns (status: Status)
      modifies this
      ensures (status, View()) == Step(old(View()), Move(id, action, env))
      ensures old(OutboxMirrors(View())) && env.useOutbox ==> OutboxMirrors(View())
    {
      if OutboxMirrors(View()) && env.useOutbox {
        StepKeepsMirror(View(), Move(id, action, env));
      }
      hide OutboxMirrors;
      if !env.readOk || id !in orders {
        return NotFound;
      }
      var next := Transition(orders[id].status, action);
      if next.None? {
        return BadRequest;
      }
      var order := orders[id].(status := next.value);
      var evt := EventFor(id, order);
      if evt.Some? && env.useOutbox {
        var done := RunInTx(id, order, evt.value, env);
        return if done then Ok else Internal;
      }
      if !env.writeOk {
        return Internal;
      }
      orders := orders[id := order];
      published := published + if evt.Some? then [evt.value] else [];
      return Ok;
    }
  }
}
