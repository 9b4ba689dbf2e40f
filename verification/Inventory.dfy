/** Stock changes under partial failure (internal/core/inventory): reservation, release,
    transfer, adjustment and sync, each a sequence of saves with compensating saves, and the
    stock-changed events they emit. */
module Inventory {
  import opened Common

  datatype Key = Key(variant: string, location: string)

  datatype StockItem = StockItem(quantity: int, lowStockThreshold: int, allowBackorders: bool, backorderLimit: int)

  datatype Reservation = Reservation(key: Key, quantity: int)

  datatype StockEvent = StockEvent(key: Key, oldQuantity: int, newQuantity: int)

  datatype State = State(stock: map<Key, StockItem>, reservations: map<string, Reservation>, events: seq<StockEvent>)

  const DEFAULT_LOW_STOCK_THRESHOLD := 5

  const FRESH_ITEM := StockItem(0, DEFAULT_LOW_STOCK_THRESHOLD, false, 0)

  function Location(loc: string): string {
    if loc == "" then "default" else loc
  }

  // Different names are different locations, but for the default one.
  lemma LocationsApart(a: string, b: string)
    ensures Location(a) == Location(b) <==> a == b || (a in {"", "default"} && b in {"", "default"})
  {
  }

  function Quantity(s: State, key: Key): int {
    if key in s.stock then s.stock[key].quantity else 0
  }

  // ----- the calls and their environments -------------------------------------------------

  // Which of a call's repository operations work: the first and second read, the first and
  // second write, the compensating save, the emission; and the generated ID.
  datatype Env = Env(read1: bool, read2: bool, write1: bool, write2: bool, undo: bool, emit: bool, id: Option<string>)

  datatype Call =
    | Reserve(variant: string, location: string, qty: int, env: Env)
    | Release(id: string, env: Env)
    | Transfer(variant: string, from: string, to: string, qty: int, env: Env)
    | Adjust(variant: string, location: string, qty: int, reason: string, env: Env)
    | Sync(variant: string, location: string, qty: int, env: Env)

  function Saved(s: State, ok: bool, key: Key, item: StockItem): State {
    if ok then s.(stock := s.stock[key := item]) else s
  }

  function Emitted(s: State, ok: bool, events: seq<StockEvent>): State {
    if ok then s.(events := s.events + events) else s
  }

  // The domain rule for taking qty out of stock.
  function Deducted(item: StockItem, qty: int): Option<StockItem>
    requires qty > 0
  {
    var enough := if item.allowBackorders then item.quantity - qty >= -item.backorderLimit else item.quantity >= qty;
    if enough then Some(item.(quantity := item.quantity - qty)) else None
  }

  function ReserveStep(s: State, variant: string, location: string, qty: int, env: Env): (Status, State) {
    var key := Key(variant, Location(location));
    if !env.read1 || key !in s.stock then (Internal, s)
    else if qty <= 0 then (BadRequest, s)
    else
      var item := s.stock[key];
      match Deducted(item, qty)
      case None => (Conflict, s)
      case Some(less) =>
        if !env.write1 then (Internal, s)
        else
          var s1 := Saved(s, true, key, less);
          if env.id.None? then (Internal, s1)
          else if Blank(variant) then (BadRequest, Saved(s1, env.undo, key, item))
          else if !env.write2 || env.id.value in s.reservations then (Internal, Saved(s1, env.undo, key, item))
          else
            var s2 := s1.(reservations := s.reservations[env.id.value := Reservation(key, qty)]);
            (Ok, Emitted(s2, env.emit, [StockEvent(key, item.quantity, less.quantity)]))
  }

  function ReleaseStep(s: State, id: string, env: Env): (Status, State) {
    if !env.read1 || id !in s.reservations then (NotFound, s)
    else
      var res := s.reservations[id];
      if !env.read2 || res.key !in s.stock then (Internal, s)
      else
        var item := s.stock[res.key];
        var more := item.(quantity := item.quantity + res.quantity);
        if !env.write1 then (Internal, s)
        else
          var s1 := Saved(s, true, res.key, more);
          if !env.write2 then (Internal, Saved(s1, env.undo, res.key, item))
          else
            var s2 := s1.(reservations := s.reservations - {id});
            (Ok, Emitted(s2, env.emit, [StockEvent(res.key, item.quantity, more.quantity)]))
  }

  function TransferStep(s: State, variant: string, from: string, to: string, qty: int, env: Env): (Status, State) {
    var src, dst := Key(variant, Location(from)), Key(variant, Location(to));
    if qty <= 0 || src == dst then (BadRequest, s)
    else if !env.read1 || src !in s.stock then (NotFound, s)
    else
      var a := s.stock[src];
      if qty > a.quantity then (Conflict, s)
      else
        // Any read error counts as a missing destination record.
        var b := if env.read2 && dst in s.stock then s.stock[dst] else FRESH_ITEM;
        var less, more := a.(quantity := a.quantity - qty), b.(quantity := b.quantity + qty);
        if !env.write1 then (Internal, s)
        else
          var s1 := Saved(s, true, src, less);
          if !env.write2 then (Internal, Saved(s1, env.undo, src, a))
          else (Ok, Emitted(Saved(s1, true, dst, more), env.emit,
                      [StockEvent(src, a.quantity, less.quantity), StockEvent(dst, b.quantity, more.quantity)]))
  }

  function AdjustStep(s: State, variant: string, location: string, qty: int, reason: string,
      env: Env): (Status, State) {
    var key := Key(variant, Location(location));
    if reason == "" then (BadRequest, s)
    else
      var item := if env.read1 && key in s.stock then s.stock[key] else FRESH_ITEM;
      var n := item.quantity + qty;
      if n < 0 then (BadRequest, s)
      else if !env.write1 then (Internal, s)
      else (Ok, Emitted(Saved(s, true, key, item.(quantity := n)), env.emit, [StockEvent(key, item.quantity, n)]))
  }

  // Unlike an adjustment, a sync only takes "not found" for a missing record.
  function SyncStep(s: State, variant: string, location: string, qty: int, env: Env): (Status, State) {
    var key := Key(variant, Location(location));
    if !env.read1 then (Internal, s)
    else
      var item := if key in s.stock then s.stock[key] else FRESH_ITEM;
      if qty < 0 then (BadRequest, s)
      else if !env.write1 then (Internal, s)
      else (Ok, Emitted(Saved(s, true, key, item.(quantity := qty)), env.emit, [StockEvent(key, item.quantity, qty)]))
  }

  function Step(s: State, call: Call): (Status, State) {
    match call
    case Reserve(variant, location, qty, env) => ReserveStep(s, variant, location, qty, env)
    case Release(id, env) => ReleaseStep(s, id, env)
    case Transfer(variant, from, to, qty, env) => TransferStep(s, variant, from, to, qty, env)
    case Adjust(variant, location, qty, reason, env) => AdjustStep(s, variant, location, qty, reason, env)
    case Sync(variant, location, qty, env) => SyncStep(s, variant, location, qty, env)
  }

  function Run(s: State, calls: seq<Call>): State
    decreases |calls|
  {
    if calls == [] then s else Run(Step(s, calls[0]).1, calls[1..])
  }

  // ----- sums over maps -------------------------------------------------------------------

  ghost function SumBy<K, V>(m: map<K, V>, f: (K, V) -> int): int
    decreases |m|
  {
    if m == map[] then 0
    else
      var k :| k in m;
      Shrinks(m, k);
      f(k, m[k]) + SumBy(m - {k}, f)
  }

  lemma Shrinks<K, V>(m: map<K, V>, k: K)
    requires k in m
    ensures |m - {k}| < |m|
  {
    assert (m - {k}).Keys == m.Keys - {k};
    assert |m - {k}| == |(m - {k}).Keys|;
  }

  lemma {:induction false} SumTake<K, V>(m: map<K, V>, k: K, f: (K, V) -> int)
    requires k in m
    ensures SumBy(m, f) == f(k, m[k]) + SumBy(m - {k}, f)
    decreases |m|
  {
    var c :| c in m && SumBy(m, f) == f(c, m[c]) + SumBy(m - {c}, f);
    if c != k {
      Shrinks(m, c);
      Shrinks(m, k);
      SumTake(m - {c}, k, f);
      SumTake(m - {k}, c, f);
      assert m - {c} - {k} == m - {k} - {c};
    }
  }

  lemma SumPut<K, V>(m: map<K, V>, k: K, v: V, f: (K, V) -> int)
    ensures SumBy(m[k := v], f) == SumBy(m, f) - (if k in m then f(k, m[k]) else 0) + f(k, v)
  {
    SumTake(m[k := v], k, f);
    assert m[k := v] - {k} == m - {k};
    if k in m {
      SumTake(m, k, f);
    } else {
      assert m - {k} == m;
    }
  }

  // ----- conservation ---------------------------------------------------------------------

  function InStock(variant: string): (Key, StockItem) -> int {
    (k: Key, i: StockItem) => if k.variant == variant then i.quantity else 0
  }

  function InReservation(variant: string): (string, Reservation) -> int {
    (id: string, r: Reservation) => if r.key.variant == variant then r.quantity else 0
  }

  // A variant's stock over all locations plus its outstanding reservations.
  ghost function Total(s: State, variant: string): int {
    SumBy(s.stock, InStock(variant)) + SumBy(s.reservations, InReservation(variant))
  }

  lemma SaveTotal(s: State, key: Key, item: StockItem, variant: string)
    ensures Total(s.(stock := s.stock[key := item]), variant) ==
            Total(s, variant) + if key.variant == variant then item.quantity - Quantity(s, key) else 0
  {
    SumPut(s.stock, key, item, InStock(variant));
  }

  // What a call adds to the variant's total.  Reservations, releases and transfers add nothing
  // except in the cases spelt out here.
  function Drift(s: State, call: Call): int {
    var (status, s') := Step(s, call);
    match call
    case Reserve(variant, location, qty, env) =>
      if s' != s && status != Ok && (env.id.None? || !env.undo) then -qty else 0
    case Release(id, env) =>
      if s' != s && status != Ok && !env.undo then s.reservations[id].quantity else 0
    case Transfer(variant, from, to, qty, env) =>
      if status == Ok then if env.read2 then 0 else -Quantity(s, Key(variant, Location(to)))
      else if s' != s && !env.undo then -qty
      else 0
    case Adjust(variant, location, qty, _, env) =>
      if status != Ok then 0 else if env.read1 then qty else qty - Quantity(s, Key(variant, Location(location)))
    case Sync(variant, location, qty, _) =>
      if status != Ok then 0 else qty - Quantity(s, Key(variant, Location(location)))
  }

  function Variant(s: State, call: Call): string {
    if call.Release? then (if call.id in s.reservations then s.reservations[call.id].key.variant else "")
        else call.variant
  }

  lemma ReserveTotal(s: State, call: Call, variant: string)
    requires call.Reserve?
    ensures Total(Step(s, call).1, variant) == Total(s, variant) + if variant == call.variant then Drift(s, call) else 0
  {
    var key := Key(call.variant, Location(call.location));
    var (status, s') := Step(s, call);
    if call.qty > 0 && call.env.read1 && key in s.stock && Deducted(s.stock[key], call.qty).Some? && call.env.write1 {
      var item, less := s.stock[key], Deducted(s.stock[key], call.qty).value;
      var s1 := Saved(s, true, key, less);
      SaveTotal(s, key, less, variant);
      SaveTotal(s1, key, item, variant);
      assert s1.stock[key := item] == s.stock;
      if status == Ok {
        SumPut(s.reservations, call.env.id.value, Reservation(key, call.qty), InReservation(variant));
      }
      hide SumBy;
    }
  }

  lemma ReleaseTotal(s: State, call: Call, variant: string)
    requires call.Release? && forall id :: id in s.reservations ==> s.reservations[id].quantity > 0
    ensures Total(Step(s, call).1, variant) == Total(s, variant) + if variant == Variant(s, call) then
        Drift(s, call) else 0
  {
    var (status, s') := Step(s, call);
    if call.env.read1 && call.id in s.reservations && call.env.read2
        && s.reservations[call.id].key in s.stock && call.env.write1 {
      var res := s.reservations[call.id];
      var item := s.stock[res.key];
      var more := item.(quantity := item.quantity + res.quantity);
      var s1 := Saved(s, true, res.key, more);
      SaveTotal(s, res.key, more, variant);
      SaveTotal(s1, res.key, item, variant);
      assert s1.stock[res.key := item] == s.stock;
      if status == Ok {
        SumTake(s.reservations, call.id, InReservation(variant));
      }
      hide SumBy;
    }
  }

  lemma TransferTotal(s: State, call: Call, variant: string)
    requires call.Transfer?
    ensures Total(Step(s, call).1, variant) == Total(s, variant) + if variant == call.variant then Drift(s, call) else 0
  {
    var src, dst := Key(call.variant, Location(call.from)), Key(call.variant, Location(call.to));
    var (status, s') := Step(s, call);
    if call.qty > 0 && src != dst && call.env.read1 && src in s.stock && call.qty <= s.stock[src].quantity
        && call.env.write1 {
      var a := s.stock[src];
      var b := if call.env.read2 && dst in s.stock then s.stock[dst] else FRESH_ITEM;
      var less, more := a.(quantity := a.quantity - call.qty), b.(quantity := b.quantity + call.qty);
      var s1 := Saved(s, true, src, less);
      SaveTotal(s, src, less, variant);
      SaveTotal(s1, src, a, variant);
      assert s1.stock[src := a] == s.stock;
      SaveTotal(s1, dst, more, variant);
      hide SumBy;
    }
  }

  lemma WriteTotal(s: State, call: Call, variant: string)
    requires call.Adjust? || call.Sync?
    ensures Total(Step(s, call).1, variant) == Total(s, variant) + if variant == call.variant then Drift(s, call) else 0
  {
    var key := Key(call.variant, Location(call.location));
    var (status, s') := Step(s, call);
    if status == Ok {
      SaveTotal(s, key, s'.stock[key], variant);
      hide SumBy;
    }
  }

  // ----- what a successful call does ------------------------------------------------------

  ghost predicate SameElsewhere(s: State, s': State, keys: set<Key>) {
    && (forall k :: k !in keys ==> (k in s'.stock <==> k in s.stock))
    && (forall k :: k !in keys && k in s.stock ==> s'.stock[k] == s.stock[k])
  }

  ghost predicate SameSettings(s: State, s': State, key: Key) {
    key in s'.stock && (key in s.stock ==> s'.stock[key].(quantity := 0) == s.stock[key].(quantity := 0))
  }

  // Only that key's quantity is different; its other settings stay.
  ghost predicate Sets(s: State, s': State, key: Key, quantity: int) {
    Quantity(s', key) == quantity && SameSettings(s, s', key) && SameElsewhere(s, s', {key})
  }

  // A reservation succeeds exactly when enough is there (or backorders reach that far) and
  // everything works; it moves the quantity from the stock into the new reservation.
  lemma ReserveIff(s: State, call: Call)
    requires call.Reserve?
    ensures var ((status, s'), env, key) := (Step(s, call), call.env, Key(call.variant, Location(call.location)));
      && (status == Ok <==>
            (&& call.qty > 0 && !Blank(call.variant) && key in s.stock
             && Quantity(s, key) - call.qty >=
                  (if s.stock[key].allowBackorders then -s.stock[key].backorderLimit else 0)
             && env.read1 && env.write1 && env.write2 && env.id.Some? && env.id.value !in s.reservations))
      && (status == Ok ==>
            (&& Sets(s, s', key, Quantity(s, key) - call.qty)
             && s'.reservations == s.reservations[env.id.value := Reservation(key, call.qty)]))
      && (status != Ok ==> s'.reservations == s.reservations)
  {
    hide Blank;
  }

  // A release succeeds exactly for a stored reservation of stored stock; it gives the quantity
  // back and ends the reservation.
  lemma ReleaseIff(s: State, call: Call)
    requires call.Release?
    ensures var ((status, s'), env) := (Step(s, call), call.env);
      && (status == Ok <==>
            (&& call.id in s.reservations && s.reservations[call.id].key in s.stock
             && env.read1 && env.read2 && env.write1 && env.write2))
      && (status == Ok ==>
            (var res := s.reservations[call.id];
             && Sets(s, s', res.key, Quantity(s, res.key) + res.quantity)
             && call.id !in s'.reservations && s'.reservations == s.reservations - {call.id}))
      && (status != Ok ==> s'.reservations == s.reservations)
  {
  }

  // Released at once, a reservation leaves stock and reservations as they were.
  lemma ReleaseUndoesReserve(s: State, reserve: Call, release: Call)
    requires reserve.Reserve? && Step(s, reserve).0 == Ok
    requires release.Release? && reserve.env.id == Some(release.id) && Step(Step(s, reserve).1, release).0 == Ok
    ensures var s' := Step(Step(s, reserve).1, release).1; s'.stock == s.stock && s'.reservations == s.reservations
  {
    hide Blank;
  }

  // A transfer succeeds exactly when the source holds that much and both writes work; the
  // destination gains what the source loses, an unreadable one starting from nothing.
  lemma TransferIff(s: State, call: Call)
    requires call.Transfer?
    ensures var ((status, s'), env) := (Step(s, call), call.env);
      var src, dst := Key(call.variant, Location(call.from)), Key(call.variant, Location(call.to));
      && (status == Ok <==>
            (&& call.qty > 0 && src != dst && src in s.stock && Quantity(s, src) >= call.qty
             && env.read1 && env.write1 && env.write2))
      && (status == Ok ==>
            (&& Quantity(s', src) == Quantity(s, src) - call.qty
             && Quantity(s', dst) == call.qty + (if env.read2 then Quantity(s, dst) else 0)
             && SameSettings(s, s', src) && (env.read2 ==> SameSettings(s, s', dst))
             && SameElsewhere(s, s', {src, dst})))
      && s'.reservations == s.reservations
  {
  }

  // An adjustment adds to what it could read, never below zero; a sync sets the quantity.
  lemma WriteIff(s: State, call: Call)
    requires call.Adjust? || call.Sync?
    ensures var ((status, s'), env, key) := (Step(s, call), call.env, Key(call.variant, Location(call.location)));
      var was := if env.read1 then Quantity(s, key) else 0;
      && (status == Ok <==>
            (&& env.write1
             && if call.Sync? then env.read1 && call.qty >= 0 else call.reason != "" && was + call.qty >= 0))
      && (status == Ok ==> Quantity(s', key) == call.qty + if call.Adjust? then was else 0)
      && SameElsewhere(s, s', {key}) && (env.read1 && status == Ok ==> SameSettings(s, s', key))
      && (status != Ok ==> s' == s) && s'.reservations == s.reservations
  {
  }

  // ----- floors ---------------------------------------------------------------------------

  // No stock below zero, or below minus the backorder limit where backorders are allowed.
  predicate AboveFloor(i: StockItem) {
    i.quantity >= 0 || (i.allowBackorders && i.quantity >= -i.backorderLimit)
  }

  ghost predicate Sound(s: State) {
    && (forall k :: k in s.stock ==> AboveFloor(s.stock[k]))
    && (forall id :: id in s.reservations ==> s.reservations[id].quantity > 0)
  }

  lemma StepKeepsSound(s: State, call: Call)
    requires Sound(s)
    ensures Sound(Step(s, call).1)
  {
    match call {
      case Reserve(_, _, _, _) => ReserveKeepsSound(s, call);
      case Release(_, _) => ReleaseKeepsSound(s, call);
      case Transfer(_, _, _, _, _) => TransferKeepsSound(s, call);
      case _ => WriteKeepsSound(s, call);
    }
    hide Step;
  }

  lemma ReserveKeepsSound(s: State, call: Call)
    requires Sound(s) && call.Reserve?
    ensures Sound(Step(s, call).1)
  {
  }

  lemma ReleaseKeepsSound(s: State, call: Call)
    requires Sound(s) && call.Release?
    ensures Sound(Step(s, call).1)
  {
  }

  lemma TransferKeepsSound(s: State, call: Call)
    requires Sound(s) && call.Transfer?
    ensures Sound(Step(s, call).1)
  {
  }

  lemma WriteKeepsSound(s: State, call: Call)
    requires Sound(s) && (call.Adjust? || call.Sync?)
    ensures Sound(Step(s, call).1)
  {
  }

  // ----- runs -----------------------------------------------------------------------------

  lemma StepTotal(s: State, call: Call, variant: string)
    requires Sound(s)
    ensures Total(Step(s, call).1, variant) == Total(s, variant) + if variant == Variant(s, call) then
        Drift(s, call) else 0
  {
    match call {
      case Reserve(_, _, _, _) => ReserveTotal(s, call, variant);
      case Release(_, _) => ReleaseTotal(s, call, variant);
      case Transfer(_, _, _, _, _) => TransferTotal(s, call, variant);
      case _ => WriteTotal(s, call, variant);
    }
  }

  function DriftSum(s: State, calls: seq<Call>, variant: string): int
    decreases |calls|
  {
    if calls == [] then 0
    else (if variant == Variant(s, calls[0]) then Drift(s, calls[0]) else 0)
         + DriftSum(Step(s, calls[0]).1, calls[1..], variant)
  }

  // Every run, whatever fails: quantities respect their floors and the total moves by exactly
  // the drifts of the calls.
  lemma {:induction false} RunTotal(s: State, calls: seq<Call>, variant: string)
    requires Sound(s)
    ensures Sound(Run(s, calls))
    ensures Total(Run(s, calls), variant) == Total(s, variant) + DriftSum(s, calls, variant)
    decreases |calls|
  {
    if calls != [] {
      StepKeepsSound(s, calls[0]);
      StepTotal(s, calls[0], variant);
      RunTotal(Step(s, calls[0]).1, calls[1..], variant);
    }
  }

  // The condition under which a reservation, release or transfer conserves stock: rollback
  // saves and ID generation work, and a destination's read fails only if there is no record.
  ghost predicate Compensated(call: Call) {
    && !call.Adjust? && !call.Sync?
    && call.env.undo
    && (call.Reserve? ==> call.env.id.Some?)
    && (call.Transfer? ==> call.env.read2)
  }

  lemma {:induction false} CompensatedDrift(s: State, calls: seq<Call>, variant: string)
    requires forall call :: call in calls ==> Compensated(call)
    ensures DriftSum(s, calls, variant) == 0
    decreases |calls|
  {
    if calls != [] {
      assert Compensated(calls[0]);
      CompensatedDrift(Step(s, calls[0]).1, calls[1..], variant);
    }
  }

  // Any serialised mix of reserve, release and transfer with failing writes conserves stock.
  lemma StockIsConserved(s: State, calls: seq<Call>, variant: string)
    requires Sound(s) && forall call :: call in calls ==> Compensated(call)
    ensures Total(Run(s, calls), variant) == Total(s, variant)
    ensures Sound(Run(s, calls))
  {
    RunTotal(s, calls, variant);
    CompensatedDrift(s, calls, variant);
  }

  // The calls that reach their first save and then lose what it took or gave: a reservation
  // without an ID, a failed second write whose compensating save fails too, and a transfer that
  // takes an unreadable destination for an empty one.
  predicate Leaks(s: State, call: Call) {
    match call
    case Reserve(variant, location, qty, env) =>
      var key := Key(variant, Location(location));
      && env.read1 && key in s.stock && qty > 0 && Deducted(s.stock[key], qty).Some? && env.write1
      && (env.id.None? || ((Blank(variant) || !env.write2 || env.id.value in s.reservations) && !env.undo))
    case Release(id, env) =>
      && env.read1 && id in s.reservations && env.read2 && s.reservations[id].key in s.stock
      && env.write1 && !env.write2 && !env.undo
    case Transfer(variant, from, to, qty, env) =>
      var src, dst := Key(variant, Location(from)), Key(variant, Location(to));
      && qty > 0 && src != dst && env.read1 && src in s.stock && qty <= s.stock[src].quantity && env.write1
      && if env.write2 then !env.read2 && Quantity(s, dst) != 0 else !env.undo
    case _ => false
  }

  // Exactly when a reservation, release or transfer changes its variant's total.
  lemma ConservedIff(s: State, call: Call)
    requires Sound(s) && !call.Adjust? && !call.Sync?
    ensures Total(Step(s, call).1, Variant(s, call)) != Total(s, Variant(s, call)) <==> Leaks(s, call)
  {
    StepTotal(s, call, Variant(s, call));
    hide Total;
    DriftIsLeak(s, call);
    hide Drift, Leaks, Step;
  }

  lemma DriftIsLeak(s: State, call: Call)
    requires Sound(s) && !call.Adjust? && !call.Sync?
    ensures Drift(s, call) != 0 <==> Leaks(s, call)
  {
    hide Blank;
    match call {
      case Reserve(variant, location, qty, env) =>
        var key := Key(variant, Location(location));
        if env.read1 && key in s.stock && qty > 0 && Deducted(s.stock[key], qty).Some? && env.write1 {
          var item := s.stock[key];
          assert Deducted(item, qty).value.quantity != item.quantity;
          assert Saved(Saved(s, true, key, Deducted(item, qty).value), true, key, item).stock == s.stock;
        }
      case Release(id, env) =>
      case _ =>
    }
  }

  // ----- audit ----------------------------------------------------------------------------

  // The quantity the events leave at a key that started with q, and whether each event starts
  // from what the one before it left.
  function LastQuantity(events: seq<StockEvent>, key: Key, q: int): int {
    if events == [] then q
    else
      var e := events[|events| - 1];
      if e.key == key then e.newQuantity else LastQuantity(events[..|events| - 1], key, q)
  }

  predicate Chained(events: seq<StockEvent>, key: Key, q: int) {
    events == [] ||
    (var init, e := events[..|events| - 1], events[|events| - 1];
     Chained(init, key, q) && (e.key == key ==> e.oldQuantity == LastQuantity(init, key, q)))
  }

  ghost predicate Audited(s: State, initial: State) {
    forall key :: Chained(s.events, key, Quantity(initial, key))
      && LastQuantity(s.events, key, Quantity(initial, key)) == Quantity(s, key)
  }

  // The calls after which the trail no longer tells the stock: a change that is neither undone
  // nor reported, and a report whose old quantity was taken from a read that failed.
  predicate Gaps(s: State, call: Call) {
    match call
    case Reserve(variant, location, qty, env) =>
      var key := Key(variant, Location(location));
      && env.read1 && key in s.stock && qty > 0 && Deducted(s.stock[key], qty).Some? && env.write1
      && if env.id.None? then true
         else if Blank(variant) || !env.write2 || env.id.value in s.reservations then !env.undo
         else !env.emit
    case Release(id, env) =>
      && env.read1 && id in s.reservations && env.read2 && s.reservations[id].key in s.stock && env.write1
      && s.reservations[id].quantity != 0
      && if env.write2 then !env.emit else !env.undo
    case Transfer(variant, from, to, qty, env) =>
      var src, dst := Key(variant, Location(from)), Key(variant, Location(to));
      && qty > 0 && src != dst && env.read1 && src in s.stock && qty <= s.stock[src].quantity && env.write1
      && if env.write2 then !env.emit || (!env.read2 && Quantity(s, dst) != 0) else !env.undo
    case Adjust(variant, location, qty, reason, env) =>
      var key := Key(variant, Location(location));
      var was := if env.read1 then Quantity(s, key) else 0;
      && reason != "" && was + qty >= 0 && env.write1
      && Quantity(s, key) != if env.emit then was else was + qty
    case Sync(variant, location, qty, env) =>
      && env.read1 && qty >= 0 && env.write1 && !env.emit && Quantity(s, Key(variant, Location(location))) != qty
  }

  lemma EmitOne(events: seq<StockEvent>, e: StockEvent, key: Key, q: int)
    ensures LastQuantity(events + [e], key, q) == if e.key == key then e.newQuantity else LastQuantity(events, key, q)
    ensures Chained(events + [e], key, q) <==>
      Chained(events, key, q) && (e.key == key ==> e.oldQuantity == LastQuantity(events, key, q))
  {
    assert (events + [e])[..|events|] == events;
  }

  // The quantity at key once the events of one call, on different keys, have happened.
  function Moved(s: State, events: seq<StockEvent>, key: Key): int {
    if |events| >= 1 && events[0].key == key then events[0].newQuantity
    else if |events| >= 2 && events[1].key == key then events[1].newQuantity
    else Quantity(s, key)
  }

  // The events of a call, and whether they say exactly what it did to the stock.
  function NewEvents(s: State, s': State): seq<StockEvent>
    requires |s.events| <= |s'.events|
  {
    s'.events[|s.events|..]
  }

  ghost predicate Tells(s: State, s': State, events: seq<StockEvent>) {
    && (forall k :: 0 <= k < |events| ==> events[k].oldQuantity == Quantity(s, events[k].key))
    && forall key :: Quantity(s', key) == Moved(s, events, key)
  }

  lemma StepEvents(s: State, call: Call)
    ensures |s.events| <= |Step(s, call).1.events|
    ensures var events := NewEvents(s, Step(s, call).1);
      && Step(s, call).1.events == s.events + events && |events| <= 2
      && (|events| == 2 ==> events[0].key != events[1].key)
  {
    hide Deducted, Blank, Quantity;
  }

  lemma EmitMany(s: State, events: seq<StockEvent>, key: Key, q: int)
    requires Chained(s.events, key, q) && LastQuantity(s.events, key, q) == Quantity(s, key)
    requires |events| <= 2 && (|events| == 2 ==> events[0].key != events[1].key)
    ensures Chained(s.events + events, key, q) <==>
      forall k :: 0 <= k < |events| && events[k].key == key ==> events[k].oldQuantity == Quantity(s, key)
    ensures LastQuantity(s.events + events, key, q) == Moved(s, events, key)
  {
    hide Chained, LastQuantity;
    if events == [] {
      assert s.events + events == s.events;
    } else {
      EmitOne(s.events, events[0], key, q);
      if |events| == 1 {
        assert s.events + events == s.events + [events[0]];
      } else {
        EmitOne(s.events + [events[0]], events[1], key, q);
        assert s.events + events == s.events + [events[0]] + [events[1]];
      }
    }
  }

  // A trail stays complete exactly if the next events tell the next change.
  lemma TellsIsAudited(s: State, s': State, initial: State, events: seq<StockEvent>)
    requires Audited(s, initial) && s'.events == s.events + events
    requires |events| <= 2 && (|events| == 2 ==> events[0].key != events[1].key)
    ensures Audited(s', initial) <==> Tells(s, s', events)
  {
    hide Chained, LastQuantity, Moved, Quantity;
    forall key
      ensures Chained(s'.events, key, Quantity(initial, key)) <==>
        forall k :: 0 <= k < |events| && events[k].key == key ==> events[k].oldQuantity == Quantity(s, key)
      ensures LastQuantity(s'.events, key, Quantity(initial, key)) == Moved(s, events, key)
    {
      EmitMany(s, events, key, Quantity(initial, key));
    }
    if Audited(s', initial) {
      forall k | 0 <= k < |events| ensures events[k].oldQuantity == Quantity(s, events[k].key) {
        assert Chained(s'.events, events[k].key, Quantity(initial, events[k].key));
      }
    }
  }

  // The same stock with nothing told, and a key's new quantity with or without its event.
  lemma NothingTold(s: State, s': State)
    requires s'.stock == s.stock && |s'.events| == |s.events|
    ensures Tells(s, s', NewEvents(s, s'))
  {
    assert NewEvents(s, s') == [];
  }

  lemma OneTold(s: State, s': State, key: Key, item: StockItem, events: seq<StockEvent>)
    requires s'.stock == s.stock[key := item]
    requires events == [] || (|events| == 1 && events[0].key == key && events[0].newQuantity == item.quantity)
    ensures Tells(s, s', events) <==>
      Quantity(s, key) == if events == [] then item.quantity else events[0].oldQuantity
  {
    assert Quantity(s', key) == item.quantity;
    assert forall k :: k != key ==> Quantity(s', k) == Quantity(s, k);
    assert Moved(s, events, key) == if events == [] then Quantity(s, key) else item.quantity;
  }

  lemma TwoTold(s: State, s': State, a: Key, x: StockItem, b: Key, y: StockItem, events: seq<StockEvent>)
    requires s'.stock == s.stock[a := x][b := y] && a != b && Quantity(s, a) != x.quantity
    requires events == [] || (|events| == 2 && events[0].key == a && events[0].newQuantity == x.quantity
      && events[1].key == b && events[1].newQuantity == y.quantity && events[0].oldQuantity == Quantity(s, a))
    ensures Tells(s, s', events) <==> events != [] && events[1].oldQuantity == Quantity(s, b)
  {
    assert Quantity(s', a) == x.quantity && Quantity(s', b) == y.quantity;
    assert forall k :: k != a && k != b ==> Quantity(s', k) == Quantity(s, k);
    assert events == [] ==> Moved(s, events, a) == Quantity(s, a);
  }

  lemma ReserveTells(s: State, call: Call)
    requires call.Reserve?
    ensures |s.events| <= |Step(s, call).1.events|
    ensures Tells(s, Step(s, call).1, NewEvents(s, Step(s, call).1)) <==> !Gaps(s, call)
  {
    hide Blank, Tells, Moved;
    var key, s' := Key(call.variant, Location(call.location)), Step(s, call).1;
    if call.env.read1 && key in s.stock && call.qty > 0 && Deducted(s.stock[key], call.qty).Some? && call.env.write1 {
      var item, less := s.stock[key], Deducted(s.stock[key], call.qty).value;
      assert s.stock[key := less][key := item] == s.stock;
      if s'.stock == s.stock {
        NothingTold(s, s');
      } else {
        OneTold(s, s', key, less, NewEvents(s, s'));
      }
    } else {
      NothingTold(s, s');
    }
  }

  lemma ReleaseTells(s: State, call: Call)
    requires call.Release?
    ensures |s.events| <= |Step(s, call).1.events|
    ensures Tells(s, Step(s, call).1, NewEvents(s, Step(s, call).1)) <==> !Gaps(s, call)
  {
    hide Tells, Moved;
    var s' := Step(s, call).1;
    if call.env.read1 && call.id in s.reservations && call.env.read2
        && s.reservations[call.id].key in s.stock && call.env.write1 {
      var res := s.reservations[call.id];
      var item := s.stock[res.key];
      var more := item.(quantity := item.quantity + res.quantity);
      assert s.stock[res.key := more][res.key := item] == s.stock;
      if !call.env.write2 && call.env.undo {
        NothingTold(s, s');
      } else {
        OneTold(s, s', res.key, more, NewEvents(s, s'));
      }
    } else {
      NothingTold(s, s');
    }
  }

  lemma TransferTells(s: State, call: Call)
    requires call.Transfer?
    ensures |s.events| <= |Step(s, call).1.events|
    ensures Tells(s, Step(s, call).1, NewEvents(s, Step(s, call).1)) <==> !Gaps(s, call)
  {
    hide Tells, Moved;
    var src, dst := Key(call.variant, Location(call.from)), Key(call.variant, Location(call.to));
    var (status, s') := Step(s, call);
    if call.qty > 0 && src != dst && call.env.read1 && src in s.stock && call.qty <= s.stock[src].quantity
        && call.env.write1 {
      var a := s.stock[src];
      var less := a.(quantity := a.quantity - call.qty);
      assert s.stock[src := less][src := a] == s.stock;
      if status == Ok {
        TwoTold(s, s', src, less, dst, s'.stock[dst], NewEvents(s, s'));
      } else if call.env.undo {
        NothingTold(s, s');
      } else {
        OneTold(s, s', src, less, NewEvents(s, s'));
      }
    } else {
      NothingTold(s, s');
    }
  }

  lemma WriteTells(s: State, call: Call)
    requires call.Adjust? || call.Sync?
    ensures |s.events| <= |Step(s, call).1.events|
    ensures Tells(s, Step(s, call).1, NewEvents(s, Step(s, call).1)) <==> !Gaps(s, call)
  {
    hide Tells, Moved;
    var key := Key(call.variant, Location(call.location));
    var (status, s') := Step(s, call);
    if status == Ok {
      OneTold(s, s', key, s'.stock[key], NewEvents(s, s'));
    } else {
      NothingTold(s, s');
    }
  }

  // Exactly which calls leave a complete trail complete.
  lemma AuditedIff(s: State, initial: State, call: Call)
    requires Audited(s, initial)
    ensures Audited(Step(s, call).1, initial) <==> !Gaps(s, call)
  {
    StepEvents(s, call);
    match call {
      case Reserve(_, _, _, _) => ReserveTells(s, call);
      case Release(_, _) => ReleaseTells(s, call);
      case Transfer(_, _, _, _, _) => TransferTells(s, call);
      case _ => WriteTells(s, call);
    }
    hide Step, Gaps, Tells, Audited;
    TellsIsAudited(s, Step(s, call).1, initial, NewEvents(s, Step(s, call).1));
  }

  ghost predicate NeverGaps(s: State, calls: seq<Call>)
    decreases |calls|
  {
    calls == [] || (!Gaps(s, calls[0]) && NeverGaps(Step(s, calls[0]).1, calls[1..]))
  }

  // The trail is complete all along a run exactly if none of its calls is one of those: each
  // key's events chain old to new, and the last new quantity is the stored one.
  lemma {:induction false} AuditedRunIff(s: State, initial: State, calls: seq<Call>)
    requires Audited(s, initial)
    ensures (forall n :: 0 <= n <= |calls| ==> Audited(Run(s, calls[..n]), initial)) <==> NeverGaps(s, calls)
    decreases |calls|
  {
    if calls == [] {
      assert calls[..0] == [];
    } else {
      var s', rest := Step(s, calls[0]).1, calls[1..];
      AuditedIff(s, initial, calls[0]);
      hide Audited, Gaps, Step;
      PrefixRuns(s, calls);
      if !Gaps(s, calls[0]) {
        AuditedRunIff(s', initial, rest);
        forall n | 0 <= n <= |rest| ensures Run(s', rest[..n]) == Run(s, calls[..n + 1]) {
          assert calls[..n + 1][1..] == rest[..n];
        }
        if NeverGaps(s, calls) {
          forall n | 0 <= n <= |calls| ensures Audited(Run(s, calls[..n]), initial) {
            if n > 0 {
              assert Audited(Run(s', rest[..n - 1]), initial);
            }
          }
        } else {
          var n :| 0 <= n <= |rest| && !Audited(Run(s', rest[..n]), initial);
          assert !Audited(Run(s, calls[..n + 1]), initial);
        }
      } else {
        assert !Audited(Run(s, calls[..1]), initial);
      }
    }
  }

  lemma PrefixRuns(s: State, calls: seq<Call>)
    requires calls != []
    ensures Run(s, calls[..0]) == s && Run(s, calls[..1]) == Step(s, calls[0]).1
  {
    assert calls[..1] == [calls[0]] && calls[..1][1..] == [];
  }

  // Reads fail only for missing records; the emission, the rollback and the ID work.
  ghost predicate Traceable(call: Call) {
    call.env.read1 && call.env.read2 && call.env.undo && call.env.emit && call.env.id.Some?
  }

  // Nothing else is needed of a run whose environment works that far.
  lemma {:induction false} AuditReplays(s: State, initial: State, calls: seq<Call>)
    requires Audited(s, initial) && forall call :: call in calls ==> Traceable(call)
    ensures Audited(Run(s, calls), initial)
    decreases |calls|
  {
    if calls != [] {
      var call := calls[0];
      assert Traceable(call) && !Gaps(s, call);
      AuditedIff(s, initial, call);
      AuditReplays(Step(s, call).1, initial, calls[1..]);
    }
  }
}
