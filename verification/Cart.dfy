/** Shopping carts (internal/core/cart/service.go) and the merge of a guest cart into an
    account cart (internal/core/cart/merge/service.go).  Times are seconds. */
module Cart {
  import opened Common
  import opened Counting

  datatype Item = Item(variant: string, quantity: int)

  // updatedAt None is Go's zero time.
  datatype Cart = Cart(items: seq<Item>, updatedAt: Option<int>)

  type Carts = map<string, Cart>

  const MAX_QUANTITY := 10
  const MAX_ITEMS := 50
  const EXPIRY := 2_592_000  // thirty days

  // What one call meets: whether reading, saving and the save of an expired cart's reset work,
  // and the stock the catalog shows for the variant (None: no such variant).
  datatype Env = Env(readOk: bool, saveOk: bool, resetOk: bool, stock: Option<int>)

  datatype Call =
    | Add(customer: string, item: Item, now: int, env: Env)
    | Update(customer: string, variant: string, quantity: int, now: int, env: Env)
    | Remove(customer: string, variant: string, now: int, env: Env)
    | Clear(customer: string, env: Env)

  // ----- the items of a cart --------------------------------------------------------------

  // The position of the variant's first line, |items| if it has none.
  function Find(items: seq<Item>, variant: string): (k: nat)
    ensures k <= |items|
    ensures k < |items| ==> items[k].variant == variant
    ensures forall i :: 0 <= i < k ==> items[i].variant != variant
  {
    if items == [] then 0 else if items[0].variant == variant then 0 else 1 + Find(items[1..], variant)
  }

  function Quantity(items: seq<Item>, variant: string): int {
    var k := Find(items, variant);
    if k < |items| then items[k].quantity else 0
  }

  ghost predicate GoodItems(items: seq<Item>) {
    && |items| <= MAX_ITEMS
    && (forall i :: 0 <= i < |items| ==> 1 <= items[i].quantity <= MAX_QUANTITY)
    && (forall i, j :: 0 <= i < j < |items| ==> items[i].variant != items[j].variant)
  }

  ghost predicate GoodCarts(s: Carts) {
    forall c :: c in s ==> GoodItems(s[c].items)
  }

  // The lines after adding an item, and what is answered.
  function Added(items: seq<Item>, item: Item, stock: int): (Status, seq<Item>) {
    var k := Find(items, item.variant);
    var target := item.quantity + if k < |items| then items[k].quantity else 0;
    if target > MAX_QUANTITY || target > stock then (BadRequest, items)
    else if k < |items| then (Ok, items[k := items[k].(quantity := target)])
    else if |items| >= MAX_ITEMS then (BadRequest, items)
    else (Ok, items + [item])
  }

  function Without(items: seq<Item>, variant: string): seq<Item> {
    if items == [] then []
    else Without(items[..|items| - 1], variant) + if items[|items| - 1].variant != variant then
        [items[|items| - 1]] else []
  }

  // ----- the calls ------------------------------------------------------------------------

  predicate Expired(c: Cart, now: int) {
    c.updatedAt.Some? && now - c.updatedAt.value > EXPIRY
  }

  // The cart a call works on, and the stored carts after a possible reset.
  function RawCart(s: Carts, customer: string, now: int, env: Env): (Cart, Carts) {
    if customer !in s then (Cart([], Some(now)), s)
    else if Expired(s[customer], now) then
      var reset := Cart([], Some(now));
      (reset, if env.resetOk then s[customer := reset] else s)
    else (s[customer], s)
  }

  function Saved(s: Carts, customer: string, items: seq<Item>, now: int, env: Env): (Status, Carts) {
    if env.saveOk then (Ok, s[customer := Cart(items, Some(now))]) else (Internal, s)
  }

  function AddStep(s: Carts, customer: string, item: Item, now: int, env: Env): (Status, Carts) {
    if item.variant == "" || item.quantity <= 0 then (BadRequest, s)
    else if env.stock.None? then (NotFound, s)
    else if !env.readOk then (Internal, s)
    else
      var (c, s1) := RawCart(s, customer, now, env);
      var (status, items) := Added(c.items, item, env.stock.value);
      if status != Ok then (status, s1) else Saved(s1, customer, items, now, env)
  }

  function UpdateStep(s: Carts, customer: string, variant: string, quantity: int, now: int, env: Env): (Status, Carts) {
    if variant == "" || quantity <= 0 || quantity > MAX_QUANTITY then (BadRequest, s)
    else if !env.readOk then (Internal, s)
    else
      var (c, s1) := RawCart(s, customer, now, env);
      var k := Find(c.items, variant);
      if k == |c.items| || env.stock.None? then (NotFound, s1)
      else if quantity > env.stock.value then (BadRequest, s1)
      else Saved(s1, customer, c.items[k := c.items[k].(quantity := quantity)], now, env)
  }

  function RemoveStep(s: Carts, customer: string, variant: string, now: int, env: Env): (Status, Carts) {
    if variant == "" then (BadRequest, s)
    else if !env.readOk then (Internal, s)
    else
      var (c, s1) := RawCart(s, customer, now, env);
      var items := Without(c.items, variant);
      if |items| == |c.items| then (Ok, s1) else Saved(s1, customer, items, now, env)
  }

  function Step(s: Carts, call: Call): (Status, Carts) {
    match call
    case Add(customer, item, now, env) => AddStep(s, customer, item, now, env)
    case Update(customer, variant, quantity, now, env) => UpdateStep(s, customer, variant, quantity, now, env)
    case Remove(customer, variant, now, env) => RemoveStep(s, customer, variant, now, env)
    case Clear(customer, env) => if env.saveOk then (Ok, s - {customer}) else (Internal, s)
  }

  function Run(s: Carts, calls: seq<Call>): Carts
    decreases |calls|
  {
    if calls == [] then s else Run(Step(s, calls[0]).1, calls[1..])
  }

  // ----- every reachable cart is good -----------------------------------------------------

  lemma {:induction false} WithoutIsGood(items: seq<Item>, variant: string)
    requires GoodItems(items)
    ensures GoodItems(Without(items, variant)) && |Without(items, variant)| <= |items|
    ensures forall i :: i in Without(items, variant) <==> i in items && i.variant != variant
  {
    if items != [] {
      var init, last := items[..|items| - 1], items[|items| - 1];
      WithoutIsGood(init, variant);
      assert items == init + [last];
      var r := Without(init, variant);
      forall i | 0 <= i < |r| ensures r[i].variant != last.variant {
        assert r[i] in init;
      }
    }
  }

  lemma AddedIsGood(items: seq<Item>, item: Item, stock: int)
    requires GoodItems(items) && item.quantity > 0
    ensures GoodItems(Added(items, item, stock).1)
  {
  }

  lemma StepKeepsGood(s: Carts, call: Call)
    requires GoodCarts(s)
    ensures GoodCarts(Step(s, call).1)
  {
    if !call.Clear? {
      var (c, s1) := RawCart(s, call.customer, call.now, call.env);
      assert GoodItems(c.items) && GoodCarts(s1);
      match call {
        case Add(_, item, _, env) =>
          if item.quantity > 0 && env.stock.Some? {
            AddedIsGood(c.items, item, env.stock.value);
          }
        case Update(_, variant, quantity, _, _) =>
        case Remove(_, variant, _, _) => WithoutIsGood(c.items, variant);
      }
    }
  }

  // Over every run a stored cart has at most 50 lines of pairwise distinct variants with
  // quantities from 1 to 10.
  lemma {:induction false} CartsStayGood(s: Carts, calls: seq<Call>)
    requires GoodCarts(s)
    ensures GoodCarts(Run(s, calls))
    decreases |calls|
  {
    if calls != [] {
      StepKeepsGood(s, calls[0]);
      CartsStayGood(Step(s, calls[0]).1, calls[1..]);
    }
  }

  // ----- what a customer sees -------------------------------------------------------------

  // The lines of the cart at that time: a missing or expired cart has none.
  function Lines(s: Carts, customer: string, now: int): seq<Item> {
    if customer in s && !Expired(s[customer], now) then s[customer].items else []
  }

  function Shown(s: Carts, customer: string, variant: string, now: int): int {
    Quantity(Lines(s, customer, now), variant)
  }

  ghost predicate SeenAs(s: Carts, s': Carts, customer: string, changed: string, quantity: int, now: int) {
    && Shown(s', customer, changed, now) == quantity
    && forall v :: v != changed ==> Shown(s', customer, v, now) == Shown(s, customer, v, now)
  }

  ghost predicate Untouched(s: Carts, s': Carts, customer: string, now: int) {
    forall v :: Shown(s', customer, v, now) == Shown(s, customer, v, now)
  }

  // A saved cart is shown for thirty days from now on.
  ghost predicate Lasts(s: Carts, customer: string, now: int) {
    forall t :: Lines(s, customer, t) == if t - now <= EXPIRY then Lines(s, customer, now) else []
  }

  ghost predicate OthersStay(s: Carts, s': Carts, customer: string) {
    forall c :: c != customer ==> (c in s' <==> c in s) && (c in s ==> s'[c] == s[c])
  }

  lemma RawIsShown(s: Carts, customer: string, now: int, env: Env)
    ensures var (c, s1) := RawCart(s, customer, now, env);
      && c.items == Lines(s, customer, now) && Lines(s1, customer, now) == Lines(s, customer, now)
      && OthersStay(s, s1, customer)
  {
  }

  lemma SavedIsShown(s: Carts, customer: string, items: seq<Item>, now: int, env: Env)
    ensures var (status, s') := Saved(s, customer, items, now, env);
      && (status == Ok <==> env.saveOk) && OthersStay(s, s', customer)
      && (status == Ok ==> Lines(s', customer, now) == items && Lasts(s', customer, now))
      && (status != Ok ==> s' == s)
  {
  }

  // An item is added exactly when it exists, the new quantity fits stock and cap, and there is a
  // line for it; its variant then shows as many more, and nothing else changes.
  lemma AddIff(s: Carts, customer: string, item: Item, now: int, env: Env)
    requires GoodCarts(s)
    ensures var (status, s') := AddStep(s, customer, item, now, env);
      var was := Shown(s, customer, item.variant, now);
      && (status == Ok <==>
            (&& item.variant != "" && item.quantity > 0 && env.readOk && env.saveOk && env.stock.Some?
             && was + item.quantity <= MAX_QUANTITY && was + item.quantity <= env.stock.value
             && (was > 0 || |Lines(s, customer, now)| < MAX_ITEMS)))
      && (if status == Ok then SeenAs(s, s', customer, item.variant, was + item.quantity, now)
                               && Lasts(s', customer, now)
          else Untouched(s, s', customer, now))
      && OthersStay(s, s', customer)
  {
    var lines := Lines(s, customer, now);
    RawIsShown(s, customer, now, env);
    if item.quantity > 0 && env.stock.Some? {
      var (c, s1) := RawCart(s, customer, now, env);
      var (status, items) := Added(lines, item, env.stock.value);
      SavedIsShown(s1, customer, items, now, env);
      AddedOk(lines, item, env.stock.value);
      forall v ensures Quantity(items, v) == Quantity(lines, v)
          + if status == Ok && v == item.variant then item.quantity else 0 {
        AddedQuantities(lines, item, env.stock.value, v);
      }
      hide RawCart, Saved, Added, Find, Quantity, Lines, Lasts, GoodItems;
    }
  }

  lemma AddedOk(items: seq<Item>, item: Item, stock: int)
    requires GoodItems(items)
    ensures var was := Quantity(items, item.variant);
      Added(items, item, stock).0 == Ok <==>
        was + item.quantity <= MAX_QUANTITY && was + item.quantity <= stock && (was > 0 || |items| < MAX_ITEMS)
  {
  }

  lemma ReplacedQuantities(items: seq<Item>, k: nat, quantity: int, variant: string)
    requires GoodItems(items) && k < |items| && 1 <= quantity <= MAX_QUANTITY
    ensures Quantity(items[k := items[k].(quantity := quantity)], variant) ==
            if variant == items[k].variant then quantity else Quantity(items, variant)
  {
    var items' := items[k := items[k].(quantity := quantity)];
    var j := Find(items, variant);
    if j < |items| {
      QuantityAt(items', j, variant);
    }
  }

  // A quantity is replaced exactly when the variant has a line and the new one fits.
  lemma UpdateIff(s: Carts, customer: string, variant: string, quantity: int, now: int, env: Env)
    requires GoodCarts(s)
    ensures var (status, s') := UpdateStep(s, customer, variant, quantity, now, env);
      && (status == Ok <==>
            (&& variant != "" && 1 <= quantity <= MAX_QUANTITY && env.readOk && env.saveOk
             && Shown(s, customer, variant, now) > 0 && env.stock.Some? && quantity <= env.stock.value))
      && (if status == Ok then SeenAs(s, s', customer, variant, quantity, now) && Lasts(s', customer, now)
          else Untouched(s, s', customer, now))
      && OthersStay(s, s', customer)
  {
    var lines := Lines(s, customer, now);
    var k := Find(lines, variant);
    RawIsShown(s, customer, now, env);
    if k < |lines| && 1 <= quantity <= MAX_QUANTITY {
      var (c, s1) := RawCart(s, customer, now, env);
      var items := lines[k := lines[k].(quantity := quantity)];
      SavedIsShown(s1, customer, items, now, env);
      forall v ensures Quantity(items, v) == if v == variant then quantity else Quantity(lines, v) {
        ReplacedQuantities(lines, k, quantity, v);
      }
      assert Quantity(lines, variant) > 0;
      hide RawCart, Saved, Find, Quantity, Lines, Lasts, GoodItems;
    }
  }

  lemma WithoutQuantities(items: seq<Item>, variant: string, other: string)
    requires GoodItems(items)
    ensures Quantity(Without(items, variant), other) == if other == variant then 0 else Quantity(items, other)
    ensures |Without(items, variant)| == |items| <==> Quantity(items, variant) == 0
  {
    var left := Without(items, variant);
    WithoutIsGood(items, variant);
    WithoutAll(items, variant);
    var j := Find(items, other);
    if j < |items| && other != variant {
      assert items[j] in left;
      var i :| 0 <= i < |left| && left[i] == items[j];
      QuantityAt(left, i, other);
    }
  }

  lemma {:induction false} WithoutAll(items: seq<Item>, variant: string)
    requires GoodItems(items)
    ensures |Without(items, variant)| == |items| <==> Quantity(items, variant) == 0
    ensures |Without(items, variant)| <= |items|
  {
    if items != [] {
      var n := |items| - 1;
      GuestPrefix(items, n, variant);
      WithoutAll(items[..n], variant);
      hide Find;
    }
  }

  // A removal leaves none of the variant; without a line there is nothing to save.
  lemma RemoveIff(s: Carts, customer: string, variant: string, now: int, env: Env)
    requires GoodCarts(s)
    ensures var (status, s') := RemoveStep(s, customer, variant, now, env);
      && (status == Ok <==> variant != "" && env.readOk && (Shown(s, customer, variant, now) > 0 ==> env.saveOk))
      && (if status == Ok then SeenAs(s, s', customer, variant, 0, now) else Untouched(s, s', customer, now))
      && (status == Ok && Shown(s, customer, variant, now) > 0 ==> Lasts(s', customer, now))
      && OthersStay(s, s', customer)
  {
    var lines := Lines(s, customer, now);
    var left := Without(lines, variant);
    var (c, s1) := RawCart(s, customer, now, env);
    RawIsShown(s, customer, now, env);
    SavedIsShown(s1, customer, left, now, env);
    forall v ensures Quantity(left, v) == if v == variant then 0 else Quantity(lines, v) {
      WithoutQuantities(lines, variant, v);
    }
    WithoutAll(lines, variant);
    assert Quantity(lines, variant) >= 0;
    hide RawCart, Saved, Find, Quantity, Lines, Lasts, GoodItems, Without;
  }

  lemma ClearIff(s: Carts, customer: string, env: Env)
    ensures var (status, s') := Step(s, Clear(customer, env));
      && (status == Ok <==> env.saveOk) && OthersStay(s, s', customer)
      && forall t :: Lines(s', customer, t) == if status == Ok then [] else Lines(s, customer, t)
  {
  }

  // ----- merging --------------------------------------------------------------------------

  function ItemsOf(s: Carts, customer: string): seq<Item> {
    if customer in s then s[customer].items else []
  }

  // The loop of the merge: every guest line is added to the account cart, errors are skipped.
  function Merged(s: Carts, account: string, guest: seq<Item>, now: int, envs: seq<Env>): Carts
    requires |envs| == |guest|
    decreases |guest|
  {
    if guest == [] then s
    else
      var n := |guest| - 1;
      AddStep(Merged(s, account, guest[..n], now, envs[..n]), account, guest[n], now, envs[n]).1
  }

  ghost predicate Unexpired(s: Carts, customer: string, now: int) {
    customer in s ==> !Expired(s[customer], now)
  }

  lemma QuantityAt(items: seq<Item>, k: nat, variant: string)
    requires GoodItems(items) && k < |items| && items[k].variant == variant
    ensures Find(items, variant) == k && Quantity(items, variant) == items[k].quantity
  {
  }

  // What one addition does to the quantities.
  lemma AddedQuantities(items: seq<Item>, item: Item, stock: int, variant: string)
    requires GoodItems(items) && item.quantity > 0
    ensures var (status, items') := Added(items, item, stock);
      && (variant != item.variant || status != Ok ==> Quantity(items', variant) == Quantity(items, variant))
      && (variant == item.variant && status == Ok ==>
            Quantity(items', variant) == Quantity(items, variant) + item.quantity)
  {
    var (status, items') := Added(items, item, stock);
    AddedIsGood(items, item, stock);
    var k := Find(items, variant);
    if k < |items| {
      QuantityAt(items', k, variant);
    } else if variant == item.variant && status == Ok {
      QuantityAt(items', |items|, variant);
    } else {
      assert forall i :: 0 <= i < |items'| ==> items'[i].variant != variant;
    }
  }

  lemma {:induction false} MergeState(s: Carts, account: string, guest: seq<Item>, now: int, envs: seq<Env>)
    requires GoodCarts(s) && Unexpired(s, account, now) && |envs| == |guest|
    ensures var s' := Merged(s, account, guest, now, envs);
      && GoodCarts(s') && Unexpired(s', account, now)
      && forall c :: c != account ==> (c in s' <==> c in s) && (c in s ==> s'[c] == s[c])
    decreases |guest|
  {
    if guest != [] {
      var n := |guest| - 1;
      MergeState(s, account, guest[..n], now, envs[..n]);
      StepKeepsGood(Merged(s, account, guest[..n], now, envs[..n]), Add(account, guest[n], now, envs[n]));
    }
  }

  // One merged line: either nothing changes or the line's variant gains the line's quantity.
  lemma MergeLine(s: Carts, account: string, item: Item, now: int, env: Env, variant: string)
    requires GoodCarts(s) && Unexpired(s, account, now)
    ensures var q := Quantity(ItemsOf(s, account), variant);
      var q' := Quantity(ItemsOf(AddStep(s, account, item, now, env).1, account), variant);
      q' == q || (variant == item.variant && item.quantity > 0 && q' == q + item.quantity)
  {
    if item.quantity > 0 && env.stock.Some? {
      AddedQuantities(ItemsOf(s, account), item, env.stock.value, variant);
    }
  }

  // Whatever saves and lookups fail: no account quantity is lowered, and every variant ends at
  // its account quantity or at account plus guest.
  lemma {:induction false} MergeNeverLowers(s: Carts, account: string, guest: seq<Item>, now: int,
      envs: seq<Env>, variant: string)
    requires GoodCarts(s) && Unexpired(s, account, now) && GoodItems(guest) && |envs| == |guest|
    ensures var q := Quantity(ItemsOf(s, account), variant);
      var q' := Quantity(ItemsOf(Merged(s, account, guest, now, envs), account), variant);
      q' == q || q' == q + Quantity(guest, variant)
    ensures Quantity(guest, variant) >= 0
    decreases |guest|
  {
    if guest != [] {
      var n := |guest| - 1;
      GuestPrefix(guest, n, variant);
      hide AddStep, GoodCarts, GoodItems, Find, Quantity, Unexpired, ItemsOf;
      MergeNeverLowers(s, account, guest[..n], now, envs[..n], variant);
      MergeState(s, account, guest[..n], now, envs[..n]);
      MergeLine(Merged(s, account, guest[..n], now, envs[..n]), account, guest[n], now, envs[n], variant);
    }
  }

  lemma GuestPrefix(guest: seq<Item>, n: nat, variant: string)
    requires GoodItems(guest) && n == |guest| - 1
    ensures GoodItems(guest[..n])
    ensures guest[n].variant == variant ==>
      Quantity(guest[..n], variant) == 0 && Quantity(guest, variant) == guest[n].quantity
    ensures guest[n].variant != variant ==> Quantity(guest, variant) == Quantity(guest[..n], variant)
    ensures Quantity(guest, variant) >= 0
  {
    var k := Find(guest, variant);
    if k < n {
      QuantityAt(guest[..n], k, variant);
    }
  }

  // ----- the exact outcome ----------------------------------------------------------------

  // With the catalog fixed and nothing failing.
  function CatalogEnvs(catalog: string -> Option<int>, guest: seq<Item>): (r: seq<Env>)
    ensures |r| == |guest|
  {
    seq(|guest|, i requires 0 <= i < |guest| => Env(true, true, true, catalog(guest[i].variant)))
  }

  function MergedItems(s: Carts, account: string, guest: seq<Item>, now: int,
                       catalog: string -> Option<int>): seq<Item>
  {
    ItemsOf(Merged(s, account, guest, now, CatalogEnvs(catalog, guest)), account)
  }

  // Whether catalog, stock and the cap of ten allow the variant this quantity.
  predicate Fits(catalog: string -> Option<int>, variant: string, quantity: int) {
    variant != "" && catalog(variant).Some? && quantity <= MAX_QUANTITY && quantity <= catalog(variant).value
  }

  // The guest lines that need a line of their own and would get it, given room.
  function Newcomer(own: seq<Item>, catalog: string -> Option<int>): Item -> bool {
    (i: Item) => Quantity(own, i.variant) == 0 && Fits(catalog, i.variant, i.quantity)
  }

  function Free(own: seq<Item>): int {
    MAX_ITEMS - |own|
  }

  // What a variant ends at: newcomers are served in order until the cart is full.
  function MergedQuantity(own: seq<Item>, catalog: string -> Option<int>, guest: seq<Item>, variant: string): int {
    var q, k := Quantity(own, variant), Find(guest, variant);
    if k == |guest| then q
    else if q > 0 then
      if Fits(catalog, variant, q + guest[k].quantity) then q + guest[k].quantity else q
    else if Newcomer(own, catalog)(guest[k]) && Count(guest[..k], Newcomer(own, catalog)) < Free(own)
    then guest[k].quantity else 0
  }

  function Least(a: int, b: int): int {
    if a < b then a else b
  }

  lemma PresentIsPositive(items: seq<Item>, variant: string)
    requires GoodItems(items)
    ensures Quantity(items, variant) > 0 <==> Find(items, variant) < |items|
    ensures Quantity(items, variant) >= 0
  {
  }

  // One line merged into a cart that already holds what the earlier ones left.
  lemma MergeLineExact(s: Carts, account: string, own: seq<Item>, before: seq<Item>, item: Item, now: int,
                       catalog: string -> Option<int>)
    requires GoodCarts(s) && Unexpired(s, account, now) && item.quantity >= 1 && item.quantity <= MAX_QUANTITY
    requires Quantity(ItemsOf(s, account), item.variant) == Quantity(own, item.variant) && |own| <= MAX_ITEMS
    requires |ItemsOf(s, account)| == |own| + Least(Free(own), Count(before, Newcomer(own, catalog)))
    ensures var env := Env(true, true, true, catalog(item.variant));
      var items := ItemsOf(AddStep(s, account, item, now, env).1, account);
      && |items| == |own| + Least(Free(own), Count(before + [item], Newcomer(own, catalog)))
      && Quantity(items, item.variant)
         == LineQuantity(own, catalog, Count(before, Newcomer(own, catalog)), item)
      && forall v :: v != item.variant ==> Quantity(items, v) == Quantity(ItemsOf(s, account), v)
  {
    var items := ItemsOf(s, account);
    PresentIsPositive(items, item.variant);
    CountSnoc(before, item, Newcomer(own, catalog));
    AddStepItems(s, account, item, now, catalog(item.variant));
    if item.variant != "" && catalog(item.variant).Some? {
      var stock := catalog(item.variant).value;
      AddedExact(items, item, stock);
      forall v | v != item.variant ensures Quantity(Added(items, item, stock).1, v) == Quantity(items, v) {
        AddedQuantities(items, item, stock, v);
      }
    }
    hide GoodCarts, GoodItems, Count, Quantity, Added, AddStep, ItemsOf;
  }

  lemma AddStepItems(s: Carts, account: string, item: Item, now: int, stock: Option<int>)
    requires Unexpired(s, account, now) && item.quantity >= 1
    ensures ItemsOf(AddStep(s, account, item, now, Env(true, true, true, stock)).1, account) ==
      if item.variant == "" || stock.None? then ItemsOf(s, account) else Added(ItemsOf(s, account), item, stock.value).1
  {
    hide Find;
  }

  // When an addition succeeds, and what it does to its variant and the number of lines.
  lemma AddedExact(items: seq<Item>, item: Item, stock: int)
    requires GoodItems(items) && 1 <= item.quantity <= MAX_QUANTITY
    ensures var q, items' := Quantity(items, item.variant), Added(items, item, stock).1;
      var fits := q + item.quantity <= MAX_QUANTITY && q + item.quantity <= stock;
      && Quantity(items', item.variant) ==
           (if fits && (q > 0 || |items| < MAX_ITEMS) then q + item.quantity else q)
      && |items'| == if fits && q == 0 && |items| < MAX_ITEMS then |items| + 1 else |items|
  {
    PresentIsPositive(items, item.variant);
    AddedQuantities(items, item, stock, item.variant);
    hide GoodItems, Find;
  }

  // What a line adds, given how many newcomers came before it.
  function LineQuantity(own: seq<Item>, catalog: string -> Option<int>, newcomers: nat, item: Item): int {
    var q := Quantity(own, item.variant);
    if q > 0 then if Fits(catalog, item.variant, q + item.quantity) then q + item.quantity else q
    else if Newcomer(own, catalog)(item) && newcomers < Free(own) then item.quantity else 0
  }

  lemma MergedQuantityLast(own: seq<Item>, catalog: string -> Option<int>, guest: seq<Item>)
    requires GoodItems(guest) && guest != []
    ensures var prefix, last := guest[..|guest| - 1], guest[|guest| - 1];
      && MergedQuantity(own, catalog, prefix, last.variant) == Quantity(own, last.variant)
      && MergedQuantity(own, catalog, guest, last.variant)
         == LineQuantity(own, catalog, Count(prefix, Newcomer(own, catalog)), last)
      && forall v :: v != last.variant ==>
           MergedQuantity(own, catalog, guest, v) == MergedQuantity(own, catalog, prefix, v)
  {
    var n := |guest| - 1;
    QuantityAt(guest, n, guest[n].variant);
    assert Find(guest[..n], guest[n].variant) == n;
    hide Fits, Newcomer, Count, Quantity;
    forall v | v != guest[n].variant
      ensures MergedQuantity(own, catalog, guest, v) == MergedQuantity(own, catalog, guest[..n], v)
    {
      var k := Find(guest, v);
      if k < n {
        QuantityAt(guest[..n], k, v);
        assert guest[..n][..k] == guest[..k];
      }
    }
  }

  // With nothing failing, every variant ends where MergedQuantity says.
  lemma {:induction false} MergeExactly(s: Carts, account: string, guest: seq<Item>, now: int,
                                        catalog: string -> Option<int>)
    requires GoodCarts(s) && Unexpired(s, account, now) && GoodItems(guest)
    ensures var own, items := ItemsOf(s, account), MergedItems(s, account, guest, now, catalog);
      && |items| == |own| + Least(Free(own), Count(guest, Newcomer(own, catalog)))
      && forall v :: Quantity(items, v) == MergedQuantity(own, catalog, guest, v)
    decreases |guest|
  {
    var own := ItemsOf(s, account);
    if guest != [] {
      var n := |guest| - 1;
      var prefix, last, envs := guest[..n], guest[n], CatalogEnvs(catalog, guest);
      var before := Merged(s, account, prefix, now, CatalogEnvs(catalog, prefix));
      assert envs[..n] == CatalogEnvs(catalog, prefix) && guest == prefix + [last];
      assert MergedItems(s, account, guest, now, catalog)
          == ItemsOf(AddStep(before, account, last, now, Env(true, true, true, catalog(last.variant))).1, account);
      assert GoodItems(prefix) && |own| <= MAX_ITEMS && 1 <= last.quantity <= MAX_QUANTITY by {
        GuestPrefix(guest, n, last.variant);
      }
      hide AddStep, GoodCarts, GoodItems, Count, Quantity, Find, Newcomer, Unexpired, Fits, Merged, MergedQuantity;
      MergeExactly(s, account, prefix, now, catalog);
      MergeState(s, account, prefix, now, CatalogEnvs(catalog, prefix));
      MergedQuantityLast(own, catalog, guest);
      MergeLineExact(before, account, own, prefix, last, now, catalog);
    }
  }

  // ----- the order of the guest's lines ---------------------------------------------------

  function Named(variant: string): Item -> bool {
    (i: Item) => i.variant == variant
  }

  lemma OrderIsGood(a: seq<Item>, b: seq<Item>)
    requires GoodItems(a) && multiset(a) == multiset(b)
    ensures GoodItems(b)
  {
    SameLength(a, b);
    forall i | 0 <= i < |b| ensures 1 <= b[i].quantity <= MAX_QUANTITY {
      assert b[i] in multiset(a);
    }
    forall i, j | 0 <= i < j < |b| ensures b[i].variant != b[j].variant {
      var p := Named(b[i].variant);
      CountOfOrder(a, b, p);
      CountTwo(a, p);
      CountTwo(b, p);
      assert forall k, l :: 0 <= k < l < |a| ==> !(p(a[k]) && p(a[l]));
      assert !(p(b[i]) && p(b[j]));
    }
  }

  ghost predicate OrderIsIrrelevant(s: Carts, account: string, guest: seq<Item>, now: int,
                                    catalog: string -> Option<int>)
  {
    forall order, v :: multiset(order) == multiset(guest) ==>
      Quantity(MergedItems(s, account, order, now, catalog), v)
      == Quantity(MergedItems(s, account, guest, now, catalog), v)
  }

  // With successful saves and a fixed catalog, the merged quantities do not depend on the order
  // of the guest's lines exactly when the account cart is full already or has room for all the
  // newcomers.
  lemma OrderIsIrrelevantIff(s: Carts, account: string, guest: seq<Item>, now: int, catalog: string -> Option<int>)
    requires GoodCarts(s) && Unexpired(s, account, now) && GoodItems(guest)
    ensures var own := ItemsOf(s, account);
      OrderIsIrrelevant(s, account, guest, now, catalog)
      <==> Free(own) == 0 || Count(guest, Newcomer(own, catalog)) <= Free(own)
  {
    var own := ItemsOf(s, account);
    MergeExactly(s, account, guest, now, catalog);
    if Free(own) == 0 || Count(guest, Newcomer(own, catalog)) <= Free(own) {
      forall order, v | multiset(order) == multiset(guest)
        ensures Quantity(MergedItems(s, account, order, now, catalog), v)
             == Quantity(MergedItems(s, account, guest, now, catalog), v)
      {
        OrderIsGood(guest, order);
        MergeExactly(s, account, order, now, catalog);
        CountOfOrder(guest, order, Newcomer(own, catalog));
        hide MergedItems, GoodCarts;
        RoomForAll(own, catalog, guest, v);
        RoomForAll(own, catalog, order, v);
        SameLine(guest, order, v);
      }
    } else {
      var order, variant := OrdersThatDiffer(s, account, guest, now, catalog);
    }
  }

  // With room for all, or none, a variant's outcome only depends on its own line.
  lemma RoomForAll(own: seq<Item>, catalog: string -> Option<int>, guest: seq<Item>, variant: string)
    requires Free(own) == 0 || Count(guest, Newcomer(own, catalog)) <= Free(own)
    ensures var q, k := Quantity(own, variant), Find(guest, variant);
      MergedQuantity(own, catalog, guest, variant) ==
        if k == |guest| then q
        else if q > 0 then if Fits(catalog, variant, q + guest[k].quantity) then q + guest[k].quantity else q
        else if Newcomer(own, catalog)(guest[k]) && Free(own) > 0 then guest[k].quantity else 0
  {
    var p, k := Newcomer(own, catalog), Find(guest, variant);
    if k < |guest| && p(guest[k]) {
      assert guest == guest[..k] + guest[k..];
      CountAppend(guest[..k], guest[k..], p);
      assert Count(guest[k..], p) >= 1;
    }
  }

  lemma SameLine(a: seq<Item>, b: seq<Item>, variant: string)
    requires GoodItems(a) && GoodItems(b) && multiset(a) == multiset(b)
    ensures var k, l := Find(a, variant), Find(b, variant);
      (k < |a| <==> l < |b|) && (k < |a| ==> a[k] == b[l])
  {
    var k, l := Find(a, variant), Find(b, variant);
    if k < |a| {
      assert a[k] in multiset(b);
      var m :| 0 <= m < |b| && b[m] == a[k];
      QuantityAt(b, m, variant);
    } else {
      forall m | 0 <= m < |b| ensures b[m].variant != variant {
        assert b[m] in multiset(a);
      }
    }
  }

  lemma FirstIsServed(own: seq<Item>, catalog: string -> Option<int>, rest: seq<Item>, x: Item)
    requires GoodItems([x] + rest) && Newcomer(own, catalog)(x) && Free(own) > 0
    ensures MergedQuantity(own, catalog, [x] + rest, x.variant) == x.quantity
  {
    QuantityAt([x] + rest, 0, x.variant);
    assert ([x] + rest)[..0] == [];
    hide Fits;
  }

  lemma LastIsRefused(own: seq<Item>, catalog: string -> Option<int>, rest: seq<Item>, x: Item)
    requires GoodItems(rest + [x]) && Newcomer(own, catalog)(x)
    requires Free(own) < Count(rest + [x], Newcomer(own, catalog))
    ensures MergedQuantity(own, catalog, rest + [x], x.variant) == 0
  {
    QuantityAt(rest + [x], |rest|, x.variant);
    assert (rest + [x])[..|rest|] == rest;
    CountSnoc(rest, x, Newcomer(own, catalog));
    hide Fits, Count;
  }

  // Otherwise a newcomer is served when it comes first and refused when it comes last.
  lemma TwoOrders(own: seq<Item>, catalog: string -> Option<int>, guest: seq<Item>)
    returns (first: seq<Item>, last: seq<Item>, variant: string)
    requires GoodItems(guest) && 0 < Free(own) < Count(guest, Newcomer(own, catalog))
    ensures multiset(first) == multiset(last) == multiset(guest)
    ensures MergedQuantity(own, catalog, first, variant) > 0 == MergedQuantity(own, catalog, last, variant)
  {
    var p := Newcomer(own, catalog);
    CountZero(guest, p);
    var i :| 0 <= i < |guest| && p(guest[i]);
    var x, rest := guest[i], guest[..i] + guest[i + 1..];
    assert x.quantity >= 1;
    hide Count, Newcomer;
    first, last, variant := [x] + rest, rest + [x], x.variant;
    DropAt(guest, i);
    OrderIsGood(guest, first);
    OrderIsGood(guest, last);
    CountOfOrder(guest, last, p);
    hide MergedQuantity, GoodItems;
    FirstIsServed(own, catalog, rest, x);
    LastIsRefused(own, catalog, rest, x);
  }

  lemma OrdersThatDiffer(s: Carts, account: string, guest: seq<Item>, now: int, catalog: string -> Option<int>)
    returns (order: seq<Item>, variant: string)
    requires GoodCarts(s) && Unexpired(s, account, now) && GoodItems(guest)
    requires var own := ItemsOf(s, account); 0 < Free(own) < Count(guest, Newcomer(own, catalog))
    ensures multiset(order) == multiset(guest)
    ensures Quantity(MergedItems(s, account, order, now, catalog), variant)
         != Quantity(MergedItems(s, account, guest, now, catalog), variant)
  {
    var first, last;
    first, last, variant := TwoOrders(ItemsOf(s, account), catalog, guest);
    OrderIsGood(guest, first);
    OrderIsGood(guest, last);
    hide *;
    MergeExactly(s, account, first, now, catalog);
    MergeExactly(s, account, last, now, catalog);
    order := if Quantity(MergedItems(s, account, first, now, catalog), variant)
                != Quantity(MergedItems(s, account, guest, now, catalog), variant) then first else last;
  }

  // ----- the whole merge ------------------------------------------------------------------

  // What one merge meets besides the calls for its lines: whether the guest cart can be read and
  // deleted, and the final read of the account cart.
  datatype MergeEnv = MergeEnv(guestReadOk: bool, deleteOk: bool, final: Env)

  function FinalRead(s: Carts, account: string, now: int, env: Env): (Status, Carts) {
    if env.readOk then (Ok, RawCart(s, account, now, env).1) else (Internal, s)
  }

  function MergeStep(s: Carts, account: string, guest: string, now: int, envs: seq<Env>, m: MergeEnv): (Status, Carts)
    requires guest in s ==> |envs| == |s[guest].items|
  {
    if !m.guestReadOk then (Internal, s)
    else if guest !in s then FinalRead(s, account, now, m.final)
    else
      var merged := Merged(s, account, s[guest].items, now, envs);
      FinalRead(if m.deleteOk then merged - {guest} else merged, account, now, m.final)
  }

  lemma FinalReadKeepsUnexpired(s: Carts, account: string, now: int, env: Env)
    ensures Unexpired(s, account, now) ==> FinalRead(s, account, now, env).1 == s
    ensures GoodCarts(s) ==> GoodCarts(FinalRead(s, account, now, env).1)
  {
  }

  lemma DropKeepsGood(s: Carts, guest: string)
    requires GoodCarts(s)
    ensures GoodCarts(s - {guest}) && (guest in s ==> GoodItems(s[guest].items))
  {
  }

  // A merge into a different, unexpired account cart: whatever fails, no account quantity is
  // lowered and each ends at its old value or that plus the guest's; the guest cart is gone
  // exactly when it could be read and deleted; nobody else's cart is touched.
  lemma MergeOutcome(s: Carts, account: string, guest: string, now: int, envs: seq<Env>, m: MergeEnv, variant: string)
    requires GoodCarts(s) && Unexpired(s, account, now) && account != guest
    requires guest in s ==> |envs| == |s[guest].items|
    ensures var s' := MergeStep(s, account, guest, now, envs, m).1;
      && (var q := Quantity(ItemsOf(s, account), variant);
          var q' := Quantity(ItemsOf(s', account), variant);
          q' == q || q' == q + Quantity(ItemsOf(s, guest), variant))
      && Quantity(ItemsOf(s, guest), variant) >= 0
      && (guest in s' <==> guest in s && !(m.guestReadOk && m.deleteOk))
      && (forall c :: c != account && c != guest ==> (c in s' <==> c in s) && (c in s ==> s'[c] == s[c]))
      && GoodCarts(s')
  {
    hide Merged, GoodItems, GoodCarts, Quantity, Find, RawCart, FinalRead;
    DropKeepsGood(s, guest);
    FinalReadKeepsUnexpired(s, account, now, m.final);
    if guest in s {
      var merged := Merged(s, account, s[guest].items, now, envs);
      MergeNeverLowers(s, account, s[guest].items, now, envs, variant);
      MergeState(s, account, s[guest].items, now, envs);
      DropKeepsGood(merged, guest);
      FinalReadKeepsUnexpired(merged, account, now, m.final);
      FinalReadKeepsUnexpired(merged - {guest}, account, now, m.final);
    } else {
      assert Quantity([], variant) == 0 by { NoLines(variant); }
    }
  }

  lemma NoLines(variant: string)
    ensures Quantity([], variant) == 0
  {
  }

  // Merging a cart into itself loses it: the delete that ends the merge takes the account cart.
  lemma SelfMergeLosesTheCart(s: Carts, account: string, now: int, envs: seq<Env>, m: MergeEnv)
    requires account in s && |envs| == |s[account].items|
    ensures account in MergeStep(s, account, account, now, envs, m).1 <==> !(m.guestReadOk && m.deleteOk)
  {
    MergeKeepsDomain(s, account, s[account].items, now, envs);
  }

  lemma {:induction false} MergeKeepsDomain(s: Carts, account: string, guest: seq<Item>, now: int, envs: seq<Env>)
    requires account in s && |envs| == |guest|
    ensures account in Merged(s, account, guest, now, envs)
    decreases |guest|
  {
    if guest != [] {
      var n := |guest| - 1;
      MergeKeepsDomain(s, account, guest[..n], now, envs[..n]);
    }
  }

  // ----- the services ---------------------------------------------------------------------

  class CartService {
    var carts: Carts

    constructor ()
      ensures carts == map[]
    {
      carts := map[];
    }

    // None: the repository failed.
    method GetRawCart(customer: string, now: int, env: Env) returns (c: Option<Cart>)
      modifies this
      ensures !env.readOk ==> c == None && carts == old(carts)
      ensures env.readOk ==> c.Some? && (c.value, carts) == RawCart(old(carts), customer, now, env)
    {
      if !env.readOk { return None; }
      if customer !in carts { return Some(Cart([], Some(now))); }
      var found := carts[customer];
      if found.updatedAt.Some? && now - found.updatedAt.value > EXPIRY {
        found := Cart([], Some(now));
        if env.resetOk {
          carts := carts[customer := found];
        }
      }
      return Some(found);
    }

    method Save(customer: string, c: Cart, env: Env) returns (status: Status)
      modifies this
      ensures env.saveOk ==> status == Ok && carts == old(carts)[customer := c]
      ensures !env.saveOk ==> status == Internal && carts == old(carts)
    {
      if !env.saveOk { return Internal; }
      carts := carts[customer := c];
      return Ok;
    }

    method AddItem(customer: string, item: Item, now: int, env: Env) returns (status: Status)
      requires GoodCarts(carts)
      modifies this
      ensures (status, carts) == AddStep(old(carts), customer, item, now, env)
      ensures GoodCarts(carts)
    {
      StepKeepsGood(carts, Add(customer, item, now, env));
      hide GoodItems, GoodCarts, Expired;
      if item.variant == "" { return BadRequest; }
      if item.quantity <= 0 { return BadRequest; }
      if env.stock.None? { return NotFound; }
      var raw := GetRawCart(customer, now, env);
      if raw.None? { return Internal; }
      var c := raw.value;
      var index := FindLine(c.items, item.variant);
      var target := item.quantity;
      if index < |c.items| { target := target + c.items[index].quantity; }
      if target > MAX_QUANTITY { return BadRequest; }
      if target > env.stock.value { return BadRequest; }
      if index < |c.items| {
        c := c.(items := c.items[index := c.items[index].(quantity := target)]);
      } else {
        if |c.items| >= MAX_ITEMS { return BadRequest; }
        c := c.(items := c.items + [item]);
      }
      c := c.(updatedAt := Some(now));
      status := Save(customer, c, env);
    }

    method UpdateItem(customer: string, variant: string, quantity: int, now: int, env: Env) returns (status: Status)
      requires GoodCarts(carts)
      modifies this
      ensures (status, carts) == UpdateStep(old(carts), customer, variant, quantity, now, env)
      ensures GoodCarts(carts)
    {
      StepKeepsGood(carts, Update(customer, variant, quantity, now, env));
      hide GoodItems, GoodCarts, Expired;
      if variant == "" { return BadRequest; }
      if quantity <= 0 { return BadRequest; }
      if quantity > MAX_QUANTITY { return BadRequest; }
      var raw := GetRawCart(customer, now, env);
      if raw.None? { return Internal; }
      var c := raw.value;
      var index := FindLine(c.items, variant);
      if index == |c.items| { return NotFound; }
      if env.stock.None? { return NotFound; }
      if quantity > env.stock.value { return BadRequest; }
      c := c.(items := c.items[index := c.items[index].(quantity := quantity)]);
      c := c.(updatedAt := Some(now));
      status := Save(customer, c, env);
    }

    method RemoveItem(customer: string, variant: string, now: int, env: Env) returns (status: Status)
      requires GoodCarts(carts)
      modifies this
      ensures (status, carts) == RemoveStep(old(carts), customer, variant, now, env)
      ensures GoodCarts(carts)
    {
      StepKeepsGood(carts, Remove(customer, variant, now, env));
      hide GoodItems, GoodCarts, Expired;
      if variant == "" { return BadRequest; }
      var raw := GetRawCart(customer, now, env);
      if raw.None? { return Internal; }
      var c := raw.value;
      var updated: seq<Item> := [];
      for i := 0 to |c.items|
        invariant updated == Without(c.items[..i], variant)
      {
        assert c.items[..i + 1][..i] == c.items[..i];
        if c.items[i].variant != variant {
          updated := updated + [c.items[i]];
        }
      }
      assert c.items[..|c.items|] == c.items;
      if |updated| == |c.items| { return Ok; }
      c := c.(items := updated, updatedAt := Some(now));
      status := Save(customer, c, env);
    }

    method ClearCart(customer: string, env: Env) returns (status: Status)
      requires GoodCarts(carts)
      modifies this
      ensures (status, carts) == Step(old(carts), Clear(customer, env))
      ensures GoodCarts(carts)
    {
      if !env.saveOk { return Internal; }
      carts := carts - {customer};
      return Ok;
    }
  }

  // The search loop of AddItem and UpdateItem.
  method FindLine(items: seq<Item>, variant: string) returns (index: nat)
    ensures index == Find(items, variant)
  {
    index := 0;
    while index < |items| && items[index].variant != variant
      invariant index <= |items| && forall i :: 0 <= i < index ==> items[i].variant != variant
    {
      index := index + 1;
    }
  }

  class MergeService {
    const service: CartService

    constructor (service: CartService)
      ensures this.service == service
    {
      this.service := service;
    }

    method MergeGuestCartWithAccount(account: string, guest: string, now: int, envs: seq<Env>, m: MergeEnv)
      returns (status: Status)
      requires GoodCarts(service.carts)
      requires guest in service.carts ==> |envs| == |service.carts[guest].items|
      modifies service
      ensures (status, service.carts) == MergeStep(old(service.carts), account, guest, now, envs, m)
      ensures GoodCarts(service.carts)
    {
      hide GoodItems, AddStep;
      if !m.guestReadOk { return Internal; }
      if guest in service.carts {
        var items := service.carts[guest].items;
        ghost var start := service.carts;
        for i := 0 to |items|
          invariant service.carts == Merged(start, account, items[..i], now, envs[..i])
          invariant GoodCarts(service.carts)
        {
          assert items[..i + 1][..i] == items[..i] && envs[..i + 1][..i] == envs[..i];
          var skipped := service.AddItem(account, items[i], now, envs[i]);
        }
        assert items[..|items|] == items && envs[..|items|] == envs;
        if m.deleteOk {
          service.carts := service.carts - {guest};
        }
      }
      FinalReadKeepsUnexpired(service.carts, account, now, m.final);
      var c := service.GetRawCart(account, now, m.final);
      status := if c.Some? then Ok else Internal;
    }
  }
}
