/** The bounded in-memory cache (internal/infra/cache/memory/adapter.go): capacity, sampled
    eviction, and agreement with an unbounded map of values with expiry times. */
module MemoryCache {
  import opened Common

  // expiration and lastAccess are Unix nanoseconds; expiration 0 means never.
  datatype Item = Item(value: string, expiration: int, hits: int, lastAccess: int)

  type Items = map<string, Item>

  const MAX_KEY_LENGTH := 512
  const SWEEP_SAMPLE := 50
  const LFU_SAMPLE := 10

  predicate Expired(item: Item, now: int) {
    item.expiration > 0 && now > item.expiration
  }

  // A cache read: the value of a present, unexpired item.
  function Lookup(items: Items, key: string, now: int): Option<string> {
    if key in items && !Expired(items[key], now) then Some(items[key].value) else None
  }

  // ----- eviction -------------------------------------------------------------------------

  // a is evicted rather than b: fewer hits, or as many and an access no later.
  predicate NoBetter(a: Item, b: Item) {
    a.hits < b.hits || (a.hits == b.hits && a.lastAccess <= b.lastAccess)
  }

  // An arbitrary sample, as map iteration gives it.
  ghost predicate IsSample(items: Items, sample: set<string>, size: nat) {
    sample <= items.Keys && |sample| == if |items| < size then |items| else size
  }

  ghost predicate IsVictim(items: Items, sample: set<string>, victim: string) {
    && IsSample(items, sample, LFU_SAMPLE) && victim in sample
    && forall k :: k in sample ==> NoBetter(items[victim], items[k])
  }

  ghost function ExpiredIn(items: Items, met: set<string>, now: int): set<string> {
    set k | k in met && k in items && Expired(items[k], now)
  }

  // The choices one Set makes at capacity: the items it meets in its sweep, and, if that makes
  // too little room, a second sample and the victim picked from it.
  datatype Choice = Choice(now: int, met: set<string>, sample: set<string>, picked: Option<string>)

  ghost predicate Evicts(maxItems: nat, items: Items, c: Choice) {
    && IsSample(items, c.met, SWEEP_SAMPLE)
    && var left := items - ExpiredIn(items, c.met, c.now);
       && (c.picked.Some? <==> |left| >= maxItems && |left| > 0)
       && (c.picked.Some? ==> IsVictim(left, c.sample, c.picked.value))
  }

  // What goes: the expired items met and the picked victim, unless that is the empty key.
  ghost function Gone(items: Items, c: Choice): set<string> {
    ExpiredIn(items, c.met, c.now) + if c.picked.Some? && c.picked.value != "" then {c.picked.value} else {}
  }

  // ----- operations as changes of the stored items ----------------------------------------

  datatype Op =
    | Put(key: string, item: Item, room: Option<Choice>)  // Set; at capacity it makes room first
    | Touch(key: string, hits: int, lastAccess: int)      // the statistics of a Get hit
    | Purge(keys: set<string>)                            // expired items found by Get or the cleanup
    | Remove(key: string)                                 // Delete
    | Bump(key: string, item: Item)                       // Increment

  ghost function Evicted(items: Items, op: Op): set<string> {
    if op.Put? && op.room.Some? then Gone(items, op.room.value) else {}
  }

  ghost function Apply(items: Items, op: Op): Items {
    match op
    case Put(key, item, _) => (items - Evicted(items, op))[key := item]
    case Touch(key, hits, lastAccess) =>
      if key in items then items[key := items[key].(hits := hits, lastAccess := lastAccess)] else items
    case Purge(keys) => items - keys
    case Remove(key) => items - {key}
    case Bump(key, item) => items[key := item]
  }

  // Set makes room exactly at capacity.
  ghost predicate Legal(maxItems: nat, items: Items, op: Op) {
    op.Put? ==>
      && (op.room.Some? <==> |items| >= maxItems)
      && (op.room.Some? ==> Evicts(maxItems, items, op.room.value))
  }

  ghost function Run(items: Items, ops: seq<Op>): Items
    decreases |ops|
  {
    if ops == [] then items else Run(Apply(items, ops[0]), ops[1..])
  }

  // ----- agreement with an unbounded TTL map ----------------------------------------------

  datatype Plain = Plain(value: string, expiration: int)

  type Ideal = map<string, Plain>

  // The unbounded map never evicts and keeps no statistics.
  function IdealApply(ideal: Ideal, op: Op): Ideal {
    match op
    case Put(key, item, _) => ideal[key := Plain(item.value, item.expiration)]
    case Remove(key) => ideal - {key}
    case _ => ideal
  }

  function IdealRun(ideal: Ideal, ops: seq<Op>): Ideal
    decreases |ops|
  {
    if ops == [] then ideal else IdealRun(IdealApply(ideal, ops[0]), ops[1..])
  }

  function IdealLookup(ideal: Ideal, key: string, now: int): Option<string> {
    if key in ideal && !(ideal[key].expiration > 0 && now > ideal[key].expiration)
    then Some(ideal[key].value) else None
  }

  ghost predicate AgreesOn(items: Items, ideal: Ideal, key: string) {
    key in items ==> key in ideal && ideal[key] == Plain(items[key].value, items[key].expiration)
  }

  lemma {:induction false} RunAgrees(items: Items, ideal: Ideal, ops: seq<Op>, key: string)
    requires AgreesOn(items, ideal, key)
    requires forall op :: op in ops && op.Bump? ==> op.key != key
    ensures AgreesOn(Run(items, ops), IdealRun(ideal, ops), key)
    decreases |ops|
  {
    if ops != [] {
      assert ops[0] in ops;
      RunAgrees(Apply(items, ops[0]), IdealApply(ideal, ops[0]), ops[1..], key);
    }
  }

  // Every hit on a key that was never incremented is what the unbounded map would return:
  // evictions only turn hits into misses.
  lemma HitsAreIdealHits(ops: seq<Op>, key: string, now: int)
    requires forall op :: op in ops && op.Bump? ==> op.key != key
    ensures var got := Lookup(Run(map[], ops), key, now);
      got.Some? ==> got == IdealLookup(IdealRun(map[], ops), key, now)
  {
    RunAgrees(map[], map[], ops, key);
  }

  // And as long as the key itself was not among the evicted or purged ones since it was last
  // written, a hit of the unbounded map is a hit.
  ghost predicate Spared(items: Items, op: Op, key: string) {
    && (op.Put? ==> key !in Evicted(items, op) || op.key == key)
    && (op.Purge? ==> key !in op.keys)
    && (op.Bump? ==> op.key != key)
  }

  ghost predicate SparedRun(items: Items, ops: seq<Op>, key: string)
    decreases |ops|
  {
    ops == [] || (Spared(items, ops[0], key) && SparedRun(Apply(items, ops[0]), ops[1..], key))
  }

  lemma {:induction false} SparedHits(items: Items, ideal: Ideal, ops: seq<Op>, key: string, now: int)
    requires AgreesOn(items, ideal, key) && (key in ideal ==> key in items)
    requires SparedRun(items, ops, key)
    ensures Lookup(Run(items, ops), key, now) == IdealLookup(IdealRun(ideal, ops), key, now)
    decreases |ops|
  {
    if ops != [] {
      SparedHits(Apply(items, ops[0]), IdealApply(ideal, ops[0]), ops[1..], key, now);
    }
  }

  // ----- size -----------------------------------------------------------------------------

  // Increments that insert a key.
  ghost function Inserts(items: Items, ops: seq<Op>): nat
    decreases |ops|
  {
    if ops == [] then 0
    else (if ops[0].Bump? && ops[0].key !in items then 1 else 0) + Inserts(Apply(items, ops[0]), ops[1..])
  }

  ghost predicate LegalRun(maxItems: nat, items: Items, ops: seq<Op>)
    decreases |ops|
  {
    ops == [] || (Legal(maxItems, items, ops[0]) && LegalRun(maxItems, Apply(items, ops[0]), ops[1..]))
  }

  lemma DifferenceSize<T>(s: set<T>, gone: set<T>)
    ensures |s - gone| <= |s|
    ensures gone <= s ==> |s - gone| == |s| - |gone|
  {
    assert s == (s - gone) + (s * gone);
    if gone <= s {
      assert s * gone == gone;
    }
  }

  lemma RemoveSize(items: Items, gone: set<string>)
    ensures |items - gone| <= |items|
    ensures gone <= items.Keys ==> |items - gone| == |items| - |gone|
  {
    DifferenceSize(items.Keys, gone);
    assert |items - gone| == |(items - gone).Keys|;
    assert (items - gone).Keys == items.Keys - gone;
  }

  lemma PutSize(items: Items, key: string, item: Item)
    ensures |items[key := item]| == |items| + if key in items then 0 else 1
  {
    assert items[key := item].Keys == items.Keys + {key};
  }

  lemma GoneIsStored(maxItems: nat, items: Items, c: Choice)
    requires Evicts(maxItems, items, c)
    ensures Gone(items, c) <= items.Keys
    ensures |items| >= maxItems > 0 && Gone(items, c) == {} ==> c.picked == Some("") && "" in items
  {
    var swept := ExpiredIn(items, c.met, c.now);
    if Gone(items, c) == {} {
      assert swept == {};
      assert items - swept == items;
    }
  }

  // Making room at capacity removes something whenever the empty key is not stored.
  lemma RoomIsMade(maxItems: nat, items: Items, c: Choice)
    requires Evicts(maxItems, items, c) && |items| >= maxItems > 0 && "" !in items
    ensures |items - Gone(items, c)| < |items|
  {
    GoneIsStored(maxItems, items, c);
    RemoveSize(items, Gone(items, c));
    assert |Gone(items, c)| > 0;
  }

  lemma PutRoom(maxItems: nat, items: Items, op: Op)
    requires maxItems > 0 && op.Put? && Legal(maxItems, items, op)
    ensures |Apply(items, op)| <= |items| + 1
    ensures |items| >= maxItems && "" !in items ==> |Apply(items, op)| <= |items|
  {
    hide Evicts, Gone;
    if op.room.Some? {
      GoneIsStored(maxItems, items, op.room.value);
      if "" !in items {
        RoomIsMade(maxItems, items, op.room.value);
      }
    }
    RemoveSize(items, Evicted(items, op));
    PutSize(items - Evicted(items, op), op.key, op.item);
  }

  lemma {:induction false} SizeBound(maxItems: nat, items: Items, extra: nat, ops: seq<Op>)
    requires maxItems > 0 && LegalRun(maxItems, items, ops)
    requires |items| <= maxItems + extra && "" !in items
    requires forall op :: op in ops ==> (op.Put? || op.Bump? ==> op.key != "")
    ensures |Run(items, ops)| <= maxItems + extra + Inserts(items, ops)
    decreases |ops|
  {
    if ops != [] {
      var op, rest := ops[0], ops[1..];
      assert op in ops;
      match op {
        case Put(key, item, _) => PutRoom(maxItems, items, op);
        case Touch(key, h, l) =>
          if key in items {
            PutSize(items, key, items[key].(hits := h, lastAccess := l));
          }
        case Purge(keys) => RemoveSize(items, keys);
        case Remove(key) => RemoveSize(items, {key});
        case Bump(key, item) => PutSize(items, key, item);
      }
      var extra' := extra + if op.Bump? && op.key !in items then 1 else 0;
      hide Legal, Evicted;
      SizeBound(maxItems, Apply(items, op), extra', rest);
    }
  }

  // Over every run with non-empty keys the size exceeds the capacity at most by the number of
  // increments that inserted a key.
  lemma CapacityBound(maxItems: nat, ops: seq<Op>)
    requires maxItems > 0 && LegalRun(maxItems, map[], ops)
    requires forall op :: op in ops ==> (op.Put? || op.Bump? ==> op.key != "")
    ensures |Run(map[], ops)| <= maxItems + Inserts(map[], ops)
  {
    SizeBound(maxItems, map[], 0, ops);
  }

  // ----- exactly when the capacity is exceeded --------------------------------------------

  // An absent key is incremented at capacity, or set at capacity while nothing met is expired
  // and the victim picked is the empty key.
  ghost predicate Overflows(maxItems: nat, items: Items, op: Op) {
    |items| == maxItems &&
    match op
    case Bump(key, _) => key !in items
    case Put(key, _, room) =>
      && key !in items && room.Some? && room.value.picked == Some("")
      && forall k :: k in room.value.met && k in items ==> !Expired(items[k], room.value.now)
    case _ => false
  }

  lemma OverflowsIff(maxItems: nat, items: Items, op: Op)
    requires maxItems > 0 && |items| <= maxItems && Legal(maxItems, items, op)
    ensures |Apply(items, op)| > maxItems <==> Overflows(maxItems, items, op)
  {
    match op {
      case Put(key, item, room) =>
        var gone := Evicted(items, op);
        if room.Some? {
          GoneIsStored(maxItems, items, room.value);
        }
        RemoveSize(items, gone);
        PutSize(items - gone, key, item);
        assert gone == {} ==> items - gone == items;
        assert gone != {} ==> |gone| > 0;
        assert gone != {} ==> exists k :: k in gone;
      case Touch(key, h, l) =>
        if key in items {
          PutSize(items, key, items[key].(hits := h, lastAccess := l));
        }
      case Purge(keys) => RemoveSize(items, keys);
      case Remove(key) => RemoveSize(items, {key});
      case Bump(key, item) => PutSize(items, key, item);
    }
  }

  ghost predicate NeverOverflows(maxItems: nat, items: Items, ops: seq<Op>)
    decreases |ops|
  {
    ops == [] || (!Overflows(maxItems, items, ops[0]) && NeverOverflows(maxItems, Apply(items, ops[0]), ops[1..]))
  }

  // Over every run, the size stays within the capacity all along exactly when no operation of
  // the run is one of those.
  lemma {:induction false} StaysWithinIff(maxItems: nat, items: Items, ops: seq<Op>)
    requires maxItems > 0 && |items| <= maxItems && LegalRun(maxItems, items, ops)
    ensures NeverOverflows(maxItems, items, ops) <==>
      forall k :: 0 <= k <= |ops| ==> |Run(items, ops[..k])| <= maxItems
    decreases |ops|
  {
    if ops != [] {
      var items' := Apply(items, ops[0]);
      OverflowsIff(maxItems, items, ops[0]);
      hide Legal, Overflows;
      RunFront(items, ops);
      if |items'| <= maxItems {
        StaysWithinIff(maxItems, items', ops[1..]);
        forall k | 0 < k <= |ops| ensures Run(items, ops[..k]) == Run(items', ops[1..][..k - 1]) {
          assert ops[..k][1..] == ops[1..][..k - 1];
        }
        forall k | 0 <= k <= |ops[1..]| ensures Run(items', ops[1..][..k]) == Run(items, ops[..k + 1]) {
          assert ops[..k + 1][1..] == ops[1..][..k];
        }
      }
    } else {
      assert ops[..0] == [];
    }
  }

  lemma RunFront(items: Items, ops: seq<Op>)
    requires ops != []
    ensures Run(items, ops[..1]) == Apply(items, ops[0]) && Run(items, ops[..0]) == items
  {
    assert ops[..1][1..] == [];
  }

  ghost function Unexpired(items: Items, now: int): set<string> {
    set k | k in items && !Expired(items[k], now)
  }

  // The items used no less than the one with the empty key.
  ghost function NoLessUsed(items: Items): set<string>
    requires "" in items
  {
    set k | k in items && NoBetter(items[""], items[k])
  }

  function AtMost(size: nat, n: nat): nat {
    if n < size then n else size
  }

  // The empty key is stored, the sweep may meet unexpired items only, and the second sample may
  // hold the empty key among items that are used no less.
  ghost predicate MayMakeNoRoom(items: Items, now: int) {
    && "" in items
    && |Unexpired(items, now)| >= AtMost(SWEEP_SAMPLE, |items|)
    && |NoLessUsed(items)| >= AtMost(LFU_SAMPLE, |items|)
  }

  lemma ChooseNoRoom(maxItems: nat, items: Items, key: string, item: Item, now: int) returns (c: Choice)
    requires 0 < |items| == maxItems && key !in items && MayMakeNoRoom(items, now)
    ensures c.now == now && Evicts(maxItems, items, c) && Overflows(maxItems, items, Put(key, item, Some(c)))
  {
    var met := SubsetOfSize(Unexpired(items, now), AtMost(SWEEP_SAMPLE, |items|));
    var others := SubsetOfSize(NoLessUsed(items) - {""}, AtMost(LFU_SAMPLE, |items|) - 1);
    c := Choice(now, met, others + {""}, Some(""));
    assert ExpiredIn(items, met, now) == {};
    assert items - {} == items;
    assert IsVictim(items, c.sample, "");
    hide IsVictim, Unexpired, NoLessUsed, ExpiredIn;
  }

  lemma NoRoomNeeds(maxItems: nat, items: Items, key: string, item: Item, c: Choice)
    requires 0 < |items| == maxItems && key !in items
    requires Evicts(maxItems, items, c) && Overflows(maxItems, items, Put(key, item, Some(c)))
    ensures MayMakeNoRoom(items, c.now)
  {
    assert ExpiredIn(items, c.met, c.now) == {};
    assert items - {} == items;
    SubsetSize(c.met, Unexpired(items, c.now));
    SubsetSize(c.sample, NoLessUsed(items));
  }

  // Before the call: exactly then may setting an absent key at capacity exceed it.
  lemma SetMayOverflowIff(maxItems: nat, items: Items, key: string, item: Item, now: int)
    requires 0 < |items| == maxItems && key !in items
    ensures (exists c: Choice :: c.now == now && Evicts(maxItems, items, c)
                                 && Overflows(maxItems, items, Put(key, item, Some(c))))
      <==> MayMakeNoRoom(items, now)
  {
    hide *;
    if MayMakeNoRoom(items, now) {
      var c := ChooseNoRoom(maxItems, items, key, item, now);
    }
    forall c: Choice | c.now == now && Evicts(maxItems, items, c) && Overflows(maxItems, items, Put(key, item, Some(c)))
      ensures MayMakeNoRoom(items, now)
    {
      NoRoomNeeds(maxItems, items, key, item, c);
    }
  }

  lemma {:induction false} SubsetOfSize<T>(s: set<T>, n: nat) returns (part: set<T>)
    requires n <= |s|
    ensures part <= s && |part| == n
  {
    if n == 0 {
      part := {};
    } else {
      var x :| x in s;
      part := SubsetOfSize(s - {x}, n - 1);
      part := part + {x};
    }
  }

  lemma SubsetSize<T>(a: set<T>, b: set<T>)
    requires a <= b
    ensures |a| <= |b|
  {
    assert b == a + (b - a);
  }

  // Whatever the cache holds and whatever is met or picked, an unexpired empty key stays.
  lemma EmptyKeyIsNotEvicted(maxItems: nat, items: Items, c: Choice)
    requires Evicts(maxItems, items, c) && "" in items && !Expired(items[""], c.now)
    ensures "" !in Gone(items, c)
    ensures c.picked == Some("") ==> Gone(items, c) == ExpiredIn(items, c.met, c.now)
  {
  }

  // ----- the loops of Set -----------------------------------------------------------------

  // Removes exactly the expired ones among the first fifty items met in map order.
  method SweepSample(items: Items, now: int) returns (kept: Items, ghost met: set<string>)
    ensures IsSample(items, met, SWEEP_SAMPLE)
    ensures kept == items - ExpiredIn(items, met, now)
  {
    kept := items;
    met := {};
    var rest := items.Keys;
    var scanned := 0;
    while rest != {} && scanned < SWEEP_SAMPLE
      invariant met <= items.Keys && rest == items.Keys - met
      invariant |met| == scanned <= SWEEP_SAMPLE
      invariant kept == items - ExpiredIn(items, met, now)
      decreases rest
    {
      var k :| k in rest;
      rest := rest - {k};
      scanned := scanned + 1;
      met := met + {k};
      if Expired(items[k], now) {
        kept := kept - {k};
      }
    }
    assert items.Keys == rest + met;
  }

  method PickVictim(items: Items) returns (best: string, ghost sample: set<string>)
    requires |items| > 0
    ensures IsVictim(items, sample, best)
    ensures best in items && (|items| <= LFU_SAMPLE ==> forall k :: k in items ==> NoBetter(items[best], items[k]))
  {
    assert items.Keys != {};
    var rest := items.Keys;
    best :| best in rest;
    rest := rest - {best};
    sample := {best};
    var count := 1;
    while rest != {} && count < LFU_SAMPLE
      invariant rest == items.Keys - sample && sample <= items.Keys
      invariant |sample| == count <= LFU_SAMPLE && best in sample
      invariant forall k :: k in sample ==> NoBetter(items[best], items[k])
      decreases rest
    {
      var k :| k in rest;
      rest := rest - {k};
      sample := sample + {k};
      count := count + 1;
      var item, bestItem := items[k], items[best];
      if item.hits < bestItem.hits || (item.hits == bestItem.hits && item.lastAccess < bestItem.lastAccess) {
        best := k;
      }
    }
    assert items.Keys == rest + sample;
    if |items| <= LFU_SAMPLE {
      assert |items.Keys| == |rest| + |sample|;
    }
  }

  method MakeRoom(items: Items, maxItems: nat, now: int) returns (kept: Items, ghost c: Choice)
    ensures Evicts(maxItems, items, c) && c.now == now
    ensures kept == items - Gone(items, c)
    ensures forall k :: k in kept ==> k in items && kept[k] == items[k]
  {
    hide ExpiredIn, IsSample, IsVictim;
    ghost var met;
    kept, met := SweepSample(items, now);
    ghost var swept := ExpiredIn(items, met, now);
    if |kept| >= maxItems && |kept| > 0 {
      var best;
      ghost var sample;
      best, sample := PickVictim(kept);
      c := Choice(now, met, sample, Some(best));
      if best != "" {
        RemoveTwice(items, swept, {best});
        kept := kept - {best};
      }
    } else {
      c := Choice(now, met, {}, None);
    }
  }

  lemma RemoveTwice(items: Items, a: set<string>, b: set<string>)
    ensures items - a - b == items - (a + b)
  {
  }

  // ----- the adapter ----------------------------------------------------------------------

  datatype Reply = Done | KeyTooLong | MarshalError | ValueTooLarge | NotAnInteger

  const TWO_63 := 0x8000_0000_0000_0000

  // int64 addition.
  function Wrap64(n: int): int {
    (n + TWO_63) % (2 * TWO_63) - TWO_63
  }

  // The 64-bit number that differs by a multiple of 2^64.
  lemma WrapsAround(n: int)
    ensures -TWO_63 <= Wrap64(n) < TWO_63 && (n - Wrap64(n)) % (2 * TWO_63) == 0
    ensures -TWO_63 <= n < TWO_63 ==> Wrap64(n) == n
  {
    var m := n + TWO_63;
    assert n - Wrap64(n) == m - m % (2 * TWO_63) == m / (2 * TWO_63) * (2 * TWO_63);
  }

  ghost predicate OthersStay(before: Items, after: Items, key: string) {
    forall k :: k != key ==> (k in after <==> k in before) && (k in before ==> after[k] == before[k])
  }

  class MemoryAdapter {
    const maxItems: nat
    const maxValueBytes: nat
    const parse: string -> Option<int>  // strconv.ParseInt
    const format: int -> string         // strconv.FormatInt
    var items: Items

    constructor (maxItems: int, maxValueBytes: int, parse: string -> Option<int>, format: int -> string)
      ensures items == map[]
      ensures this.maxItems == (if maxItems > 0 then maxItems else 10000) > 0
    {
      this.maxItems := if maxItems > 0 then maxItems else 10000;
      this.maxValueBytes := if maxValueBytes > 0 then maxValueBytes else 1048576;
      this.parse, this.format := parse, format;
      items := map[];
    }

    // json is the marshalled value, None when marshalling fails.  The ghost result says what
    // was evicted on the way.
    method Set(key: string, json: Option<string>, ttl: int, now: int) returns (r: Reply, ghost op: Op)
      requires maxItems > 0
      modifies this
      ensures r == Done <==> |key| <= MAX_KEY_LENGTH && json.Some? && |json.value| <= maxValueBytes
      ensures r != Done ==> items == old(items)
      ensures r == Done ==>
        && op.Put? && op.key == key && op.item.value == json.value
        && op.item.expiration == (if ttl > 0 then now + ttl else 0) && op.item.lastAccess == now
        && op.item.hits == (if key in old(items) - Evicted(old(items), op) then old(items)[key].hits + 1 else 1)
        && (op.room.Some? ==> op.room.value.now == now)
        && items == Apply(old(items), op) && Legal(maxItems, old(items), op)
        && items[key] == op.item
        && forall k :: k != key ==> (k in items <==> k in old(items) && k !in Evicted(old(items), op))
                                    && (k in items ==> items[k] == old(items)[k])
    {
      op := Remove(key);
      if |key| > MAX_KEY_LENGTH {
        return KeyTooLong, op;
      }
      if json.None? {
        return MarshalError, op;
      }
      if |json.value| > maxValueBytes {
        return ValueTooLarge, op;
      }
      hide Evicts, Gone;
      ghost var room: Option<Choice> := None;
      ghost var gone: set<string> := {};
      if |items| >= maxItems {
        var kept;
        ghost var c;
        kept, c := MakeRoom(items, maxItems, now);
        room, gone := Some(c), Gone(items, c);
        items := kept;
      }
      assert items == old(items) - gone;
      var hits := if key in items then items[key].hits + 1 else 1;
      var item := Item(json.value, if ttl > 0 then now + ttl else 0, hits, now);
      op := Put(key, item, room);
      items := items[key := item];
      r := Done;
    }

    method Get(key: string, now: int) returns (r: Option<string>, ghost op: Op)
      modifies this
      ensures r == Lookup(old(items), key, now)
      ensures items == Apply(old(items), op) && Legal(maxItems, old(items), op)
      ensures op.Touch? || op == Purge({key})
      ensures op.Purge? ==> key in old(items) && Expired(old(items)[key], now)
      ensures OthersStay(old(items), items, key)
      ensures key in items <==> key in old(items) && !Expired(old(items)[key], now)
      ensures r.Some? ==> items[key].hits == old(items)[key].hits + 1 && items[key].lastAccess == now
    {
      op := Touch(key, 0, 0);
      if key !in items {
        return None, op;
      }
      if Expired(items[key], now) {
        items := items - {key};
        return None, Purge({key});
      }
      var item := items[key];
      op := Touch(key, item.hits + 1, now);
      items := items[key := item.(hits := item.hits + 1, lastAccess := now)];
      r := Some(item.value);
    }

    method Delete(key: string)
      modifies this
      ensures items == Apply(old(items), Remove(key))
      ensures key !in items && OthersStay(old(items), items, key)
    {
      items := items - {key};
    }

    method Exists(key: string, now: int) returns (r: bool)
      ensures r <==> Lookup(items, key, now).Some?
    {
      if key !in items {
        return false;
      }
      r := !Expired(items[key], now);
    }

    // Ignores the capacity; an expired counter restarts from zero and loses its expiry.
    method Increment(key: string, delta: int, now: int) returns (r: Reply, newVal: int)
      modifies this
      ensures var live := Lookup(old(items), key, now);
        && (r == NotAnInteger <==> live.Some? && parse(live.value).None?)
        && (r == NotAnInteger ==> items == old(items))
        && (r != NotAnInteger ==>
              && r == Done
              && newVal == Wrap64((if live.Some? then parse(live.value).value else 0) + delta)
              && key in items && items == Apply(old(items), Bump(key, items[key]))
              && OthersStay(old(items), items, key)
              && items[key].value == format(newVal) && items[key].lastAccess == now
              && items[key].hits == (if key in old(items) then old(items)[key].hits + 1 else 1)
              && items[key].expiration == (if live.Some? then old(items)[key].expiration else 0))
    {
      var currentVal, exp := 0, 0;
      if key in items && !Expired(items[key], now) {
        var parsed := parse(items[key].value);
        if parsed.None? {
          return NotAnInteger, 0;
        }
        currentVal, exp := parsed.value, items[key].expiration;
      }
      newVal := Wrap64(currentVal + delta);
      var hits := if key in items then items[key].hits + 1 else 1;
      items := items[key := Item(format(newVal), exp, hits, now)];
      r := Done;
    }

    method CleanupExpired(now: int)
      modifies this
      ensures items == Apply(old(items), Purge(set k | k in old(items) && Expired(old(items)[k], now)))
      ensures forall k :: k in items <==> k in old(items) && !Expired(old(items)[k], now)
      ensures forall k :: k in items ==> items[k] == old(items)[k]
    {
      ghost var was := items;
      var rest := items.Keys;
      while rest != {}
        invariant rest <= was.Keys
        invariant items == map k | k in was && (k in rest || !Expired(was[k], now)) :: was[k]
        decreases rest
      {
        var k :| k in rest;
        rest := rest - {k};
        if Expired(items[k], now) {
          items := items - {k};
        }
      }
    }
  }
}
