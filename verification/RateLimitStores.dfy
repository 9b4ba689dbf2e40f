/** The rate limiter's concrete stores (internal/gateway/middleware/ratelimit.go): the
    mutex-protected map with its janitor, the Lua script on a Redis hash, and the fallback
    store with its health flag and recovery probe.  The script counts microseconds. */
module RateLimitStores {
  import opened RateLimit
  import opened RateLimitWindow

  // ----- the in-process store -------------------------------------------------------------

  datatype ClientBucket = ClientBucket(tokens: real, lastRefill: real, lastSeen: real)

  class MemoryStore {
    var buckets: map<string, ClientBucket>

    ghost function Entries(): Store
      reads this
    {
      map k | k in buckets :: Entry(buckets[k].tokens, buckets[k].lastRefill, JANITOR_KEEP)
    }

    ghost predicate Valid()
      reads this
    {
      forall k :: k in buckets ==> buckets[k].lastRefill == buckets[k].lastSeen
    }

    constructor ()
      ensures Valid() && Entries() == map[]
    {
      buckets := map[];
    }

    method Allow(key: string, cfg: RateConfig, now: real) returns (ok: bool)
      requires Valid()
      modifies this
      ensures Valid()
      ensures ok == Allowed(old(Entries()), key, cfg, now)
      ensures Entries() == Next(MEMORY_KEEP, true, old(Entries()), Request(key, cfg, now))
    {
      EarnedGrows(0.0, 0.0, 0.0);
      var b := if key in buckets then buckets[key] else ClientBucket(cfg.burst, now, now);
      var elapsed := now - b.lastRefill;
      var tokens := b.tokens + Earned(elapsed, cfg.rate);
      if tokens > cfg.burst {
        tokens := cfg.burst;
      }
      ok := tokens >= 1.0;
      if ok {
        tokens := tokens - 1.0;
      }
      buckets := buckets[key := ClientBucket(tokens, now, now)];
    }

    // One tick: every bucket not seen for more than five minutes goes.
    method Janitor(now: real)
      requires Valid()
      modifies this
      ensures Valid()
      ensures Entries() == Next(MEMORY_KEEP, true, old(Entries()),
                Forget((set k | k in old(buckets) && old(buckets)[k].lastSeen < now - JANITOR_KEEP), now))
    {
      var cutoff := now - JANITOR_KEEP;
      var rest := buckets.Keys;
      ghost var was := buckets;
      while rest != {}
        invariant rest <= was.Keys
        invariant buckets == map k | k in was && (k in rest || was[k].lastSeen >= cutoff) :: was[k]
        decreases rest
      {
        var k :| k in rest;
        rest := rest - {k};
        if buckets[k].lastSeen < cutoff {
          buckets := buckets - {k};
        }
      }
    }
  }

  // ----- the script on Redis --------------------------------------------------------------

  // tok and ref are the hash fields, ttl the seconds the key lives on after being written.
  datatype Hash = Hash(tok: real, ref: int, ttl: int)

  function Seconds(us: int): real {
    us as real / 1000000.0
  }

  function Lifetime(cfg: RateConfig, converted: int): int {
    if cfg.rate == 0.0 then converted + 60 else Ttl(cfg)
  }

  class RedisStore {
    var hashes: map<string, Hash>

    ghost function Entries(): Store
      reads this
    {
      map k | k in hashes :: Entry(hashes[k].tok, Seconds(hashes[k].ref), hashes[k].ttl as real)
    }

    constructor ()
      ensures Entries() == map[]
    {
      hashes := map[];
    }

    method TokenBucketScript(key: string, rate: real, burst: real, nowUs: int, ttl: int)
      returns (allowed: int)
      modifies this
      ensures var cfg := RateConfig(rate, burst);
        && allowed == (if Allowed(old(Entries()), key, cfg, Seconds(nowUs)) then 1 else 0)
        && Entries() == Charged(old(Entries()), key, cfg, Seconds(nowUs), ttl as real)
    {
      EarnedGrows(0.0, 0.0, 0.0);
      var tokens, ref := burst, nowUs;
      if key in hashes {
        tokens, ref := hashes[key].tok, hashes[key].ref;
      }
      var elapsed := (nowUs - ref) as real / 1000000.0;
      assert elapsed == Seconds(nowUs) - Seconds(ref);
      tokens := Min(burst, tokens + Earned(elapsed, rate));
      allowed := 0;
      if tokens >= 1.0 {
        tokens := tokens - 1.0;
        allowed := 1;
      }
      hashes := hashes[key := Hash(tokens, nowUs, ttl)];
    }

    // converted: the integer the platform makes of a quotient by zero.
    method AllowE(key: string, cfg: RateConfig, nowUs: int, converted: int) returns (ok: bool)
      modifies this
      ensures ok == Allowed(old(Entries()), key, cfg, Seconds(nowUs))
      ensures Entries() == Charged(old(Entries()), key, cfg, Seconds(nowUs), Lifetime(cfg, converted) as real)
      ensures cfg.rate > 0.0 && cfg.burst >= 0.0 ==>
        Entries() == Next(REDIS_KEEP, true, old(Entries()), Request(key, cfg, Seconds(nowUs)))
    {
      var quotient := converted;
      if cfg.rate != 0.0 {
        quotient := Ceil(cfg.burst / cfg.rate);
      }
      var ttl := quotient + 60;
      var result := TokenBucketScript(key, cfg.rate, cfg.burst, nowUs, ttl);
      ok := result == 1;
    }

    // Redis drops expired keys at a time of its choosing.
    method Expire(keys: set<string>, nowUs: int)
      modifies this
      ensures Entries() == Next(REDIS_KEEP, true, old(Entries()), Forget(keys, Seconds(nowUs)))
    {
      hashes := map k | k in hashes
        && !(k in keys && Seconds(nowUs) >= Seconds(hashes[k].ref) + hashes[k].ttl as real) :: hashes[k];
    }
  }

  // ----- the fallback store ---------------------------------------------------------------

  // What Redis does with a request; a lost reply may or may not have charged the bucket.
  datatype Reply = Replied | FailedBefore | FailedAfter

  datatype FOp =
    | Serve(key: string, cfg: RateConfig, now: real, reply: Reply)
    | Sweep(keys: set<string>, now: real)   // the janitor of the memory store
    | Expire(keys: set<string>, now: real)  // key expiry in Redis
    | Probe(ok: bool, now: real)

  const RECOVERY_THRESHOLD := 3

  datatype Fallback = Fallback(redis: Store, mem: Store, healthy: bool, consecOK: nat)

  function Down(s: Fallback): Fallback {
    if s.healthy then s.(healthy := false, consecOK := 0) else s
  }

  function Probed(s: Fallback, ok: bool): Fallback {
    if !ok then s.(consecOK := 0)
    else
      var s' := s.(consecOK := s.consecOK + 1);
      if s'.consecOK >= RECOVERY_THRESHOLD && !s'.healthy then s'.(healthy := true) else s'
  }

  predicate UsesRedis(s: Fallback, op: FOp) {
    op.Serve? && s.healthy && op.reply != FailedBefore
  }

  predicate UsesMemory(s: Fallback, op: FOp) {
    op.Serve? && !(s.healthy && op.reply == Replied)
  }

  datatype Which = Redis | Memory

  function Part(w: Which, s: Fallback): Store {
    if w.Redis? then s.redis else s.mem
  }

  function Keep(w: Which): RateConfig -> real {
    if w.Redis? then REDIS_KEEP else MEMORY_KEEP
  }

  // What an operation is to one of the two stores: at most one operation on its buckets.
  function Sees(w: Which, s: Fallback, op: FOp): seq<Op> {
    if (if w.Redis? then UsesRedis(s, op) else UsesMemory(s, op)) then [Request(op.key, op.cfg, op.now)]
    else if (if w.Redis? then op.Expire? else op.Sweep?) then [Forget(op.keys, op.now)]
    else []
  }

  function FNext(s: Fallback, op: FOp): Fallback {
    var s' := s.(redis := Run(REDIS_KEEP, true, s.redis, Sees(Redis, s, op)),
                 mem := Run(MEMORY_KEEP, true, s.mem, Sees(Memory, s, op)));
    match op
    case Serve(_, _, _, reply) => if reply == Replied then s' else Down(s')
    case Probe(ok, _) => Probed(s', ok)
    case _ => s'
  }

  // The answer given to a request: the memory store's once Redis is left.
  predicate FAllowed(s: Fallback, op: FOp)
    requires op.Serve?
  {
    Allowed(if UsesMemory(s, op) then s.mem else s.redis, op.key, op.cfg, op.now)
  }

  function FRun(s: Fallback, ops: seq<FOp>): Fallback
    decreases |ops|
  {
    if ops == [] then s else FRun(FNext(s, ops[0]), ops[1..])
  }

  function FGrant(s: Fallback, key: string, op: FOp): nat {
    if op.Serve? && op.key == key && FAllowed(s, op) then 1 else 0
  }

  function FGranted(s: Fallback, key: string, ops: seq<FOp>): nat
    decreases |ops|
  {
    if ops == [] then 0 else FGrant(s, key, ops[0]) + FGranted(FNext(s, ops[0]), key, ops[1..])
  }

  ghost predicate FTimed(clock: real, ops: seq<FOp>) {
    && (ops != [] ==> clock <= ops[0].now)
    && forall i :: 0 < i < |ops| ==> ops[i - 1].now <= ops[i].now
  }

  function FEnd(clock: real, ops: seq<FOp>): real {
    if ops == [] then clock else ops[|ops| - 1].now
  }

  function FSpan(ops: seq<FOp>): real {
    if ops == [] then 0.0 else ops[|ops| - 1].now - ops[0].now
  }

  // ----- the runs of the two stores -------------------------------------------------------

  // The operations that reach one of the stores along a run.
  function Seen(w: Which, s: Fallback, ops: seq<FOp>): seq<Op>
    decreases |ops|
  {
    if ops == [] then [] else Sees(w, s, ops[0]) + Seen(w, FNext(s, ops[0]), ops[1..])
  }

  lemma RunStep(keepFor: RateConfig -> real, s: Store, key: string, first: seq<Op>, rest: seq<Op>)
    requires |first| <= 1
    ensures Run(keepFor, true, s, first + rest) == Run(keepFor, true, Run(keepFor, true, s, first), rest)
    ensures Granted(keepFor, s, key, first + rest)
         == Granted(keepFor, s, key, first) + Granted(keepFor, Run(keepFor, true, s, first), key, rest)
  {
    if first == [] {
      assert first + rest == rest;
    } else {
      assert (first + rest)[1..] == rest;
    }
  }

  // Each of the two stores runs on the operations that reach it.
  lemma {:induction false} PartRuns(w: Which, s: Fallback, ops: seq<FOp>)
    ensures Part(w, FRun(s, ops)) == Run(Keep(w), true, Part(w, s), Seen(w, s, ops))
    decreases |ops|
  {
    if ops != [] {
      var s' := FNext(s, ops[0]);
      assert Part(w, s') == Run(Keep(w), true, Part(w, s), Sees(w, s, ops[0]));
      RunStep(Keep(w), Part(w, s), "", Sees(w, s, ops[0]), Seen(w, s', ops[1..]));
      hide FNext, Sees, Run, Keep, Part;
      PartRuns(w, s', ops[1..]);
    }
  }

  lemma GrantSplits(s: Fallback, key: string, op: FOp)
    ensures FGrant(s, key, op) <= Granted(REDIS_KEEP, s.redis, key, Sees(Redis, s, op))
                                 + Granted(MEMORY_KEEP, s.mem, key, Sees(Memory, s, op))
  {
    hide Allowed, Next;
  }

  // What the fallback store grants, one of the two has granted.
  lemma {:induction false} GrantsSplit(s: Fallback, key: string, ops: seq<FOp>)
    ensures FGranted(s, key, ops) <= Granted(REDIS_KEEP, s.redis, key, Seen(Redis, s, ops))
                                    + Granted(MEMORY_KEEP, s.mem, key, Seen(Memory, s, ops))
    decreases |ops|
  {
    if ops != [] {
      var op, s', rest := ops[0], FNext(s, ops[0]), ops[1..];
      assert s'.redis == Run(REDIS_KEEP, true, s.redis, Sees(Redis, s, op));
      assert s'.mem == Run(MEMORY_KEEP, true, s.mem, Sees(Memory, s, op));
      RunStep(REDIS_KEEP, s.redis, key, Sees(Redis, s, op), Seen(Redis, s', rest));
      RunStep(MEMORY_KEEP, s.mem, key, Sees(Memory, s, op), Seen(Memory, s', rest));
      GrantSplits(s, key, op);
      hide FNext, Sees, Run, Granted, FGrant;
      GrantsSplit(s', key, rest);
    }
  }

  // A store sees the requests in order, within the time of the whole run, each with the key
  // and the configuration it came with.
  ghost predicate Comes(op: Op, ops: seq<FOp>) {
    op.Request? ==> exists f :: f in ops && f.Serve? && f.key == op.key && f.cfg == op.cfg
  }

  ghost predicate SeenWell(seen: seq<Op>, clock: real, ops: seq<FOp>) {
    && Timed(if ops == [] then clock else ops[0].now, seen)
    && End(clock, seen) <= FEnd(clock, ops)
    && forall op :: op in seen ==> Comes(op, ops)
  }

  lemma {:induction false} SeenInOrder(w: Which, s: Fallback, clock: real, ops: seq<FOp>)
    requires FTimed(clock, ops)
    ensures SeenWell(Seen(w, s, ops), clock, ops)
    decreases |ops|
  {
    if ops != [] {
      var op, s', rest := ops[0], FNext(s, ops[0]), ops[1..];
      FTimedTail(clock, ops);
      SeenInOrder(w, s', op.now, rest);
      SeenOneMore(clock, op, Sees(w, s, op), Seen(w, s', rest), rest);
      assert [op] + rest == ops;
    }
  }

  lemma SeenOneMore(clock: real, op: FOp, first: seq<Op>, seen: seq<Op>, rest: seq<FOp>)
    requires |first| <= 1 && (first != [] ==> first[0].now == op.now && Comes(first[0], [op]))
    requires clock <= op.now && FTimed(op.now, rest) && SeenWell(seen, op.now, rest)
    ensures SeenWell(first + seen, clock, [op] + rest)
  {
    var all, ops := first + seen, [op] + rest;
    forall i | 0 < i < |all| ensures all[i - 1].now <= all[i].now {
      if first == [] {
        assert all == seen;
      } else if i > 1 {
        assert seen[i - 2].now <= seen[i - 1].now;
      }
    }
    forall o | o in all ensures Comes(o, ops) {
      if o in seen {
        assert Comes(o, rest);
      } else {
        assert Comes(o, [op]);
      }
    }
    FEndIsLatest(op.now, rest);
  }

  lemma {:induction false} FEndIsLatest(clock: real, ops: seq<FOp>)
    requires FTimed(clock, ops)
    ensures clock <= FEnd(clock, ops) && FSpan(ops) >= 0.0
    decreases |ops|
  {
    if ops != [] {
      FTimedTail(clock, ops);
      FEndIsLatest(ops[0].now, ops[1..]);
    }
  }

  lemma FTimedTail(clock: real, ops: seq<FOp>)
    requires FTimed(clock, ops) && ops != []
    ensures FTimed(ops[0].now, ops[1..])
  {
    forall i | 0 < i < |ops[1..]| ensures ops[1..][i - 1].now <= ops[1..][i].now {
      assert ops[1..][i] == ops[i + 1] && ops[1..][i - 1] == ops[i];
    }
  }

  // ----- how much a window lets through ---------------------------------------------------

  const START := Fallback(map[], map[], true, 0)

  function FBound(top: RateConfig, window: seq<FOp>): real {
    top.burst + Earned(FSpan(window), top.rate)
  }

  function FSweeps(window: seq<FOp>): int {
    1 + (FSpan(window) / JANITOR_KEEP).Floor
  }

  ghost predicate FUses(key: string, allowed: iset<RateConfig>, ops: seq<FOp>) {
    forall op :: op in ops && op.Serve? && op.key == key ==> op.cfg in allowed
  }

  ghost predicate SeenUses(key: string, allowed: iset<RateConfig>, ops: seq<Op>) {
    forall op :: op in ops && op.Request? && op.key == key ==> op.cfg in allowed
  }

  // One of the stores in a window that follows a run.
  lemma StoreWindow(w: Which, key: string, allowed: iset<RateConfig>, clock: real, before: seq<FOp>, window: seq<FOp>)
    returns (past: seq<Op>, now: seq<Op>)
    requires FTimed(clock, before) && FTimed(FEnd(clock, before), window)
    requires FUses(key, allowed, before + window)
    ensures past == Seen(w, START, before) && now == Seen(w, FRun(START, before), window)
    ensures Part(w, FRun(START, before)) == Run(Keep(w), true, map[], past)
    ensures Timed(clock, past) && Timed(End(clock, past), now) && SeenUses(key, allowed, past + now)
    ensures 0.0 <= Span(now) <= FSpan(window)
  {
    past, now := Seen(w, START, before), Seen(w, FRun(START, before), window);
    var mid := FEnd(clock, before);
    PartRuns(w, START, before);
    SeenInOrder(w, START, clock, before);
    SeenInOrder(w, FRun(START, before), mid, window);
    FEndIsLatest(mid, window);
    SpanIsPositive(if window == [] then mid else window[0].now, now);
    assert Part(w, START) == map[];
    forall op | op in past + now && op.Request? && op.key == key ensures op.cfg in allowed {
      assert Comes(op, before) || Comes(op, window);
    }
    hide FRun, Run, Seen, Part, Keep, FUses;
  }

  lemma BoundsGrow(top: RateConfig, now: seq<Op>, window: seq<FOp>)
    requires SoundConfig(top) && 0.0 <= Span(now) <= FSpan(window)
    ensures Bound(top, now) <= FBound(top, window)
    ensures 1 <= Sweeps(now) <= FSweeps(window)
    ensures Scaled(Sweeps(now), top.burst) <= Scaled(FSweeps(window), top.burst)
  {
    EarnedGrows(Span(now), FSpan(window), top.rate);
    assert Span(now) / JANITOR_KEEP <= FSpan(window) / JANITOR_KEEP;
    ScaledGrows(Sweeps(now), FSweeps(window), top.burst);
  }

  // Times the fallback store's two buckets for the key are dropped before they were full.
  ghost function FEarlyDrops(s: Fallback, key: string, top: RateConfig, ops: seq<FOp>): nat {
    EarlyDrops(REDIS_KEEP, s.redis, key, top, Seen(Redis, s, ops))
    + EarlyDrops(MEMORY_KEEP, s.mem, key, top, Seen(Memory, s, ops))
  }

  lemma {:induction false} ScaledAdds(m: nat, n: nat, x: real)
    ensures Scaled(m, x) + Scaled(n, x) == Scaled(m + n, x)
  {
    if m > 0 {
      ScaledAdds(m - 1, n, x);
    }
  }

  ghost function AllBelow(top: RateConfig): iset<RateConfig> {
    iset c | Below(c, top)
  }

  ghost function AllWithin(top: RateConfig): iset<RateConfig> {
    iset c | Within(REDIS_KEEP, c, top) && Within(MEMORY_KEEP, c, top)
  }

  lemma SeenBelow(key: string, top: RateConfig, ops: seq<Op>)
    requires SeenUses(key, AllBelow(top), ops)
    ensures forall op :: op in ops ==> UsesBelow(key, top, op)
  {
    forall op | op in ops ensures UsesBelow(key, top, op) {
      assert op.Request? && op.key == key ==> op.cfg in AllBelow(top);
    }
  }

  // However often the store flips between Redis and memory, whatever expires or is swept, and
  // whether or not a failed call had charged Redis: wherever a run stands when it begins, a
  // window grants at most twice the bound of one bucket of the top configuration, and another
  // burst for every bucket dropped before it was full.
  lemma FallbackWindowBound(key: string, top: RateConfig, clock: real, before: seq<FOp>, window: seq<FOp>)
    requires SoundConfig(top) && FTimed(clock, before) && FTimed(FEnd(clock, before), window)
    requires FUses(key, AllBelow(top), before + window)
    ensures var s := FRun(START, before);
      FGranted(s, key, window) as real
      <= 2.0 * FBound(top, window) + Scaled(FEarlyDrops(s, key, top, window), top.burst)
  {
    var s := FRun(START, before);
    hide FRun, FGranted, Granted, EarlyDrops, Run, Scaled, Bound, FBound, Seen, FTimed, Timed, SeenUses, FUses;
    GrantsSplit(s, key, window);
    StoreBound(Redis, key, top, clock, before, window);
    StoreBound(Memory, key, top, clock, before, window);
    ScaledAdds(EarlyDrops(REDIS_KEEP, s.redis, key, top, Seen(Redis, s, window)),
               EarlyDrops(MEMORY_KEEP, s.mem, key, top, Seen(Memory, s, window)), top.burst);
  }

  lemma StoreBound(w: Which, key: string, top: RateConfig, clock: real, before: seq<FOp>, window: seq<FOp>)
    requires SoundConfig(top) && FTimed(clock, before) && FTimed(FEnd(clock, before), window)
    requires FUses(key, AllBelow(top), before + window)
    ensures var s, now := FRun(START, before), Seen(w, FRun(START, before), window);
      Granted(Keep(w), Part(w, s), key, now) as real
      <= FBound(top, window) + Scaled(EarlyDrops(Keep(w), Part(w, s), key, top, now), top.burst)
  {
    hide FRun, Granted, EarlyDrops, Run, Scaled, Bound, FBound, Seen, FTimed, Timed, SeenUses, FUses, Keep, Part;
    var past, now := StoreWindow(w, key, AllBelow(top), clock, before, window);
    SeenBelow(key, top, past + now);
    WindowBound(Keep(w), past, now, key, top, clock);
    BoundsGrow(top, now, window);
  }

  // With buckets kept until they are full, twice the bound is all.
  lemma FallbackKeptWindow(key: string, top: RateConfig, clock: real, before: seq<FOp>, window: seq<FOp>)
    requires SoundConfig(top) && FTimed(clock, before) && FTimed(FEnd(clock, before), window)
    requires FUses(key, AllWithin(top), before + window)
    ensures FGranted(FRun(START, before), key, window) as real <= 2.0 * FBound(top, window)
  {
    var s := FRun(START, before);
    hide FRun, FGranted, Granted, Run, Scaled, Bound, FBound, Seen, FTimed, Timed, SeenUses, FUses, Within;
    var past, now := StoreWindow(Redis, key, AllWithin(top), clock, before, window);
    var past', now' := StoreWindow(Memory, key, AllWithin(top), clock, before, window);
    GrantsSplit(s, key, window);
    SeenWithin(key, top, past + now);
    SeenWithin(key, top, past' + now');
    KeptWindow(REDIS_KEEP, past, now, key, top, clock);
    KeptWindow(MEMORY_KEEP, past', now', key, top, clock);
    BoundsGrow(top, now, window);
    BoundsGrow(top, now', window);
  }

  lemma SeenWithin(key: string, top: RateConfig, ops: seq<Op>)
    requires SeenUses(key, AllWithin(top), ops)
    ensures forall op :: op in ops ==> UsesWithin(REDIS_KEEP, key, top, op) && UsesWithin(MEMORY_KEEP, key, top, op)
  {
    hide Within;
    forall op | op in ops ensures UsesWithin(REDIS_KEEP, key, top, op) && UsesWithin(MEMORY_KEEP, key, top, op) {
      assert op.Request? && op.key == key ==> op.cfg in AllWithin(top);
    }
  }

  // A key with one configuration, whatever it is: Redis drops no bucket early, and the janitor
  // of the memory store at most one, and one more for every five minutes.
  lemma FallbackOneConfig(key: string, cfg: RateConfig, clock: real, before: seq<FOp>, window: seq<FOp>)
    requires cfg.rate > 0.0 && cfg.burst >= 0.0 && FTimed(clock, before) && FTimed(FEnd(clock, before), window)
    requires FUses(key, iset{cfg}, before + window)
    ensures FSweeps(window) >= 1
    ensures FGranted(FRun(START, before), key, window) as real
      <= 2.0 * FBound(cfg, window) + Scaled(FSweeps(window), cfg.burst)
  {
    var s := FRun(START, before);
    hide FRun, FGranted, Granted, Run, Scaled, Bound, FBound, Seen, FTimed, Timed, SeenUses, FUses, Sweeps, FSweeps;
    var past, now := StoreWindow(Redis, key, iset{cfg}, clock, before, window);
    var past', now' := StoreWindow(Memory, key, iset{cfg}, clock, before, window);
    GrantsSplit(s, key, window);
    SeenOnly(key, cfg, past + now);
    SeenOnly(key, cfg, past' + now');
    RedisWindow(past, now, key, cfg, clock);
    MemoryWindow(past', now', key, cfg, clock);
    BoundsGrow(cfg, now, window);
    BoundsGrow(cfg, now', window);
  }

  lemma SeenOnly(key: string, cfg: RateConfig, ops: seq<Op>)
    requires SeenUses(key, iset{cfg}, ops) && cfg.rate > 0.0 && cfg.burst >= 0.0
    ensures forall op :: op in ops && op.Request? && op.key == key ==> op.cfg == cfg
    ensures forall op :: op in ops ==> UsesBelow(key, cfg, op)
  {
  }

  // The per-IP key, whatever tier each request belongs to.
  lemma FallbackTierWindow(key: string, top: RateConfig, clock: real, before: seq<FOp>, window: seq<FOp>)
    requires top in {TIER_PUBLIC, TIER_AUTH, TIER_ADMIN} && FTimed(clock, before) && FTimed(FEnd(clock, before), window)
    requires forall op :: op in before + window && op.Serve? && op.key == key ==>
      op.cfg in {TIER_PUBLIC, TIER_AUTH, TIER_ADMIN} && op.cfg.rate <= top.rate
    ensures FGranted(FRun(START, before), key, window) as real <= 2.0 * FBound(top, window)
  {
    forall op | op in before + window && op.Serve? && op.key == key
      ensures Within(REDIS_KEEP, op.cfg, top) && Within(MEMORY_KEEP, op.cfg, top)
    {
      TiersAreWithin(op.cfg, top);
    }
    TiersAreWithin(top, top);
    hide Within, FGranted, FRun, FBound;
    FallbackKeptWindow(key, top, clock, before, window);
  }

  lemma RunOne(keepFor: RateConfig -> real, s: Store, op: Op)
    ensures Run(keepFor, true, s, []) == s && Run(keepFor, true, s, [op]) == Next(keepFor, true, s, op)
  {
    assert [op][1..] == [];
  }

  class FallbackStore {
    const primary: RedisStore
    const secondary: MemoryStore
    var healthy: bool
    var consecOK: nat

    ghost function State(): Fallback
      reads this, primary, secondary
    {
      Fallback(primary.Entries(), secondary.Entries(), healthy, consecOK)
    }

    ghost predicate Valid()
      reads this, secondary
    {
      secondary.Valid()
    }

    constructor ()
      ensures Valid() && fresh(primary) && fresh(secondary)
      ensures State() == Fallback(map[], map[], true, 0)
    {
      primary := new RedisStore();
      secondary := new MemoryStore();
      healthy, consecOK := true, 0;
    }

    method Allow(key: string, cfg: RateConfig, nowUs: int, reply: Reply, converted: int) returns (ok: bool)
      requires Valid()
      modifies this, primary, secondary
      ensures Valid()
      ensures var op := Serve(key, cfg, Seconds(nowUs), if old(healthy) then reply else Replied);
        && ok == FAllowed(old(State()), op)
        && State() == FNext(old(State()), op).(redis := primary.Entries())
        && primary.Entries() == (if UsesRedis(old(State()), op)
             then Charged(old(primary.Entries()), key, cfg, Seconds(nowUs), Lifetime(cfg, converted) as real)
             else old(primary.Entries()))
        && ((cfg.rate > 0.0 && cfg.burst >= 0.0) || !UsesRedis(old(State()), op) ==>
             State() == FNext(old(State()), op))
      ensures healthy == (old(healthy) && reply == Replied)
      ensures ok == Allowed(if healthy then old(primary.Entries()) else old(secondary.Entries()),
                            key, cfg, Seconds(nowUs))
    {
      ghost var request := Request(key, cfg, Seconds(nowUs));
      RunOne(REDIS_KEEP, primary.Entries(), request);
      RunOne(MEMORY_KEEP, secondary.Entries(), request);
      hide Charged, Run, Lifetime;
      if !healthy {
        ok := secondary.Allow(key, cfg, Seconds(nowUs));
        return;
      }
      if reply != FailedBefore {
        ok := primary.AllowE(key, cfg, nowUs, converted);
      }
      if reply != Replied {
        MarkUnhealthy();
        ok := secondary.Allow(key, cfg, Seconds(nowUs));
      }
    }

    method MarkUnhealthy()
      modifies this
      ensures State() == Down(old(State()))
    {
      if healthy {
        healthy := false;
        consecOK := 0;
      }
    }

    // One tick of the probe loop.
    method ProbeTick(pingOk: bool)
      modifies this
      ensures State() == Probed(old(State()), pingOk)
    {
      if !pingOk {
        consecOK := 0;
        return;
      }
      consecOK := consecOK + 1;
      if consecOK >= RECOVERY_THRESHOLD && !healthy {
        healthy := true;
      }
    }
  }
}
