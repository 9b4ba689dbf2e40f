/** When exactly the fallback store (internal/gateway/middleware/ratelimit.go) keeps its windows
    within twice the bound of one bucket. */
module RateLimitFallback {
  import opened RateLimit
  import opened RateLimitWindow
  import opened RateLimitStores
  import opened RateLimitExact

  // ----- two runs put together ------------------------------------------------------------

  // A request for Redis: whatever has failed before, three good probes bring it back.
  function ToRedis(op: Op): seq<FOp>
    requires op.Request?
  {
    var probe := Probe(true, op.now);
    [probe, probe, probe, Serve(op.key, op.cfg, op.now, Replied)]
  }

  // An operation for the memory store: requests reach it when the call to Redis fails.
  function ToMemory(op: Op): FOp {
    match op
    case Request(key, cfg, now) => Serve(key, cfg, now, FailedBefore)
    case Forget(keys, now) => Sweep(keys, now)
  }

  // A run of the fallback store in which Redis sees the one trace and the memory store the other.
  function Merged(a: seq<Op>, b: seq<Op>): seq<FOp>
    requires forall i :: 0 <= i < |a| ==> a[i].Request?
    decreases |a| + |b|
  {
    if a == [] && b == [] then []
    else if b == [] || (a != [] && a[0].now <= b[0].now) then ToRedis(a[0]) + Merged(a[1..], b)
    else [ToMemory(b[0])] + Merged(a, b[1..])
  }

  lemma {:induction false} FAppend(s: Fallback, key: string, a: seq<FOp>, b: seq<FOp>)
    ensures FGranted(s, key, a + b) == FGranted(s, key, a) + FGranted(FRun(s, a), key, b)
    decreases |a|
  {
    if a == [] {
      assert a + b == b;
    } else {
      assert (a + b)[1..] == a[1..] + b;
      FAppend(FNext(s, a[0]), key, a[1..], b);
    }
  }

  lemma FOne(s: Fallback, key: string, op: FOp)
    ensures FRun(s, [op]) == FNext(s, op) && FGranted(s, key, [op]) == FGrant(s, key, op)
  {
    assert [op][1..] == [];
  }

  lemma ToMemoryStep(s: Fallback, key: string, op: Op)
    ensures var s' := FNext(s, ToMemory(op));
      s'.redis == s.redis && s'.mem == Next(MEMORY_KEEP, true, s.mem, op)
    ensures FGrant(s, key, ToMemory(op)) == Grant(s.mem, key, op)
  {
    RunOne(MEMORY_KEEP, s.mem, op);
    RunOne(REDIS_KEEP, s.redis, op);
    hide Run, Charged, Forgotten;
  }

  lemma ProbesHeal(s: Fallback, key: string, now: real)
    ensures var probe := Probe(true, now);
      var s' := FRun(s, [probe, probe, probe]);
      s'.healthy && s'.redis == s.redis && s'.mem == s.mem && FGranted(s, key, [probe, probe, probe]) == 0
  {
    var probe := Probe(true, now);
    assert [probe, probe, probe][1..] == [probe, probe];
    assert [probe, probe][1..] == [probe];
    FOne(FNext(FNext(s, probe), probe), key, probe);
  }

  lemma ToRedisStep(s: Fallback, key: string, op: Op)
    requires op.Request?
    ensures var s' := FRun(s, ToRedis(op));
      s'.mem == s.mem && s'.redis == Next(REDIS_KEEP, true, s.redis, op)
    ensures FGranted(s, key, ToRedis(op)) == Grant(s.redis, key, op)
  {
    var probe, serve := Probe(true, op.now), Serve(op.key, op.cfg, op.now, Replied);
    var probes := [probe, probe, probe];
    ProbesHeal(s, key, op.now);
    assert ToRedis(op) == probes + [serve];
    FAppend(s, key, probes, [serve]);
    FRunAppend(s, probes, [serve]);
    FOne(FRun(s, probes), key, serve);
    RunOne(REDIS_KEEP, s.redis, op);
    RunOne(MEMORY_KEEP, s.mem, op);
    hide Run, FRun, FGranted, Charged;
  }

  lemma {:induction false} FRunAppend(s: Fallback, a: seq<FOp>, b: seq<FOp>)
    ensures FRun(s, a + b) == FRun(FRun(s, a), b)
    decreases |a|
  {
    if a == [] {
      assert a + b == b;
    } else {
      assert (a + b)[1..] == a[1..] + b;
      FRunAppend(FNext(s, a[0]), a[1..], b);
    }
  }

  lemma {:induction false} MergedGrants(s: Fallback, key: string, a: seq<Op>, b: seq<Op>)
    requires forall i :: 0 <= i < |a| ==> a[i].Request?
    ensures FGranted(s, key, Merged(a, b))
         == Granted(REDIS_KEEP, s.redis, key, a) + Granted(MEMORY_KEEP, s.mem, key, b)
    decreases |a| + |b|
  {
    if a == [] && b == [] {
    } else if b == [] || (a != [] && a[0].now <= b[0].now) {
      ToRedisStep(s, key, a[0]);
      FAppend(s, key, ToRedis(a[0]), Merged(a[1..], b));
      hide FRun, FGranted, FNext, FGrant, Next, Grant;
      MergedGrants(FRun(s, ToRedis(a[0])), key, a[1..], b);
    } else {
      ToMemoryStep(s, key, b[0]);
      FOne(s, key, ToMemory(b[0]));
      FAppend(s, key, [ToMemory(b[0])], Merged(a, b[1..]));
      hide FRun, FGranted, FNext, FGrant, Next, Grant;
      MergedGrants(FNext(s, ToMemory(b[0])), key, a, b[1..]);
    }
  }

  // In order, within the time of both, and with their configurations.
  ghost predicate Fits(clock: real, end: real, cfg: RateConfig, ops: seq<FOp>) {
    && FTimed(clock, ops)
    && forall i :: 0 <= i < |ops| ==> ops[i].now <= end && (ops[i].Serve? ==> ops[i].cfg == cfg)
  }

  lemma FitsMore(clock: real, now: real, end: real, cfg: RateConfig, first: seq<FOp>, rest: seq<FOp>)
    requires clock <= now <= end && Fits(now, end, cfg, rest)
    requires forall i :: 0 <= i < |first| ==> first[i].now == now && (first[i].Serve? ==> first[i].cfg == cfg)
    ensures Fits(clock, end, cfg, first + rest)
  {
    var all := first + rest;
    forall i | 0 < i < |all| ensures all[i - 1].now <= all[i].now {
      if i > |first| {
        assert rest[i - |first| - 1].now <= rest[i - |first|].now;
      }
    }
  }

  ghost predicate Trace(clock: real, end: real, cfg: RateConfig, ops: seq<Op>) {
    && Timed(clock, ops)
    && forall i :: 0 <= i < |ops| ==> ops[i].now <= end && (ops[i].Request? ==> ops[i].key == K && ops[i].cfg == cfg)
  }

  lemma TraceTail(clock: real, end: real, cfg: RateConfig, ops: seq<Op>)
    requires Trace(clock, end, cfg, ops) && ops != []
    ensures Trace(ops[0].now, end, cfg, ops[1..])
  {
    TimedTail(clock, ops);
    assert forall i :: 0 <= i < |ops[1..]| ==> ops[1..][i] == ops[i + 1];
  }

  lemma TraceFrom(clock: real, later: real, end: real, cfg: RateConfig, ops: seq<Op>)
    requires Trace(clock, end, cfg, ops) && (ops != [] ==> later <= ops[0].now)
    ensures Trace(later, end, cfg, ops)
  {
  }

  lemma {:induction false} MergedFits(clock: real, end: real, cfg: RateConfig, a: seq<Op>, b: seq<Op>)
    requires forall i :: 0 <= i < |a| ==> a[i].Request?
    requires Trace(clock, end, cfg, a) && Trace(clock, end, cfg, b)
    ensures Fits(clock, end, cfg, Merged(a, b))
    decreases |a| + |b|
  {
    if a == [] && b == [] {
    } else if b == [] || (a != [] && a[0].now <= b[0].now) {
      var now := a[0].now;
      TraceTail(clock, end, cfg, a);
      TraceFrom(clock, now, end, cfg, b);
      MergedFits(now, end, cfg, a[1..], b);
      FitsMore(clock, now, end, cfg, ToRedis(a[0]), Merged(a[1..], b));
    } else {
      var now := b[0].now;
      TraceTail(clock, end, cfg, b);
      TraceFrom(clock, now, end, cfg, a);
      MergedFits(now, end, cfg, a, b[1..]);
      FitsMore(clock, now, end, cfg, [ToMemory(b[0])], Merged(a, b[1..]));
    }
  }

  // ----- what Redis can grant -------------------------------------------------------------

  // Requests alone do not look at how long buckets are kept.
  ghost predicate SameTokens(s: Store, t: Store) {
    s.Keys == t.Keys && forall k :: k in s ==> s[k].tokens == t[k].tokens && s[k].last == t[k].last
  }

  lemma {:induction false} KeepIsIrrelevant(s: Store, t: Store, key: string, ops: seq<Op>)
    requires SameTokens(s, t) && forall i :: 0 <= i < |ops| ==> ops[i].Request?
    ensures Granted(MEMORY_KEEP, s, key, ops) == Granted(REDIS_KEEP, t, key, ops)
    decreases |ops|
  {
    if ops != [] {
      var op := ops[0];
      assert Refilled(s, op.key, op.cfg, op.now) == Refilled(t, op.key, op.cfg, op.now);
      KeepIsIrrelevant(Next(MEMORY_KEEP, true, s, op), Next(REDIS_KEEP, true, t, op), key, ops[1..]);
    }
  }

  // One request each time the bucket holds a token again.
  lemma {:induction false} Steady(cfg: RateConfig, t: real, n: nat) returns (ops: seq<Op>, end: real)
    requires SoundConfig(cfg) && cfg.burst >= 1.0 && cfg.rate > 0.0
    ensures Requests({cfg}, t, ops) && end >= t && (forall i :: 0 <= i < |ops| ==> ops[i].now <= end)
    ensures Granted(MEMORY_KEEP, At(0.0, t), K, ops) == n && Earned(end - t, cfg.rate) == n as real
    decreases n
  {
    if n == 0 {
      EarnedGrows(0.0, 0.0, cfg.rate);
      return [], t;
    }
    var u := TopUp(cfg, 0.0, t);
    var rest;
    rest, end := Steady(cfg, u, n - 1);
    ops := [Ask(cfg, u)] + rest;
    RequestsCons({cfg}, t, cfg, u, rest);
    RunAppend(At(0.0, t), [Ask(cfg, u)], rest);
    EarnedAdds(u - t, end - u, cfg.rate);
    assert (u - t) + (end - u) == end - t;
    hide Earned, Run, Granted, Requests;
  }

  // Redis can grant everything a bucket earns, and end at any time but for one token.
  lemma RedisSpendsAll(cfg: RateConfig, end: real) returns (ops: seq<Op>, until: real)
    requires SoundConfig(cfg) && cfg.burst >= 1.0 && cfg.rate > 0.0 && end >= 0.0
    ensures Trace(0.0, until, cfg, ops) && forall i :: 0 <= i < |ops| ==> ops[i].Request?
    ensures until >= 0.0 && Earned(end, cfg.rate) <= Earned(until, cfg.rate) <= Earned(end, cfg.rate) + 1.0
    ensures Granted(REDIS_KEEP, map[], K, ops) as real == cfg.burst + Earned(until, cfg.rate)
  {
    var drain, left, t := DrainAll(cfg, 0.0);
    var missing := Earned(end, cfg.rate) - Earned(t, cfg.rate);
    var n: nat := if missing <= 0.0 then 0 else Ceil(missing);
    assert t - 0.0 == t;
    EarnedGrows(0.0, end, cfg.rate);
    var more;
    more, until := Steady(cfg, t, n);
    ops := drain + more;
    RunAppend(map[], drain, more);
    KeepIsIrrelevant(map[], map[], K, ops);
    EarnedAdds(t, until - t, cfg.rate);
    assert t + (until - t) == until;
    SpendsInOrder(cfg, drain, t, more, until);
    hide Earned, Run, Granted, Requests, Timed, Trace;
  }

  lemma SpendsInOrder(cfg: RateConfig, drain: seq<Op>, t: real, more: seq<Op>, until: real)
    requires Requests({cfg}, 0.0, drain) && drain != [] && drain[|drain| - 1].now == t
    requires Requests({cfg}, t, more) && t <= until && forall i :: 0 <= i < |more| ==> more[i].now <= until
    ensures Trace(0.0, until, cfg, drain + more)
    ensures forall i :: 0 <= i < |drain + more| ==> (drain + more)[i].Request?
  {
    var ops := drain + more;
    forall i | 0 < i < |ops| ensures ops[i - 1].now <= ops[i].now {
      if i < |drain| {
        assert drain[i - 1].now <= drain[i].now;
      } else if i > |drain| {
        assert more[i - |drain| - 1].now <= more[i - |drain|].now;
      }
    }
    AllBefore(0.0, drain);
  }

  lemma {:induction false} AllBefore(clock: real, ops: seq<Op>)
    requires Timed(clock, ops)
    ensures forall i :: 0 <= i < |ops| ==> ops[i].now <= End(clock, ops)
    decreases |ops|
  {
    if ops != [] {
      TimedTail(clock, ops);
      LastIsLatest(clock, ops);
      AllBefore(ops[0].now, ops[1..]);
      assert forall i :: 0 < i < |ops| ==> ops[i] == ops[1..][i - 1];
    }
  }

  // ----- what the memory store can grant --------------------------------------------------

  // The part of a token that is never granted at a rate of zero.
  function Loss(cfg: RateConfig): real {
    if cfg.rate > 0.0 then 0.0 else cfg.burst - cfg.burst.Floor as real
  }

  // Draining the bucket once and again after each of n sweeps.
  lemma {:induction false} Drains(cfg: RateConfig, from: real, late: real, n: nat) returns (ops: seq<Op>, end: real)
    requires SoundConfig(cfg) && cfg.burst >= 1.0 && late > 0.0
    ensures end >= from && Trace(from, end, cfg, ops)
    ensures var gain := cfg.burst - Loss(cfg) - Earned(JANITOR_KEEP + late, cfg.rate);
      Granted(MEMORY_KEEP, map[], K, ops) as real
      == cfg.burst - Loss(cfg) + Earned(end - from, cfg.rate) + Scaled(n, gain)
    decreases n
  {
    var gain := cfg.burst - Loss(cfg) - Earned(JANITOR_KEEP + late, cfg.rate);
    var drain, left, t := DrainAll(cfg, from);
    DrainLoss(cfg, drain, left, t - from);
    AllBefore(from, drain);
    ScaledOneMore(n, gain);
    if n == 0 {
      return drain, t;
    }
    var u := t + JANITOR_KEEP + late;
    var rest;
    rest, end := Drains(cfg, u, late, n - 1);
    ops := drain + ([Forget({K}, u)] + rest);
    TwoDrains(drain, left, t, u, rest);
    DrainsInOrder(cfg, from, drain, t, u, rest, end);
    ScaledOneMore(n - 1, gain);
    TwoDrainsPay(cfg, t - from, late, end - u);
    assert t - from + JANITOR_KEEP + late + (end - u) == end - from;
    hide *;
  }

  lemma DrainLoss(cfg: RateConfig, ops: seq<Op>, left: real, d: real)
    requires SoundConfig(cfg) && 0.0 <= left < 1.0 && (cfg.rate > 0.0 ==> left == 0.0)
    requires Granted(MEMORY_KEEP, map[], K, ops) as real == cfg.burst - left + Earned(d, cfg.rate)
    ensures left == Loss(cfg)
  {
    if cfg.rate == 0.0 {
      assert Earned(d, cfg.rate) == 0.0;
      assert Granted(MEMORY_KEEP, map[], K, ops) == cfg.burst.Floor;
    }
  }

  lemma DrainsInOrder(cfg: RateConfig, from: real, drain: seq<Op>, t: real, u: real, rest: seq<Op>, end: real)
    requires Requests({cfg}, from, drain) && drain != [] && drain[|drain| - 1].now == t <= u <= end
    requires Trace(u, end, cfg, rest)
    ensures Trace(from, end, cfg, drain + ([Forget({K}, u)] + rest))
  {
    var ops := drain + ([Forget({K}, u)] + rest);
    forall i | 0 < i < |ops| ensures ops[i - 1].now <= ops[i].now {
      if i < |drain| {
        assert drain[i - 1].now <= drain[i].now;
      } else if i > |drain| + 1 {
        assert rest[i - |drain| - 2].now <= rest[i - |drain| - 1].now;
      }
    }
    AllBefore(from, drain);
  }

  // ----- the exact condition --------------------------------------------------------------

  // Every window of every run of the fallback store, on a key with one configuration.
  ghost predicate FallbackWindowsHold(cfg: RateConfig) {
    forall key, clock, before, window :: FWindow(key, cfg, clock, before, window) ==>
      FGranted(FRun(START, before), key, window) as real <= 2.0 * FBound(cfg, window)
  }

  ghost predicate FWindow(key: string, cfg: RateConfig, clock: real, before: seq<FOp>, window: seq<FOp>) {
    && FTimed(clock, before) && FTimed(FEnd(clock, before), window)
    && FUses(key, iset{cfg}, before + window)
  }

  // Enough gains make up for any two tokens and bursts.
  lemma Enough(gain: real, wanted: real) returns (n: nat)
    requires gain > 0.0 && wanted >= 0.0
    ensures Scaled(n, gain) > wanted
  {
    n := (wanted / gain).Floor + 1;
    ScaledIsProduct(n, gain);
    assert n as real > wanted / gain;
    assert (wanted / gain) * gain == wanted;
    assert n as real * gain - wanted == (n as real - wanted / gain) * gain;
  }

  // The memory store is drained again and again while Redis is spent to the last token.
  lemma FallbackCanBeExceeded(cfg: RateConfig) returns (ops: seq<FOp>)
    requires SoundConfig(cfg) && cfg.burst >= 1.0 && Earned(JANITOR_KEEP, cfg.rate) < cfg.burst
    ensures FWindow(K, cfg, 0.0, [], ops)
    ensures FGranted(START, K, ops) as real > 2.0 * FBound(cfg, ops)
  {
    hide FGranted, Granted, Scaled, Merged, FBound, Fits, Trace, FWindow, Earned, Loss;
    var b, end := DrainsEnough(cfg);
    var a, until := [], end;
    if cfg.rate > 0.0 {
      a, until := RedisSpendsAll(cfg, end);
      EarnedInOrder(end, until, cfg.rate);
    } else {
      NothingEarned(cfg, end);
    }
    TraceEndsLater(end, until, cfg, b);
    ops := Merged(a, b);
    MergedGrants(START, K, a, b);
    MergedFits(0.0, until, cfg, a, b);
    FitsWindow(until, cfg, ops);
  }

  lemma NothingEarned(cfg: RateConfig, end: real)
    requires cfg.rate == 0.0 && end >= 0.0
    ensures Earned(end, cfg.rate) == 0.0 && Trace(0.0, end, cfg, [])
    ensures Granted(REDIS_KEEP, map[], K, []) == 0
  {
  }

  lemma EarnedInOrder(end: real, until: real, rate: real)
    requires rate > 0.0 && Earned(end, rate) <= Earned(until, rate)
    ensures end <= until
  {
    assert end > until ==> (end - until) * rate > 0.0;
  }

  lemma TraceEndsLater(end: real, until: real, cfg: RateConfig, ops: seq<Op>)
    requires Trace(0.0, end, cfg, ops) && end <= until
    ensures Trace(0.0, until, cfg, ops)
  {
  }

  // A trace of the memory store that is two bursts and a token over its bound.
  lemma DrainsEnough(cfg: RateConfig) returns (ops: seq<Op>, end: real)
    requires SoundConfig(cfg) && cfg.burst >= 1.0 && Earned(JANITOR_KEEP, cfg.rate) < cfg.burst
    ensures end >= 0.0 && Trace(0.0, end, cfg, ops)
    ensures Granted(MEMORY_KEEP, map[], K, ops) as real > 3.0 * cfg.burst + Earned(end, cfg.rate)
  {
    var late := LateRefill(cfg, Loss(cfg), 0.0);
    var gain := cfg.burst - Loss(cfg) - Earned(JANITOR_KEEP + late, cfg.rate);
    assert gain > 0.0 by {
      assert cfg.rate == 0.0 ==> Earned(JANITOR_KEEP + late, cfg.rate) == 0.0 && Loss(cfg) <= cfg.burst - 1.0;
    }
    hide Granted, Scaled, Trace;
    var n := Enough(gain, 2.0 * cfg.burst + 1.0);
    ops, end := Drains(cfg, 0.0, late, n);
    assert end - 0.0 == end;
  }

  lemma FitsWindow(end: real, cfg: RateConfig, ops: seq<FOp>)
    requires SoundConfig(cfg) && end >= 0.0 && Fits(0.0, end, cfg, ops)
    ensures FWindow(K, cfg, 0.0, [], ops) && FBound(cfg, ops) <= cfg.burst + Earned(end, cfg.rate)
  {
    assert [] + ops == ops;
    EarnedGrows(FSpan(ops), end, cfg.rate);
  }

  lemma {:induction false} SmallBucketGrantsNothing(s: Fallback, key: string, cfg: RateConfig, ops: seq<FOp>)
    requires cfg.burst < 1.0 && FUses(key, iset{cfg}, ops)
    ensures FGranted(s, key, ops) == 0
    decreases |ops|
  {
    if ops != [] {
      assert ops[0] in ops;
      assert forall op :: op in ops[1..] ==> op in ops;
      SmallBucketGrantsNothing(FNext(s, ops[0]), key, cfg, ops[1..]);
    }
  }

  // The same condition as for the memory store alone.
  lemma FallbackWindowsHoldIff(cfg: RateConfig)
    requires SoundConfig(cfg)
    ensures FallbackWindowsHold(cfg) <==> cfg.burst < 1.0 || Earned(JANITOR_KEEP, cfg.rate) >= cfg.burst
  {
    if cfg.burst < 1.0 || Earned(JANITOR_KEEP, cfg.rate) >= cfg.burst {
      forall key, clock, before, window | FWindow(key, cfg, clock, before, window)
        ensures FGranted(FRun(START, before), key, window) as real <= 2.0 * FBound(cfg, window)
      {
        FallbackHolds(key, cfg, clock, before, window);
      }
    } else {
      var ops := FallbackCanBeExceeded(cfg);
      assert FRun(START, []) == START;
    }
  }

  lemma FallbackHolds(key: string, cfg: RateConfig, clock: real, before: seq<FOp>, window: seq<FOp>)
    requires SoundConfig(cfg) && (cfg.burst < 1.0 || Earned(JANITOR_KEEP, cfg.rate) >= cfg.burst)
    requires FWindow(key, cfg, clock, before, window)
    ensures FGranted(FRun(START, before), key, window) as real <= 2.0 * FBound(cfg, window)
  {
    EarnedGrows(0.0, 0.0, cfg.rate);
    if cfg.burst < 1.0 {
      assert forall op :: op in window ==> op in before + window;
      SmallBucketGrantsNothing(FRun(START, before), key, cfg, window);
      FEndIsLatest(FEnd(clock, before), window);
      EarnedGrows(0.0, FSpan(window), cfg.rate);
    } else {
      assert cfg.rate > 0.0;
      TtlOutlastsItself(cfg);
      forall op | op in before + window && op.Serve? && op.key == key ensures op.cfg in AllWithin(cfg) {
        assert op.cfg == cfg;
      }
      FallbackKeptWindow(key, cfg, clock, before, window);
    }
  }
}
