/** How much the token buckets of internal/gateway/middleware/ratelimit.go let through in a window
    of time, with buckets that are kept until they are full and with buckets that are not. */
module RateLimitWindow {
  import opened RateLimit

  // ----- how much a window lets through ---------------------------------------------------

  function Grant(s: Store, key: string, op: Op): nat {
    if op.Request? && op.key == key && Allowed(s, key, op.cfg, op.now) then 1 else 0
  }

  // Requests allowed for the key along a trace.
  function Granted(keepFor: RateConfig -> real, s: Store, key: string, ops: seq<Op>): nat
    decreases |ops|
  {
    if ops == [] then 0
    else Grant(s, key, ops[0]) + Granted(keepFor, Next(keepFor, true, s, ops[0]), key, ops[1..])
  }

  // The key's requests are charged with configurations no larger than a top one.
  ghost predicate Below(c: RateConfig, top: RateConfig) {
    SoundConfig(c) && c.rate <= top.rate && c.burst <= top.burst
  }

  ghost predicate UsesBelow(key: string, top: RateConfig, op: Op) {
    op.Request? && op.key == key ==> Below(op.cfg, top)
  }

  // The key's bucket is dropped before the top configuration would have filled it.
  predicate DropsEarly(s: Store, key: string, top: RateConfig, op: Op) {
    && op.Forget? && key in s && key in op.keys && op.now >= s[key].last + s[key].keep
    && Refilled(s, key, top, op.now) < top.burst
  }

  function EarlyDrops(keepFor: RateConfig -> real, s: Store, key: string, top: RateConfig, ops: seq<Op>): nat
    decreases |ops|
  {
    if ops == [] then 0
    else
      (if DropsEarly(s, key, top, ops[0]) then 1 else 0)
      + EarlyDrops(keepFor, Next(keepFor, true, s, ops[0]), key, top, ops[1..])
  }

  function End(clock: real, ops: seq<Op>): real {
    if ops == [] then clock else ops[|ops| - 1].now
  }

  // From the first operation to the last.
  function Span(ops: seq<Op>): real {
    if ops == [] then 0.0 else ops[|ops| - 1].now - ops[0].now
  }

  // burst + rate * d for the window's length d.
  function Bound(top: RateConfig, window: seq<Op>): real {
    top.burst + Earned(Span(window), top.rate)
  }

  ghost predicate TokensOK(s: Store, key: string, top: RateConfig, clock: real) {
    key in s ==> 0.0 <= s[key].tokens <= top.burst && s[key].last <= clock
  }

  lemma RefillInRange(s: Store, key: string, top: RateConfig, now: real)
    requires SoundConfig(top) && TokensOK(s, key, top, now)
    ensures 0.0 <= Refilled(s, key, top, now) <= top.burst
  {
    if key in s {
      EarnedGrows(0.0, now - s[key].last, top.rate);
    }
  }

  // Waiting adds at most rate times the time waited.
  lemma RefillAdvances(s: Store, key: string, top: RateConfig, t: real, u: real)
    requires SoundConfig(top) && t <= u
    ensures Refilled(s, key, top, u) <= Refilled(s, key, top, t) + Earned(u - t, top.rate)
  {
    hide Earned;
    EarnedGrows(0.0, u - t, top.rate);
    if key in s {
      EarnedAdds(t - s[key].last, u - t, top.rate);
      assert t - s[key].last + (u - t) == u - s[key].last;
    }
  }

  // A smaller configuration sees no more tokens.
  lemma RefillsLess(s: Store, key: string, c: RateConfig, top: RateConfig, now: real)
    requires Below(c, top) && TokensOK(s, key, top, now)
    ensures 0.0 <= Refilled(s, key, c, now) <= Refilled(s, key, top, now)
  {
    if key in s {
      EarnedMore(now - s[key].last, c.rate, top.rate);
    }
  }

  lemma EarnedMore(elapsed: real, a: real, b: real)
    requires elapsed >= 0.0 && 0.0 <= a <= b
    ensures 0.0 <= Earned(elapsed, a) <= Earned(elapsed, b)
  {
    assert elapsed * b - elapsed * a == elapsed * (b - a);
  }

  // One operation pays for the request it grants out of the tokens available, unless it drops a
  // bucket that was not full yet.
  lemma StepPays(keepFor: RateConfig -> real, s: Store, key: string, top: RateConfig, op: Op)
    requires SoundConfig(top) && TokensOK(s, key, top, op.now) && UsesBelow(key, top, op)
    ensures var s' := Next(keepFor, true, s, op);
      && TokensOK(s', key, top, op.now)
      && Grant(s, key, op) as real + Refilled(s', key, top, op.now)
         <= Refilled(s, key, top, op.now) + if DropsEarly(s, key, top, op) then top.burst else 0.0
  {
    hide Earned;
    EarnedGrows(0.0, 0.0, top.rate);
    RefillInRange(s, key, top, op.now);
    if op.Request? && op.key == key {
      RefillsLess(s, key, op.cfg, top, op.now);
    }
  }

  // x taken n times.
  function Scaled(n: nat, x: real): real {
    if n == 0 then 0.0 else Scaled(n - 1, x) + x
  }

  lemma {:induction false} ScaledIsProduct(n: nat, x: real)
    ensures Scaled(n, x) == n as real * x
  {
    if n > 0 {
      ScaledIsProduct(n - 1, x);
    }
  }

  lemma ScaledOneMore(n: nat, x: real)
    ensures Scaled(0, x) == 0.0 && Scaled(n + 1, x) == Scaled(n, x) + x
  {
  }

  lemma {:induction false} GrantedPays(keepFor: RateConfig -> real, s: Store, key: string,
                                       top: RateConfig, clock: real, ops: seq<Op>)
    requires SoundConfig(top) && ops != []
    requires Timed(clock, ops) && TokensOK(s, key, top, clock)
    requires forall i :: 0 <= i < |ops| ==> UsesBelow(key, top, ops[i])
    ensures Granted(keepFor, s, key, ops) as real <= Refilled(s, key, top, ops[0].now)
      + Earned(ops[|ops| - 1].now - ops[0].now, top.rate) + Scaled(EarlyDrops(keepFor, s, key, top, ops), top.burst)
    decreases |ops|
  {
    var op, rest := ops[0], ops[1..];
    var s' := Next(keepFor, true, s, op);
    var n := EarlyDrops(keepFor, s', key, top, rest);
    StepPays(keepFor, s, key, top, op);
    RefillInRange(s', key, top, op.now);
    EarnedGrows(0.0, 0.0, top.rate);
    ScaledOneMore(n, top.burst);
    hide Scaled;
    assert Granted(keepFor, s, key, ops) == Grant(s, key, op) + Granted(keepFor, s', key, rest);
    assert EarlyDrops(keepFor, s, key, top, ops) == n + if DropsEarly(s, key, top, op) then 1 else 0;
    if rest != [] {
      TimedTail(clock, ops);
      assert forall i :: 0 <= i < |rest| ==> rest[i] == ops[i + 1];
      hide Next, Granted, Refilled, Earned, TokensOK, Timed, DropsEarly, EarlyDrops;
      GrantedPays(keepFor, s', key, top, op.now, rest);
      RefillAdvances(s', key, top, op.now, rest[0].now);
      var d, e := rest[0].now - op.now, ops[|ops| - 1].now - rest[0].now;
      EarnedAdds(d, e, top.rate);
      assert d + e == ops[|ops| - 1].now - op.now;
    }
  }

  // Tokens never leave [0, burst], whatever is forgotten.
  lemma {:induction false} RunKeyOK(keepFor: RateConfig -> real, s: Store, key: string,
                                    top: RateConfig, clock: real, ops: seq<Op>)
    requires SoundConfig(top) && Timed(clock, ops) && TokensOK(s, key, top, clock)
    requires forall i :: 0 <= i < |ops| ==> UsesBelow(key, top, ops[i])
    ensures TokensOK(Run(keepFor, true, s, ops), key, top, End(clock, ops))
    decreases |ops|
  {
    if ops != [] {
      StepPays(keepFor, s, key, top, ops[0]);
      TimedTail(clock, ops);
      assert forall i :: 0 <= i < |ops[1..]| ==> ops[1..][i] == ops[i + 1];
      RunKeyOK(keepFor, Next(keepFor, true, s, ops[0]), key, top, ops[0].now, ops[1..]);
    }
  }

  // However often a store forgets overdue buckets and whichever configuration each request is
  // charged with: any stretch of operations, wherever the run stands when it begins, grants a
  // key at most burst + rate * duration requests of the top configuration, and another burst
  // for every time its bucket is dropped before it was full.
  lemma WindowBound(keepFor: RateConfig -> real, before: seq<Op>, window: seq<Op>, key: string,
                    top: RateConfig, clock: real)
    requires SoundConfig(top) && Timed(clock, before) && Timed(End(clock, before), window)
    requires forall op :: op in before + window ==> UsesBelow(key, top, op)
    ensures var s := Run(keepFor, true, map[], before);
      Granted(keepFor, s, key, window) as real
      <= Bound(top, window) + Scaled(EarlyDrops(keepFor, s, key, top, window), top.burst)
  {
    var s := Run(keepFor, true, map[], before);
    EarnedGrows(0.0, 0.0, top.rate);
    assert window == [] ==> Granted(keepFor, s, key, window) == EarlyDrops(keepFor, s, key, top, window) == 0;
    assert window == [] ==> Scaled(EarlyDrops(keepFor, s, key, top, window), top.burst) == 0.0;
    hide Scaled, UsesBelow, Granted, EarlyDrops, Run;
    RunKeyOK(keepFor, map[], key, top, clock, before);
    if window != [] {
      GrantedPays(keepFor, s, key, top, End(clock, before), window);
      LastIsLatest(End(clock, before), window);
      RefillInRange(s, key, top, window[0].now);
    }
  }

  // ----- buckets that are kept long enough ------------------------------------------------

  ghost predicate Within(keepFor: RateConfig -> real, c: RateConfig, top: RateConfig) {
    Below(c, top) && Outlasts(keepFor, c, top)
  }

  ghost predicate UsesWithin(keepFor: RateConfig -> real, key: string, top: RateConfig, op: Op) {
    op.Request? && op.key == key ==> Within(keepFor, op.cfg, top)
  }

  ghost predicate KeptOK(s: Store, key: string, top: RateConfig) {
    key in s ==> Earned(s[key].keep, top.rate) >= top.burst
  }

  lemma {:induction false} NoEarlyDrops(keepFor: RateConfig -> real, s: Store, key: string,
                                        top: RateConfig, clock: real, ops: seq<Op>)
    requires SoundConfig(top) && Timed(clock, ops) && TokensOK(s, key, top, clock) && KeptOK(s, key, top)
    requires forall i :: 0 <= i < |ops| ==> UsesWithin(keepFor, key, top, ops[i])
    ensures EarlyDrops(keepFor, s, key, top, ops) == 0
    ensures KeptOK(Run(keepFor, true, s, ops), key, top)
    decreases |ops|
  {
    if ops != [] {
      var op := ops[0];
      StepPays(keepFor, s, key, top, op);
      if op.Forget? && key in s && op.now >= s[key].last + s[key].keep {
        EarnedGrows(s[key].keep, op.now - s[key].last, top.rate);
      }
      TimedTail(clock, ops);
      assert forall i :: 0 <= i < |ops[1..]| ==> ops[1..][i] == ops[i + 1];
      NoEarlyDrops(keepFor, Next(keepFor, true, s, op), key, top, op.now, ops[1..]);
    }
  }

  // When each bucket is kept until the top configuration has filled it, burst + rate * d is all.
  lemma KeptWindow(keepFor: RateConfig -> real, before: seq<Op>, window: seq<Op>, key: string,
                   top: RateConfig, clock: real)
    requires SoundConfig(top) && Timed(clock, before) && Timed(End(clock, before), window)
    requires forall op :: op in before + window ==> UsesWithin(keepFor, key, top, op)
    ensures Granted(keepFor, Run(keepFor, true, map[], before), key, window) as real <= Bound(top, window)
  {
    ScaledOneMore(0, top.burst);
    forall op | op in before + window ensures UsesBelow(key, top, op) {
      assert UsesWithin(keepFor, key, top, op);
    }
    hide Scaled, Bound, UsesBelow, UsesWithin, Granted, EarlyDrops, Within;
    NoEarlyDrops(keepFor, map[], key, top, clock, before);
    RunKeyOK(keepFor, map[], key, top, clock, before);
    NoEarlyDrops(keepFor, Run(keepFor, true, map[], before), key, top, End(clock, before), window);
    WindowBound(keepFor, before, window, key, top, clock);
  }

  // Redis keeps every bucket of a key with one configuration that long.
  lemma RedisWindow(before: seq<Op>, window: seq<Op>, key: string, cfg: RateConfig, clock: real)
    requires cfg.rate > 0.0 && cfg.burst >= 0.0 && Timed(clock, before) && Timed(End(clock, before), window)
    requires forall op :: op in before + window && op.Request? && op.key == key ==> op.cfg == cfg
    ensures Granted(REDIS_KEEP, Run(REDIS_KEEP, true, map[], before), key, window) as real <= Bound(cfg, window)
  {
    TtlOutlastsItself(cfg);
    KeptWindow(REDIS_KEEP, before, window, key, cfg, clock);
  }

  lemma TiersAreWithin(c: RateConfig, top: RateConfig)
    requires c in {TIER_PUBLIC, TIER_AUTH, TIER_ADMIN} && top in {TIER_PUBLIC, TIER_AUTH, TIER_ADMIN}
    requires c.rate <= top.rate
    ensures SoundConfig(top) && Within(MEMORY_KEEP, c, top) && Within(REDIS_KEEP, c, top)
  {
    TiersMayChange(c, top);
  }

  // The per-IP key, charged with whatever tier each request belongs to, in either store: the
  // largest tier seen gives the bound.
  lemma TierWindow(before: seq<Op>, window: seq<Op>, key: string, top: RateConfig, clock: real)
    requires top in {TIER_PUBLIC, TIER_AUTH, TIER_ADMIN} && Timed(clock, before) && Timed(End(clock, before), window)
    requires forall op :: op in before + window && op.Request? && op.key == key ==>
      op.cfg in {TIER_PUBLIC, TIER_AUTH, TIER_ADMIN} && op.cfg.rate <= top.rate
    ensures Granted(MEMORY_KEEP, Run(MEMORY_KEEP, true, map[], before), key, window) as real <= Bound(top, window)
    ensures Granted(REDIS_KEEP, Run(REDIS_KEEP, true, map[], before), key, window) as real <= Bound(top, window)
  {
    forall op | op in before + window
      ensures UsesWithin(MEMORY_KEEP, key, top, op) && UsesWithin(REDIS_KEEP, key, top, op)
    {
      if op.Request? && op.key == key {
        TiersAreWithin(op.cfg, top);
      }
    }
    TiersAreWithin(top, top);
    hide *;
    KeptWindow(MEMORY_KEEP, before, window, key, top, clock);
    KeptWindow(REDIS_KEEP, before, window, key, top, clock);
  }

  // ----- buckets that are not -------------------------------------------------------------

  ghost predicate KeepsFor(keepFor: RateConfig -> real, time: real, key: string, op: Op) {
    op.Request? && op.key == key ==> keepFor(op.cfg) >= time
  }

  // Between two drops of a key lies the time its bucket is kept.
  lemma {:induction false} DropsAreRare(keepFor: RateConfig -> real, time: real, s: Store, key: string,
                                        top: RateConfig, clock: real, ops: seq<Op>)
    requires time > 0.0 && Timed(clock, ops) && ops != []
    requires forall i :: 0 <= i < |ops| ==> KeepsFor(keepFor, time, key, ops[i])
    requires key in s ==> s[key].last <= clock && s[key].keep >= time
    ensures var n, end := EarlyDrops(keepFor, s, key, top, ops), ops[|ops| - 1].now;
      && Scaled(n, time) <= end - ops[0].now + time
      && (key in s ==> Scaled(n, time) <= end - s[key].last)
      && (key !in s ==> Scaled(n, time) <= end - ops[0].now)
    decreases |ops|
  {
    var op, rest, s' := ops[0], ops[1..], Next(keepFor, true, s, ops[0]);
    var m := EarlyDrops(keepFor, s', key, top, rest);
    assert EarlyDrops(keepFor, s, key, top, ops) == m + if DropsEarly(s, key, top, op) then 1 else 0;
    ScaledOneMore(m, time);
    ScaledOneMore(0, time);
    LastIsLatest(clock, ops);
    KeyAfter(keepFor, time, s, key, top, op);
    if rest != [] {
      TimedTail(clock, ops);
      assert forall i :: 0 <= i < |rest| ==> rest[i] == ops[i + 1];
      LastIsLatest(op.now, rest);
      hide EarlyDrops, Timed, Refilled, Scaled, Next, DropsEarly;
      DropsAreRare(keepFor, time, s', key, top, op.now, rest);
    }
  }

  // What one operation does to the key's bucket, as far as its age goes.
  lemma KeyAfter(keepFor: RateConfig -> real, time: real, s: Store, key: string, top: RateConfig, op: Op)
    requires KeepsFor(keepFor, time, key, op) && (key in s ==> s[key].last <= op.now && s[key].keep >= time)
    ensures var s' := Next(keepFor, true, s, op);
      && (key in s' ==> s'[key].last <= op.now && s'[key].keep >= time)
      && (key in s' ==> s'[key].last == op.now || (key in s && s'[key].last == s[key].last))
      && (DropsEarly(s, key, top, op) ==> key in s && key !in s' && op.now >= s[key].last + time)
  {
    hide Refilled;
  }

  lemma {:induction false} LastIsLatest(clock: real, ops: seq<Op>)
    requires Timed(clock, ops) && ops != []
    ensures clock <= ops[0].now <= ops[|ops| - 1].now
    decreases |ops|
  {
    if |ops| > 1 {
      TimedTail(clock, ops);
      LastIsLatest(ops[0].now, ops[1..]);
    }
  }

  ghost predicate KeptFor(time: real, s: Store, key: string) {
    key in s ==> s[key].keep >= time
  }

  lemma {:induction false} RunKeepsFor(keepFor: RateConfig -> real, time: real, s: Store, key: string, ops: seq<Op>)
    requires forall i :: 0 <= i < |ops| ==> KeepsFor(keepFor, time, key, ops[i])
    requires KeptFor(time, s, key)
    ensures KeptFor(time, Run(keepFor, true, s, ops), key)
    decreases |ops|
  {
    if ops != [] {
      assert forall i :: 0 <= i < |ops[1..]| ==> ops[1..][i] == ops[i + 1];
      assert KeepsFor(keepFor, time, key, ops[0]);
      RunKeepsFor(keepFor, time, Next(keepFor, true, s, ops[0]), key, ops[1..]);
    }
  }

  // How often the janitor can drop the key's bucket: once, and once more for every five minutes.
  function Sweeps(window: seq<Op>): int {
    1 + (Span(window) / JANITOR_KEEP).Floor
  }

  lemma SweepsBound(n: nat, span: real)
    requires Scaled(n, JANITOR_KEEP) <= span + JANITOR_KEEP && span >= 0.0
    ensures n <= 1 + (span / JANITOR_KEEP).Floor
  {
    ScaledIsProduct(n, JANITOR_KEEP);
    assert n as real - 1.0 <= span / JANITOR_KEEP;
  }

  lemma {:induction false} ScaledGrows(m: nat, n: nat, x: real)
    requires m <= n && x >= 0.0
    ensures Scaled(m, x) <= Scaled(n, x)
  {
    if m < n {
      ScaledGrows(m, n - 1, x);
    }
  }

  lemma SweepsOnly(s: Store, key: string, top: RateConfig, clock: real, window: seq<Op>)
    requires Timed(clock, window) && (key in s ==> s[key].last <= clock) && KeptFor(JANITOR_KEEP, s, key)
    ensures EarlyDrops(MEMORY_KEEP, s, key, top, window) <= Sweeps(window)
  {
    var n := EarlyDrops(MEMORY_KEEP, s, key, top, window);
    if window != [] {
      LastIsLatest(clock, window);
      DropsAreRare(MEMORY_KEEP, JANITOR_KEEP, s, key, top, clock, window);
      SweepsBound(n, Span(window));
    }
  }

  lemma SpanIsPositive(clock: real, window: seq<Op>)
    requires Timed(clock, window)
    ensures Span(window) >= 0.0 && Sweeps(window) >= 1
  {
    if window != [] {
      LastIsLatest(clock, window);
    }
  }

  // The in-process store, with no condition on the configurations.
  lemma MemoryWindow(before: seq<Op>, window: seq<Op>, key: string, top: RateConfig, clock: real)
    requires SoundConfig(top) && Timed(clock, before) && Timed(End(clock, before), window)
    requires forall op :: op in before + window ==> UsesBelow(key, top, op)
    ensures Sweeps(window) >= 1
    ensures Granted(MEMORY_KEEP, Run(MEMORY_KEEP, true, map[], before), key, window) as real
      <= Bound(top, window) + Scaled(Sweeps(window), top.burst)
  {
    hide Scaled, Bound, UsesBelow, Granted, EarlyDrops, Sweeps;
    var s := Run(MEMORY_KEEP, true, map[], before);
    RunKeyOK(MEMORY_KEEP, map[], key, top, clock, before);
    RunKeepsFor(MEMORY_KEEP, JANITOR_KEEP, map[], key, before);
    SweepsOnly(s, key, top, End(clock, before), window);
    SpanIsPositive(End(clock, before), window);
    ScaledGrows(EarlyDrops(MEMORY_KEEP, s, key, top, window), Sweeps(window), top.burst);
    WindowBound(MEMORY_KEEP, before, window, key, top, clock);
  }
}
