/** When exactly the memory store's janitor matters: for which configurations the five minutes it
    keeps a bucket (internal/gateway/middleware/ratelimit.go) can be noticed by a client, and for
    which they let a window exceed its bound. */
module RateLimitExact {
  import opened RateLimit
  import opened RateLimitWindow

  const K := "client"

  // A trace on one key with configurations from a set.
  ghost predicate OneKey(cfgs: set<RateConfig>, ops: seq<Op>) {
    forall i :: 0 <= i < |ops| && ops[i].Request? ==> ops[i].key == K && ops[i].cfg in cfgs
  }

  ghost predicate Unnoticed(ops: seq<Op>) {
    Answers(MEMORY_KEEP, true, map[], ops) == Answers(MEMORY_KEEP, false, map[], ops)
  }

  function At(tokens: real, last: real): Store {
    map[K := Entry(tokens, last, JANITOR_KEEP)]
  }

  function Ask(cfg: RateConfig, now: real): Op {
    Request(K, cfg, now)
  }

  // Requests only, on the key, from some time on.
  ghost predicate Requests(cfgs: set<RateConfig>, from: real, ops: seq<Op>) {
    && Timed(from, ops)
    && forall i :: 0 <= i < |ops| ==> ops[i].Request? && ops[i].key == K && ops[i].cfg in cfgs
  }

  // ----- traces put together --------------------------------------------------------------

  lemma {:induction false} AnswersAppend(forgets: bool, s: Store, a: seq<Op>, b: seq<Op>)
    ensures Answers(MEMORY_KEEP, forgets, s, a + b) ==
            Answers(MEMORY_KEEP, forgets, s, a) + Answers(MEMORY_KEEP, forgets, Run(MEMORY_KEEP, forgets, s, a), b)
    decreases |a|
  {
    if a == [] {
      assert a + b == b;
    } else {
      assert (a + b)[1..] == a[1..] + b;
      AnswersAppend(forgets, Next(MEMORY_KEEP, forgets, s, a[0]), a[1..], b);
    }
  }

  lemma {:induction false} RunAppend(s: Store, a: seq<Op>, b: seq<Op>)
    ensures Run(MEMORY_KEEP, true, s, a + b) == Run(MEMORY_KEEP, true, Run(MEMORY_KEEP, true, s, a), b)
    ensures Granted(MEMORY_KEEP, s, K, a + b) ==
            Granted(MEMORY_KEEP, s, K, a) + Granted(MEMORY_KEEP, Run(MEMORY_KEEP, true, s, a), K, b)
    decreases |a|
  {
    if a == [] {
      assert a + b == b;
    } else {
      assert (a + b)[1..] == a[1..] + b;
      RunAppend(Next(MEMORY_KEEP, true, s, a[0]), a[1..], b);
    }
  }

  // Requests alone: nothing is forgotten.
  lemma {:induction false} RequestsOnly(s: Store, ops: seq<Op>)
    requires forall i :: 0 <= i < |ops| ==> ops[i].Request?
    ensures Answers(MEMORY_KEEP, true, s, ops) == Answers(MEMORY_KEEP, false, s, ops)
    ensures Run(MEMORY_KEEP, true, s, ops) == Run(MEMORY_KEEP, false, s, ops)
    decreases |ops|
  {
    if ops != [] {
      RequestsOnly(Next(MEMORY_KEEP, true, s, ops[0]), ops[1..]);
    }
  }

  lemma RequestsCons(cfgs: set<RateConfig>, from: real, cfg: RateConfig, t: real, ops: seq<Op>)
    requires Requests(cfgs, t, ops) && from <= t && cfg in cfgs
    ensures Requests(cfgs, from, [Ask(cfg, t)] + ops)
  {
    var r := [Ask(cfg, t)] + ops;
    forall i | 0 < i < |r| ensures r[i - 1].now <= r[i].now {
      if i > 1 {
        assert ops[i - 2].now <= ops[i - 1].now;
      }
    }
  }

  lemma RequestsSnoc(cfgs: set<RateConfig>, from: real, ops: seq<Op>, cfg: RateConfig, t: real)
    requires Requests(cfgs, from, ops) && ops != [] && ops[|ops| - 1].now <= t && cfg in cfgs
    ensures Requests(cfgs, from, ops + [Ask(cfg, t)])
  {
    var r := ops + [Ask(cfg, t)];
    forall i | 0 < i < |r| ensures r[i - 1].now <= r[i].now {
      if i < |ops| {
        assert ops[i - 1].now <= ops[i].now;
      }
    }
  }

  // One request, unfolded.
  lemma FirstAnswer(cfg: RateConfig, s: Store, t: real, rest: seq<Op>)
    ensures Answers(MEMORY_KEEP, true, s, [Ask(cfg, t)] + rest) ==
            [Allowed(s, K, cfg, t)] + Answers(MEMORY_KEEP, true, Next(MEMORY_KEEP, true, s, Ask(cfg, t)), rest)
    ensures Run(MEMORY_KEEP, true, s, [Ask(cfg, t)] + rest) ==
            Run(MEMORY_KEEP, true, Next(MEMORY_KEEP, true, s, Ask(cfg, t)), rest)
    ensures Granted(MEMORY_KEEP, s, K, [Ask(cfg, t)] + rest) ==
            (if Allowed(s, K, cfg, t) then 1 else 0)
            + Granted(MEMORY_KEEP, Next(MEMORY_KEEP, true, s, Ask(cfg, t)), K, rest)
  {
    assert ([Ask(cfg, t)] + rest)[1..] == rest;
  }

  lemma AskNow(cfg: RateConfig, x: real, t: real)
    requires 0.0 <= x <= cfg.burst
    ensures Refilled(At(x, t), K, cfg, t) == x
    ensures x >= 1.0 ==> Next(MEMORY_KEEP, true, At(x, t), Ask(cfg, t)) == At(x - 1.0, t)
  {
    EarnedGrows(0.0, 0.0, 0.0);
  }

  lemma SamePrefix<T>(a: seq<T>, b: seq<T>, p: seq<T>, q: seq<T>)
    requires |a| == |b|
    ensures a + p == b + q ==> a == b && p == q
  {
    assert (a + p)[..|a|] == a && (a + p)[|a|..] == p;
    assert (b + q)[..|b|] == b && (b + q)[|b|..] == q;
  }

  // ----- draining a bucket ----------------------------------------------------------------

  // Requests at one instant take the tokens below one.
  lemma {:induction false} DrainNow(cfg: RateConfig, x: real, t: real)
    returns (ops: seq<Op>, left: real)
    requires 0.0 <= x <= cfg.burst
    ensures Requests({cfg}, t, ops) && forall i :: 0 <= i < |ops| ==> ops[i].now == t
    ensures Run(MEMORY_KEEP, true, At(x, t), ops) == At(left, t) && 0.0 <= left < 1.0
    ensures Granted(MEMORY_KEEP, At(x, t), K, ops) as real == x - left
    decreases x.Floor
  {
    if x < 1.0 {
      return [], x;
    }
    AskNow(cfg, x, t);
    var rest;
    rest, left := DrainNow(cfg, x - 1.0, t);
    ops := [Ask(cfg, t)] + rest;
    RequestsCons({cfg}, t, cfg, t, rest);
    FirstAnswer(cfg, At(x, t), t, rest);
  }

  // Requests that leave a fresh client with no token at all (with less than one, if the rate
  // is zero): everything earned until then has been granted.
  lemma DrainAll(cfg: RateConfig, from: real) returns (ops: seq<Op>, left: real, t: real)
    requires SoundConfig(cfg) && cfg.burst >= 1.0
    ensures Requests({cfg}, from, ops) && ops != [] && ops[0].now == from && ops[|ops| - 1].now == t >= from
    ensures Run(MEMORY_KEEP, true, map[], ops) == At(left, t)
    ensures 0.0 <= left < 1.0 && (cfg.rate > 0.0 ==> left == 0.0)
    ensures Granted(MEMORY_KEEP, map[], K, ops) as real == cfg.burst - left + Earned(t - from, cfg.rate)
    ensures Earned(t - from, cfg.rate) <= 1.0
  {
    EarnedGrows(0.0, 0.0, cfg.rate);
    ops, left := DrainFresh(cfg, from);
    t := from;
    if cfg.rate > 0.0 && left > 0.0 {
      t := TopUp(cfg, left, from);
      RunAppend(map[], ops, [Ask(cfg, t)]);
      RequestsSnoc({cfg}, from, ops, cfg, t);
      hide *;
      ops, left := ops + [Ask(cfg, t)], 0.0;
    }
  }

  lemma DrainFresh(cfg: RateConfig, from: real) returns (ops: seq<Op>, left: real)
    requires SoundConfig(cfg) && cfg.burst >= 1.0
    ensures Requests({cfg}, from, ops) && ops != [] && ops[0].now == ops[|ops| - 1].now == from
    ensures Run(MEMORY_KEEP, true, map[], ops) == At(left, from) && 0.0 <= left < 1.0
    ensures Granted(MEMORY_KEEP, map[], K, ops) as real == cfg.burst - left
  {
    var rest;
    rest, left := DrainNow(cfg, cfg.burst - 1.0, from);
    ops := [Ask(cfg, from)] + rest;
    RequestsCons({cfg}, from, cfg, from, rest);
    FirstAnswer(cfg, map[], from, rest);
  }

  // Waiting until the bucket holds one token and taking it leaves it empty.
  lemma TopUp(cfg: RateConfig, left: real, from: real) returns (t: real)
    requires SoundConfig(cfg) && cfg.burst >= 1.0 && cfg.rate > 0.0 && 0.0 <= left < 1.0
    ensures t >= from && Earned(t - from, cfg.rate) == 1.0 - left
    ensures Run(MEMORY_KEEP, true, At(left, from), [Ask(cfg, t)]) == At(0.0, t)
    ensures Granted(MEMORY_KEEP, At(left, from), K, [Ask(cfg, t)]) == 1
  {
    var wait := (1.0 - left) / cfg.rate;
    assert wait * cfg.rate == 1.0 - left;
    t := from + wait;
    assert t - from == wait;
    assert [Ask(cfg, t)] + [] == [Ask(cfg, t)];
    FirstAnswer(cfg, At(left, from), t, []);
    hide Earned;
    assert Refilled(At(left, from), K, cfg, t) == 1.0;
  }

  // A wait a little longer than five minutes, in which the bucket does not fill up.
  lemma LateRefill(cfg: RateConfig, left: real, t: real) returns (late: real)
    requires SoundConfig(cfg) && Earned(JANITOR_KEEP, cfg.rate) < cfg.burst
    requires 0.0 <= left < cfg.burst && (cfg.rate > 0.0 ==> left == 0.0)
    ensures late > 0.0 && Earned(JANITOR_KEEP + late, cfg.rate) < cfg.burst
    ensures var x := Refilled(At(left, t), K, cfg, t + JANITOR_KEEP + late);
      0.0 <= x < cfg.burst && (cfg.rate == 0.0 ==> x == left)
  {
    late := if cfg.rate > 0.0 then (cfg.burst - Earned(JANITOR_KEEP, cfg.rate)) / (2.0 * cfg.rate) else 1.0;
    var e := Earned(JANITOR_KEEP, cfg.rate);
    EarnedAdds(JANITOR_KEEP, late, cfg.rate);
    assert t + JANITOR_KEEP + late - t == JANITOR_KEEP + late;
    if cfg.rate > 0.0 {
      assert late * (2.0 * cfg.rate) == cfg.burst - e;
      assert Earned(late, cfg.rate) == (cfg.burst - e) / 2.0;
      assert late > 0.0;
      EarnedGrows(0.0, JANITOR_KEEP + late, cfg.rate);
    }
  }

  // ----- what a client can notice ---------------------------------------------------------

  // Two different token counts at the same time give different answers to some requests.
  lemma {:induction false} Distinguish(cfg: RateConfig, x: real, y: real, t: real)
    returns (ops: seq<Op>)
    requires SoundConfig(cfg) && cfg.burst >= 1.0 && cfg.rate > 0.0
    requires 0.0 <= x < y <= cfg.burst
    ensures Requests({cfg}, t, ops)
    ensures Answers(MEMORY_KEEP, true, At(x, t), ops) != Answers(MEMORY_KEEP, true, At(y, t), ops)
    decreases x.Floor
  {
    AskNow(cfg, x, t);
    AskNow(cfg, y, t);
    if x >= 1.0 {
      var rest := Distinguish(cfg, x - 1.0, y - 1.0, t);
      ops := [Ask(cfg, t)] + rest;
      RequestsCons({cfg}, t, cfg, t, rest);
      FirstAnswer(cfg, At(x, t), t, rest);
      FirstAnswer(cfg, At(y, t), t, rest);
      SamePrefix([true], [true], Answers(MEMORY_KEEP, true, At(x - 1.0, t), rest),
                 Answers(MEMORY_KEEP, true, At(y - 1.0, t), rest));
    } else {
      var u := if y >= 1.0 then t else t + (1.0 - y) / cfg.rate;
      assert y < 1.0 ==> Earned(u - t, cfg.rate) == 1.0 - y && u >= t by {
        var w := (1.0 - y) / cfg.rate;
        assert w * cfg.rate == 1.0 - y;
      }
      ops := [Ask(cfg, u)] + [];
      RequestsCons({cfg}, t, cfg, u, []);
      FirstAnswer(cfg, At(x, t), u, []);
      FirstAnswer(cfg, At(y, t), u, []);
      assert !Allowed(At(x, t), K, cfg, u) && Allowed(At(y, t), K, cfg, u);
      SamePrefix([false], [true], [], []);
    }
  }

  lemma JoinTimed(cfgs: set<RateConfig>, first: seq<Op>, t: real, u: real, second: seq<Op>)
    requires Requests(cfgs, 0.0, first) && first != [] && first[|first| - 1].now == t <= u
    requires Requests(cfgs, u, second)
    ensures var ops := first + ([Forget({K}, u)] + second);
      Timed(0.0, ops) && OneKey(cfgs, ops)
  {
    var ops := first + ([Forget({K}, u)] + second);
    forall i | 0 < i < |ops| ensures ops[i - 1].now <= ops[i].now {
      if i < |first| {
        assert first[i - 1].now <= first[i].now;
      } else if i > |first| + 1 {
        assert second[i - |first| - 2].now <= second[i - |first| - 1].now;
      }
    }
  }

  lemma JoinAnswers(cfgs: set<RateConfig>, drain: seq<Op>, left: real, t: real, u: real, tail: seq<Op>)
    requires Requests(cfgs, 0.0, drain) && Requests(cfgs, u, tail) && u >= t + JANITOR_KEEP
    requires Run(MEMORY_KEEP, true, map[], drain) == At(left, t)
    requires Answers(MEMORY_KEEP, true, At(left, t), tail) != Answers(MEMORY_KEEP, true, map[], tail)
    ensures !Unnoticed(drain + ([Forget({K}, u)] + tail))
  {
    var rest := [Forget({K}, u)] + tail;
    RequestsOnly(map[], drain);
    RequestsOnly(At(left, t), tail);
    AnswersAppend(true, map[], drain, rest);
    AnswersAppend(false, map[], drain, rest);
    assert rest[1..] == tail;
    assert Next(MEMORY_KEEP, true, At(left, t), Forget({K}, u)) == map[];
    assert Answers(MEMORY_KEEP, true, At(left, t), rest) == Answers(MEMORY_KEEP, true, map[], tail);
    assert Answers(MEMORY_KEEP, false, At(left, t), rest) == Answers(MEMORY_KEEP, true, At(left, t), tail);
    SamePrefix(Answers(MEMORY_KEEP, true, map[], drain), Answers(MEMORY_KEEP, true, map[], drain),
               Answers(MEMORY_KEEP, true, map[], tail), Answers(MEMORY_KEEP, true, At(left, t), tail));
  }

  // Requests after the tick that tell a swept bucket from a kept one.
  lemma After(cfg: RateConfig, left: real, t: real, u: real) returns (ops: seq<Op>)
    requires SoundConfig(cfg) && cfg.burst >= 1.0
    requires var x := Refilled(At(left, t), K, cfg, u);
      0.0 <= x < cfg.burst && (cfg.rate == 0.0 ==> x < 1.0)
    ensures Requests({cfg}, u, ops)
    ensures Answers(MEMORY_KEEP, true, At(left, t), ops) != Answers(MEMORY_KEEP, true, map[], ops)
  {
    var x := Refilled(At(left, t), K, cfg, u);
    var rest := [];
    assert Requests({cfg}, u, []);
    assert x >= 1.0 ==> Next(MEMORY_KEEP, true, At(left, t), Ask(cfg, u)) == At(x - 1.0, u);
    assert Next(MEMORY_KEEP, true, map[], Ask(cfg, u)) == At(cfg.burst - 1.0, u);
    hide Refilled, Requests, Earned;
    if x >= 1.0 {
      rest := Distinguish(cfg, x - 1.0, cfg.burst - 1.0, u);
    }
    ops := [Ask(cfg, u)] + rest;
    RequestsCons({cfg}, u, cfg, u, rest);
    FirstAnswer(cfg, At(left, t), u, rest);
    FirstAnswer(cfg, map[], u, rest);
    SamePrefix([Allowed(At(left, t), K, cfg, u)], [true],
               Answers(MEMORY_KEEP, true, Next(MEMORY_KEEP, true, At(left, t), Ask(cfg, u)), rest),
               Answers(MEMORY_KEEP, true, Next(MEMORY_KEEP, true, map[], Ask(cfg, u)), rest));
  }

  // A configuration that does not refill in five minutes can be caught out.
  lemma JanitorCanBeNoticed(cfg: RateConfig) returns (ops: seq<Op>)
    requires SoundConfig(cfg) && cfg.burst >= 1.0 && Earned(JANITOR_KEEP, cfg.rate) < cfg.burst
    ensures Timed(0.0, ops) && OneKey({cfg}, ops) && !Unnoticed(ops)
  {
    var drain, left, t := DrainAll(cfg, 0.0);
    // A tick shortly after the five minutes are over.
    var late := LateRefill(cfg, left, t);
    var u := t + JANITOR_KEEP + late;
    var tail := After(cfg, left, t, u);
    ops := drain + ([Forget({K}, u)] + tail);
    JoinTimed({cfg}, drain, t, u, tail);
    JoinAnswers({cfg}, drain, left, t, u, tail);
  }

  lemma RequestsMore(a: set<RateConfig>, b: set<RateConfig>, from: real, ops: seq<Op>)
    requires Requests(a, from, ops) && a <= b
    ensures Requests(b, from, ops)
  {
  }

  // A bucket too small to allow anything can still be caught out, once another configuration
  // shares its key: it decides how full the other one's bucket is.
  lemma SmallOneCanBeNoticed(big: RateConfig, small: RateConfig) returns (ops: seq<Op>)
    requires SoundConfig(big) && big.burst >= 1.0 && big.rate > 0.0
    requires SoundConfig(small) && small.burst < 1.0 && Earned(JANITOR_KEEP, small.rate) < small.burst
    ensures Timed(0.0, ops) && OneKey({big, small}, ops) && !Unnoticed(ops)
  {
    var both := {big, small};
    var drain, left, t := DrainAll(big, 0.0);
    EarnedGrows(0.0, JANITOR_KEEP, small.rate);
    var late := LateRefill(small, left, t);
    var u := t + JANITOR_KEEP + late;
    var x := Refilled(At(left, t), K, small, u);
    var rest := Distinguish(big, x, small.burst, u);
    var tail := [Ask(small, u)] + rest;
    FirstAnswer(small, At(left, t), u, rest);
    FirstAnswer(small, map[], u, rest);
    assert Next(MEMORY_KEEP, true, At(left, t), Ask(small, u)) == At(x, u);
    assert Next(MEMORY_KEEP, true, map[], Ask(small, u)) == At(small.burst, u);
    SamePrefix([false], [false], Answers(MEMORY_KEEP, true, At(x, u), rest),
               Answers(MEMORY_KEEP, true, At(small.burst, u), rest));
    RequestsMore({big}, both, 0.0, drain);
    RequestsMore({big}, both, u, rest);
    RequestsCons(both, u, small, u, rest);
    ops := drain + ([Forget({K}, u)] + tail);
    JoinTimed(both, drain, t, u, tail);
    JoinAnswers(both, drain, left, t, u, tail);
  }

  function Asked(ops: seq<Op>): nat {
    if ops == [] then 0 else (if ops[0].Request? then 1 else 0) + Asked(ops[1..])
  }

  // Buckets smaller than one token never allow anything.
  lemma {:induction false} SmallBucketsDeny(cfgs: set<RateConfig>, forgets: bool, s: Store, ops: seq<Op>)
    requires OneKey(cfgs, ops) && forall c :: c in cfgs ==> c.burst < 1.0
    ensures Answers(MEMORY_KEEP, forgets, s, ops) == seq(Asked(ops), _ => false)
    decreases |ops|
  {
    if ops != [] {
      assert OneKey(cfgs, ops[1..]) by {
        assert forall i :: 0 <= i < |ops[1..]| ==> ops[1..][i] == ops[i + 1];
      }
      SmallBucketsDeny(cfgs, forgets, Next(MEMORY_KEEP, forgets, s, ops[0]), ops[1..]);
    }
  }

  ghost predicate AlwaysUnnoticed(cfgs: set<RateConfig>) {
    forall ops :: Timed(0.0, ops) && OneKey(cfgs, ops) ==> Unnoticed(ops)
  }

  // The exact condition, for any configurations that share a key: none of their buckets ever
  // allows anything, or all of them refill within five minutes.
  lemma JanitorUnnoticedIff(cfgs: set<RateConfig>)
    requires forall c :: c in cfgs ==> SoundConfig(c)
    ensures AlwaysUnnoticed(cfgs) <==>
      (forall c :: c in cfgs ==> c.burst < 1.0) || (forall c :: c in cfgs ==> Earned(JANITOR_KEEP, c.rate) >= c.burst)
  {
    if forall c :: c in cfgs ==> c.burst < 1.0 {
      forall ops | Timed(0.0, ops) && OneKey(cfgs, ops) ensures Unnoticed(ops) {
        SmallBucketsDeny(cfgs, true, map[], ops);
        SmallBucketsDeny(cfgs, false, map[], ops);
      }
    } else if forall c :: c in cfgs ==> Earned(JANITOR_KEEP, c.rate) >= c.burst {
      forall ops | Timed(0.0, ops) && OneKey(cfgs, ops) ensures Unnoticed(ops) {
        JanitorIsInvisible(0.0, ops);
      }
    } else {
      var ops := SomeNotice(cfgs);
    }
  }

  lemma SomeNotice(cfgs: set<RateConfig>) returns (ops: seq<Op>)
    requires forall c :: c in cfgs ==> SoundConfig(c)
    requires exists c :: c in cfgs && c.burst >= 1.0
    requires exists c :: c in cfgs && Earned(JANITOR_KEEP, c.rate) < c.burst
    ensures Timed(0.0, ops) && OneKey(cfgs, ops) && !Unnoticed(ops)
  {
    var big :| big in cfgs && big.burst >= 1.0;
    var slow :| slow in cfgs && Earned(JANITOR_KEEP, slow.rate) < slow.burst;
    if slow.burst >= 1.0 {
      ops := JanitorCanBeNoticed(slow);
    } else if Earned(JANITOR_KEEP, big.rate) < big.burst {
      ops := JanitorCanBeNoticed(big);
    } else {
      assert big.rate > 0.0 by {
        EarnedGrows(0.0, 0.0, 0.0);
      }
      ops := SmallOneCanBeNoticed(big, slow);
    }
  }

  // ----- what a window can let through ----------------------------------------------------

  // Draining the bucket, waiting for the janitor and draining it again: with a configuration
  // that does not refill in five minutes, more than burst + rate * d.
  lemma WindowCanBeExceeded(cfg: RateConfig) returns (ops: seq<Op>)
    requires SoundConfig(cfg) && cfg.burst >= 1.0 && Earned(JANITOR_KEEP, cfg.rate) < cfg.burst
    ensures Timed(0.0, ops) && OneKey({cfg}, ops)
    ensures Granted(MEMORY_KEEP, map[], K, ops) as real > Bound(cfg, ops)
  {
    hide Granted, Run, Earned, Timed, OneKey, Refilled;
    var first, left, t := DrainAll(cfg, 0.0);
    var late := LateRefill(cfg, left, t);
    var u := t + JANITOR_KEEP + late;
    var second, left', t' := DrainAll(cfg, u);
    ops := first + ([Forget({K}, u)] + second);
    JoinTimed({cfg}, first, t, u, second);
    TwoDrains(first, left, t, u, second);
    assert ops[0] == first[0] && ops[|ops| - 1] == second[|second| - 1];
    TwoDrainsPay(cfg, t, late, t' - u);
    assert t - 0.0 == t && t + JANITOR_KEEP + late + (t' - u) == t';
    assert Span(ops) == t' - 0.0 == t';
    assert left + left' < cfg.burst by {
      assert cfg.rate == 0.0 ==> Granted(MEMORY_KEEP, map[], K, first) >= 1;
    }
  }

  lemma TwoDrainsPay(cfg: RateConfig, t: real, late: real, d: real)
    ensures Earned(t + JANITOR_KEEP + late + d, cfg.rate)
         == Earned(t, cfg.rate) + Earned(JANITOR_KEEP + late, cfg.rate) + Earned(d, cfg.rate)
    ensures cfg.rate == 0.0 ==> Earned(t, cfg.rate) == Earned(d, cfg.rate) == 0.0
    ensures cfg.rate == 0.0 ==> Earned(JANITOR_KEEP + late, cfg.rate) == 0.0
  {
    EarnedAdds(t, JANITOR_KEEP + late, cfg.rate);
    EarnedAdds(t + (JANITOR_KEEP + late), d, cfg.rate);
    assert t + (JANITOR_KEEP + late) + d == t + JANITOR_KEEP + late + d;
  }

  lemma TwoDrains(first: seq<Op>, left: real, t: real, u: real, second: seq<Op>)
    requires Run(MEMORY_KEEP, true, map[], first) == At(left, t) && u >= t + JANITOR_KEEP
    ensures Granted(MEMORY_KEEP, map[], K, first + ([Forget({K}, u)] + second))
         == Granted(MEMORY_KEEP, map[], K, first) + Granted(MEMORY_KEEP, map[], K, second)
  {
    var rest := [Forget({K}, u)] + second;
    RunAppend(map[], first, rest);
    assert rest[1..] == second;
    assert Next(MEMORY_KEEP, true, At(left, t), Forget({K}, u)) == map[];
  }

  // Every window of every run of the memory store, on any key whose requests are charged with
  // configurations no larger than top.
  ghost predicate WindowsHold(top: RateConfig) {
    forall key, clock, before, window :: Window(key, top, clock, before, window) ==>
      Granted(MEMORY_KEEP, Run(MEMORY_KEEP, true, map[], before), key, window) as real <= Bound(top, window)
  }

  ghost predicate Window(key: string, top: RateConfig, clock: real, before: seq<Op>, window: seq<Op>) {
    && Timed(clock, before) && Timed(End(clock, before), window)
    && forall op :: op in before + window ==> UsesBelow(key, top, op)
  }

  lemma {:induction false} SmallBucketsGrantNothing(s: Store, key: string, top: RateConfig, ops: seq<Op>)
    requires top.burst < 1.0 && forall op :: op in ops ==> UsesBelow(key, top, op)
    ensures Granted(MEMORY_KEEP, s, key, ops) == 0
    decreases |ops|
  {
    if ops != [] {
      assert UsesBelow(key, top, ops[0]);
      assert forall op :: op in ops[1..] ==> op in ops;
      SmallBucketsGrantNothing(Next(MEMORY_KEEP, true, s, ops[0]), key, top, ops[1..]);
    }
  }

  // Exactly the configurations that never allow anything or refill within five minutes keep
  // every window within burst + rate * d.
  lemma WindowsHoldIff(top: RateConfig)
    requires SoundConfig(top)
    ensures WindowsHold(top) <==> top.burst < 1.0 || Earned(JANITOR_KEEP, top.rate) >= top.burst
  {
    if top.burst < 1.0 {
      forall key, clock, before, window | Window(key, top, clock, before, window)
        ensures Granted(MEMORY_KEEP, Run(MEMORY_KEEP, true, map[], before), key, window) as real <= Bound(top, window)
      {
        SmallBucketsGrantNothing(Run(MEMORY_KEEP, true, map[], before), key, top, window);
        SpanIsPositive(End(clock, before), window);
        EarnedGrows(0.0, Span(window), top.rate);
      }
    } else if Earned(JANITOR_KEEP, top.rate) >= top.burst {
      forall key, clock, before, window | Window(key, top, clock, before, window)
        ensures Granted(MEMORY_KEEP, Run(MEMORY_KEEP, true, map[], before), key, window) as real <= Bound(top, window)
      {
        KeptWindow(MEMORY_KEEP, before, window, key, top, clock);
      }
    } else {
      var ops := WindowCanBeExceeded(top);
      assert [] + ops == ops;
      forall op | op in ops ensures UsesBelow(K, top, op) {
        var i :| 0 <= i < |ops| && ops[i] == op;
      }
      assert Window(K, top, 0.0, [], ops);
      assert Run(MEMORY_KEEP, true, map[], []) == map[];
    }
  }

  // The default global limit is kept; one request a second with a burst of a thousand is not.
  lemma GlobalLimits()
    ensures WindowsHold(RateConfig(10000.0, 15000.0))
    ensures !WindowsHold(RateConfig(1.0, 1000.0))
  {
    WindowsHoldIff(RateConfig(10000.0, 15000.0));
    WindowsHoldIff(RateConfig(1.0, 1000.0));
  }
}
