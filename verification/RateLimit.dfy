/** Token-bucket rate limiting (internal/gateway/middleware/ratelimit.go): buckets that are
    forgotten, and how long the in-process store with its janitor and the Redis script with its
    key expiry keep them.  Times are seconds. */
module RateLimit {

  datatype RateConfig = RateConfig(rate: real, burst: real)

  // ----- the abstract bucket store --------------------------------------------------------

  // keep: for how long after the last request the store holds on to the bucket.
  datatype Entry = Entry(tokens: real, last: real, keep: real)

  type Store = map<string, Entry>

  datatype Op =
    | Request(key: string, cfg: RateConfig, now: real)
    | Forget(keys: set<string>, now: real)  // drops those of the keys that are overdue

  function Min(a: real, b: real): real {
    if a < b then a else b
  }

  function Earned(elapsed: real, rate: real): real {
    elapsed * rate
  }

  lemma EarnedGrows(a: real, b: real, rate: real)
    requires a <= b && rate >= 0.0
    ensures Earned(a, rate) <= Earned(b, rate)
    ensures Earned(0.0, rate) == 0.0
  {
  }

  lemma EarnedAdds(a: real, b: real, rate: real)
    ensures Earned(a, rate) + Earned(b, rate) == Earned(a + b, rate)
  {
  }

  // Tokens available to a request at time now.
  function Refilled(s: Store, key: string, cfg: RateConfig, now: real): real {
    if key !in s then cfg.burst
    else Min(cfg.burst, s[key].tokens + Earned(now - s[key].last, cfg.rate))
  }

  predicate Allowed(s: Store, key: string, cfg: RateConfig, now: real) {
    Refilled(s, key, cfg, now) >= 1.0
  }

  function Charged(s: Store, key: string, cfg: RateConfig, now: real, keep: real): Store {
    var t := Refilled(s, key, cfg, now);
    s[key := Entry(if t >= 1.0 then t - 1.0 else t, now, keep)]
  }

  function Forgotten(s: Store, keys: set<string>, now: real): Store {
    map k | k in s && !(k in keys && now >= s[k].last + s[k].keep) :: s[k]
  }

  function Next(keepFor: RateConfig -> real, forgets: bool, s: Store, op: Op): Store {
    match op
    case Request(key, cfg, now) => Charged(s, key, cfg, now, keepFor(cfg))
    case Forget(keys, now) => if forgets then Forgotten(s, keys, now) else s
  }

  function Run(keepFor: RateConfig -> real, forgets: bool, s: Store, ops: seq<Op>): Store
    decreases |ops|
  {
    if ops == [] then s
    else Run(keepFor, forgets, Next(keepFor, forgets, s, ops[0]), ops[1..])
  }

  // The answers to the requests of a trace, in order.
  function Answers(keepFor: RateConfig -> real, forgets: bool, s: Store, ops: seq<Op>): seq<bool>
    decreases |ops|
  {
    if ops == [] then []
    else
      var op := ops[0];
      (if op.Request? then [Allowed(s, op.key, op.cfg, op.now)] else [])
      + Answers(keepFor, forgets, Next(keepFor, forgets, s, op), ops[1..])
  }

  ghost predicate Timed(clock: real, ops: seq<Op>) {
    && (ops != [] ==> clock <= ops[0].now)
    && forall i :: 0 < i < |ops| ==> ops[i - 1].now <= ops[i].now
  }

  // A bucket kept after a request under c refills completely for a later request under d.
  ghost predicate Outlasts(keepFor: RateConfig -> real, c: RateConfig, d: RateConfig) {
    keepFor(c) >= 0.0 && Earned(keepFor(c), d.rate) >= d.burst
  }

  ghost predicate SoundConfig(c: RateConfig) {
    c.rate >= 0.0 && c.burst >= 0.0
  }

  ghost predicate Covered(keepFor: RateConfig -> real, ops: seq<Op>) {
    && (forall i :: 0 <= i < |ops| && ops[i].Request? ==> SoundConfig(ops[i].cfg))
    && forall i, j :: 0 <= i < j < |ops| ==> Compatible(keepFor, ops[i], ops[j])
  }

  ghost predicate Compatible(keepFor: RateConfig -> real, a: Op, b: Op) {
    a.Request? && b.Request? && a.key == b.key ==> Outlasts(keepFor, a.cfg, b.cfg)
  }

  // ----- forgetting is invisible ----------------------------------------------------------

  // A bucket kept for that long has refilled by the time any of the requests may miss it.
  ghost predicate Serves(key: string, keep: real, ops: seq<Op>) {
    forall i :: 0 <= i < |ops| && ops[i].Request? && ops[i].key == key ==>
      Earned(keep, ops[i].cfg.rate) >= ops[i].cfg.burst
  }

  ghost predicate Sane(e: Entry, clock: real) {
    e.tokens >= 0.0 && e.last <= clock && e.keep >= 0.0
  }

  ghost predicate Full(s: Store, clock: real, ops: seq<Op>) {
    forall k :: k in s ==> Sane(s[k], clock) && Serves(k, s[k].keep, ops)
  }

  // The forgetful store holds part of the other one; what it lacks was overdue.
  ghost predicate PartOf(part: Store, s: Store, clock: real) {
    && part.Keys <= s.Keys
    && (forall k :: k in part ==> part[k] == s[k])
    && forall k :: k in s && k !in part ==> clock >= s[k].last + s[k].keep
  }

  lemma SameRefill(part: Store, s: Store, clock: real, ops: seq<Op>)
    requires PartOf(part, s, clock) && Full(s, clock, ops)
    requires ops != [] && ops[0].Request? && SoundConfig(ops[0].cfg) && clock <= ops[0].now
    ensures var op := ops[0];
      Refilled(part, op.key, op.cfg, op.now) == Refilled(s, op.key, op.cfg, op.now) >= 0.0
  {
    hide Earned;
    var op := ops[0];
    if op.key in s {
      var e := s[op.key];
      assert Sane(e, clock) && Serves(op.key, e.keep, ops);
      EarnedGrows(0.0, op.now - e.last, op.cfg.rate);
      if op.key !in part {
        EarnedGrows(e.keep, op.now - e.last, op.cfg.rate);
      }
    }
  }

  lemma ServesTail(key: string, keep: real, ops: seq<Op>)
    requires Serves(key, keep, ops) && ops != []
    ensures Serves(key, keep, ops[1..])
  {
    assert forall i :: 0 <= i < |ops[1..]| ==> ops[1..][i] == ops[i + 1];
  }

  lemma CoveredServes(keepFor: RateConfig -> real, ops: seq<Op>)
    requires Covered(keepFor, ops) && ops != [] && ops[0].Request?
    ensures Serves(ops[0].key, keepFor(ops[0].cfg), ops[1..])
  {
    forall i | 0 <= i < |ops[1..]| && ops[1..][i].Request? && ops[1..][i].key == ops[0].key
      ensures Earned(keepFor(ops[0].cfg), ops[1..][i].cfg.rate) >= ops[1..][i].cfg.burst
    {
      assert Compatible(keepFor, ops[0], ops[i + 1]);
    }
  }

  lemma FullTail(s: Store, clock: real, ops: seq<Op>)
    requires Full(s, clock, ops) && ops != [] && clock <= ops[0].now
    ensures Full(s, ops[0].now, ops[1..])
  {
    forall k | k in s ensures Sane(s[k], ops[0].now) && Serves(k, s[k].keep, ops[1..]) {
      ServesTail(k, s[k].keep, ops);
    }
  }

  lemma RequestKeepsFull(keepFor: RateConfig -> real, s: Store, clock: real, ops: seq<Op>)
    requires Full(s, clock, ops) && Covered(keepFor, ops)
    requires ops != [] && ops[0].Request? && clock <= ops[0].now
    requires Refilled(s, ops[0].key, ops[0].cfg, ops[0].now) >= 0.0
    requires keepFor(ops[0].cfg) >= 0.0
    ensures Full(Next(keepFor, false, s, ops[0]), ops[0].now, ops[1..])
  {
    FullTail(s, clock, ops);
    CoveredServes(keepFor, ops);
    hide Refilled;
    hide Serves;
    hide Covered;
  }

  lemma RequestKeepsPart(keepFor: RateConfig -> real, part: Store, s: Store, clock: real, op: Op)
    requires PartOf(part, s, clock) && op.Request? && clock <= op.now
    requires Refilled(part, op.key, op.cfg, op.now) == Refilled(s, op.key, op.cfg, op.now)
    ensures PartOf(Next(keepFor, true, part, op), Next(keepFor, false, s, op), op.now)
  {
    hide Refilled;
  }

  lemma {:induction false} SameAnswers(keepFor: RateConfig -> real, part: Store, s: Store,
                                       clock: real, ops: seq<Op>)
    requires PartOf(part, s, clock) && Full(s, clock, ops)
    requires Timed(clock, ops) && Covered(keepFor, ops)
    requires forall c :: keepFor(c) >= 0.0
    ensures Answers(keepFor, true, part, ops) == Answers(keepFor, false, s, ops)
    decreases |ops|
  {
    if ops != [] {
      var op, rest := ops[0], ops[1..];
      var part', s' := Next(keepFor, true, part, op), Next(keepFor, false, s, op);
      CoveredTail(keepFor, ops);
      TimedTail(clock, ops);
      if op.Request? {
        SameRefill(part, s, clock, ops);
        RequestKeepsFull(keepFor, s, clock, ops);
        RequestKeepsPart(keepFor, part, s, clock, op);
      } else {
        FullTail(s, clock, ops);
      }
      hide Full;
      SameAnswers(keepFor, part', s', op.now, rest);
    }
  }

  lemma CoveredTail(keepFor: RateConfig -> real, ops: seq<Op>)
    requires Covered(keepFor, ops) && ops != []
    ensures Covered(keepFor, ops[1..])
  {
    hide Compatible;
    hide SoundConfig;
    assert forall i :: 0 <= i < |ops[1..]| ==> ops[1..][i] == ops[i + 1];
  }

  lemma TimedTail(clock: real, ops: seq<Op>)
    requires Timed(clock, ops) && ops != []
    ensures Timed(ops[0].now, ops[1..])
  {
    forall i | 0 < i < |ops[1..]| ensures ops[1..][i - 1].now <= ops[1..][i].now {
      assert ops[1..][i] == ops[i + 1] && ops[1..][i - 1] == ops[i];
    }
  }

  // A store that forgets overdue buckets at arbitrary times answers like one that never does.
  lemma ForgettingIsInvisible(keepFor: RateConfig -> real, clock: real, ops: seq<Op>)
    requires Timed(clock, ops) && Covered(keepFor, ops)
    requires forall c :: keepFor(c) >= 0.0
    ensures Answers(keepFor, true, map[], ops) == Answers(keepFor, false, map[], ops)
  {
    SameAnswers(keepFor, map[], map[], clock, ops);
  }

  // ----- the two stores' retention --------------------------------------------------------

  const JANITOR_KEEP := 300.0

  const MEMORY_KEEP: RateConfig -> real := (c: RateConfig) => JANITOR_KEEP

  function Ceil(x: real): int {
    -((-x).Floor)
  }

  // The key's time to live set by the script.
  function Ttl(c: RateConfig): int
    requires c.rate != 0.0
  {
    Ceil(c.burst / c.rate) + 60
  }

  const REDIS_KEEP: RateConfig -> real :=
    (c: RateConfig) => if c.rate > 0.0 && c.burst >= 0.0 then Ttl(c) as real else 60.0

  lemma TtlOutlastsItself(c: RateConfig)
    requires c.rate > 0.0 && c.burst >= 0.0
    ensures Outlasts(REDIS_KEEP, c, c)
  {
    var x := c.burst / c.rate;
    assert x * c.rate == c.burst;
    assert Ttl(c) as real >= x + 60.0;
    EarnedGrows(x, Ttl(c) as real, c.rate);
  }

  // The janitor never shows when every request's bucket refills within five minutes.
  lemma JanitorIsInvisible(clock: real, ops: seq<Op>)
    requires Timed(clock, ops)
    requires forall i :: 0 <= i < |ops| && ops[i].Request? ==>
      SoundConfig(ops[i].cfg) && Earned(300.0, ops[i].cfg.rate) >= ops[i].cfg.burst
    ensures Answers(MEMORY_KEEP, true, map[], ops) == Answers(MEMORY_KEEP, false, map[], ops)
  {
    ForgettingIsInvisible(MEMORY_KEEP, clock, ops);
  }

  // Key expiry never shows when each key is always used with the same configuration.
  lemma ExpiryIsInvisible(clock: real, ops: seq<Op>)
    requires Timed(clock, ops)
    requires forall i :: 0 <= i < |ops| && ops[i].Request? ==>
      ops[i].cfg.rate > 0.0 && ops[i].cfg.burst >= 0.0
    requires forall i, j :: (0 <= i < j < |ops| && ops[i].Request? && ops[j].Request?
      && ops[i].key == ops[j].key) ==> ops[i].cfg == ops[j].cfg
    ensures Answers(REDIS_KEEP, true, map[], ops) == Answers(REDIS_KEEP, false, map[], ops)
  {
    forall i, j | 0 <= i < j < |ops| ensures Compatible(REDIS_KEEP, ops[i], ops[j]) {
      if ops[i].Request? && ops[j].Request? && ops[i].key == ops[j].key {
        TtlOutlastsItself(ops[i].cfg);
      }
    }
    forall c ensures REDIS_KEEP(c) >= 0.0 {
      if c.rate > 0.0 && c.burst >= 0.0 {
        TtlOutlastsItself(c);
      }
    }
    ForgettingIsInvisible(REDIS_KEEP, clock, ops);
  }

  const TIER_PUBLIC := RateConfig(0.5, 10.0)
  const TIER_AUTH := RateConfig(2.0, 20.0)
  const TIER_ADMIN := RateConfig(5.0, 50.0)
  const ENDPOINT_AUTH := RateConfig(0.083, 3.0)
  const ENDPOINT_CHECKOUT := RateConfig(0.167, 5.0)
  const ENDPOINT_PAYMENTS := RateConfig(0.167, 5.0)

  // A client's tier may change between requests on the same key; both stores keep its bucket
  // long enough for that.
  lemma TiersMayChange(c: RateConfig, d: RateConfig)
    requires c in {TIER_PUBLIC, TIER_AUTH, TIER_ADMIN} && d in {TIER_PUBLIC, TIER_AUTH, TIER_ADMIN}
    ensures Outlasts(MEMORY_KEEP, c, d) && Outlasts(REDIS_KEEP, c, d)
  {
    assert c.burst / c.rate == 20.0 || c.burst / c.rate == 10.0;
    assert REDIS_KEEP(c) == 80.0 || REDIS_KEEP(c) == 70.0;
  }

  lemma EndpointLimitsAreCovered(c: RateConfig)
    requires c in {ENDPOINT_AUTH, ENDPOINT_CHECKOUT, ENDPOINT_PAYMENTS}
    ensures Outlasts(MEMORY_KEEP, c, c) && Outlasts(REDIS_KEEP, c, c)
  {
    TtlOutlastsItself(c);
  }
}
