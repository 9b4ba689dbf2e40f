/** The two-tier cache manager (internal/infra/cache/manager.go): how stale a value can be, and
    what the null sentinel really does.  Times are nanoseconds. */
module CacheManager {
  import opened Common

  // A cached string and the last instant at which it is served (None: for ever).
  datatype Entry = Entry(text: string, expires: Option<int>)

  type Tier = map<string, Entry>

  const NULL_SENTINEL := "__null__"

  // What json.Marshal makes of a Go string without special characters; a json.RawMessage is
  // stored as it is.
  function Quoted(s: string): string {
    "\"" + s + "\""
  }

  // decodes: whether json.Unmarshal into the caller's target accepts a text.
  datatype Config = Config(hasL1: bool, hasL2: bool, l1TTL: int, negativeTTL: int, jitterPct: real,
                           decodes: string -> bool)

  ghost predicate ValidConfig(c: Config) {
    && c.l1TTL > 0 && c.jitterPct >= 0.0
    && !c.decodes(NULL_SENTINEL)          // it is not JSON
    && !c.decodes(Quoted(NULL_SENTINEL))  // targets are structs, not strings
  }

  datatype Caches = Caches(l1: Tier, l2: Tier)

  // A read may miss although an entry is there (eviction, an earlier expiry) or fail; a write
  // may fail without effect.  source is the fetch function's answer: None when it fails,
  // Some(None) when the record does not exist.
  datatype Env = Env(l1Reads: bool, l2Reads: bool, l1Writes: bool, l2Writes: bool, jitter: int,
                     source: Option<Option<string>>)

  datatype Answer = Value(text: string) | NoRecord | Failed | Panic

  predicate Outlived(e: Entry, now: int) {
    e.expires.Some? && now > e.expires.value
  }

  // Both adapters take a non-positive lifetime for "no expiry".
  function Until(now: int, ttl: int): Option<int> {
    if ttl > 0 then Some(now + ttl) else None
  }

  function Read(tier: Tier, works: bool, key: string, now: int): Option<string> {
    if works && key in tier && !Outlived(tier[key], now) then Some(tier[key].text) else None
  }

  function Write(tier: Tier, works: bool, key: string, text: string, expires: Option<int>): Tier {
    if works then tier[key := Entry(text, expires)] else tier
  }

  function Shorter(c: Config, ttl: int): int {
    if ttl > 0 && ttl < c.l1TTL then ttl else c.l1TTL
  }

  // The exclusive upper end of the random jitter; math/rand panics when it is not positive.
  function JitterRange(c: Config, ttl: int): int {
    (ttl as real * c.jitterPct).Floor
  }

  predicate Jitters(c: Config, ttl: int) {
    c.jitterPct > 0.0 && ttl > 0
  }

  ghost predicate ValidEnv(c: Config, ttl: int, env: Env) {
    Jitters(c, ttl) && JitterRange(c, ttl) > 0 ==> 0 <= env.jitter < JitterRange(c, ttl)
  }

  function JitteredTTL(c: Config, ttl: int, jitter: int): int {
    if Jitters(c, ttl) then ttl + jitter else ttl
  }

  // ----- one GetOrFetch -------------------------------------------------------------------

  // Answer, caches afterwards, and whether the fetch function was called.
  datatype Outcome = Outcome(answer: Answer, caches: Caches, fetched: bool)

  function Get(c: Config, s: Caches, key: string, ttl: int, now: int, env: Env): Outcome {
    var v1 := if c.hasL1 then Read(s.l1, env.l1Reads, key, now) else None;
    if v1 == Some(NULL_SENTINEL) then Outcome(NoRecord, s, false)
    else if v1.Some? && c.decodes(v1.value) then Outcome(Value(v1.value), s, false)
    else GetL2(c, s, key, ttl, now, env)
  }

  function GetL2(c: Config, s: Caches, key: string, ttl: int, now: int, env: Env): Outcome {
    var v2 := if c.hasL2 then Read(s.l2, env.l2Reads, key, now) else None;
    if v2 == Some(NULL_SENTINEL) then
      Outcome(NoRecord,
              if c.hasL1 then s.(l1 := Write(s.l1, env.l1Writes, key, Quoted(NULL_SENTINEL), Until(now, c.negativeTTL)))
              else s, false)
    else if v2.Some? && c.decodes(v2.value) then
      Outcome(Value(v2.value),
              if c.hasL1 then s.(l1 := Write(s.l1, env.l1Writes, key, v2.value, Until(now, Shorter(c, ttl))))
              else s, false)
    else if v2.Some? && !c.hasL1 then Outcome(Failed, s, false)
    else Fetch(c, s, key, ttl, now, env)
  }

  function Fetch(c: Config, s: Caches, key: string, ttl: int, now: int, env: Env): Outcome {
    match env.source
    case None => Outcome(Failed, s, true)
    case Some(None) =>
      var text, exp := Quoted(NULL_SENTINEL), Until(now, c.negativeTTL);
      Outcome(NoRecord,
              if c.negativeTTL <= 0 then s
              else Caches(if c.hasL1 then Write(s.l1, env.l1Writes, key, text, exp) else s.l1,
                          if c.hasL2 then Write(s.l2, env.l2Writes, key, text, exp) else s.l2), true)
    case Some(Some(text)) =>
      if !c.decodes(text) then Outcome(Failed, s, true)
      else if c.hasL2 && Jitters(c, ttl) && JitterRange(c, ttl) <= 0 then Outcome(Panic, s, true)
      else
        var l2ttl := JitteredTTL(c, ttl, env.jitter);
        var l2 := if c.hasL2 then Write(s.l2, env.l2Writes, key, text, Until(now, l2ttl)) else s.l2;
        var l1 := if c.hasL1 then Write(s.l1, env.l1Writes, key, text, Until(now, Shorter(c, ttl))) else s.l1;
        Outcome(Value(text), Caches(l1, l2), true)
  }

  function Invalidated(c: Config, s: Caches, key: string, l1ok: bool, l2ok: bool): Caches {
    Caches(if c.hasL1 && l1ok then s.l1 - {key} else s.l1,
           if c.hasL2 && l2ok then s.l2 - {key} else s.l2)
  }

  // ----- staleness ------------------------------------------------------------------------

  // What the source of truth held for a key at a time.
  type History = (string, int) -> Option<string>

  datatype Call =
    | GetOrFetch(key: string, now: int, env: Env)
    | Invalidate(key: string, now: int, l1ok: bool, l2ok: bool)

  function Next(c: Config, ttlOf: string -> int, s: Caches, call: Call): Caches {
    match call
    case GetOrFetch(key, now, env) => Get(c, s, key, ttlOf(key), now, env).caches
    case Invalidate(key, _, l1ok, l2ok) => Invalidated(c, s, key, l1ok, l2ok)
  }

  function Run(c: Config, ttlOf: string -> int, s: Caches, calls: seq<Call>): Caches
    decreases |calls|
  {
    if calls == [] then s else Run(c, ttlOf, Next(c, ttlOf, s, calls[0]), calls[1..])
  }

  // A successful fetch answers what the source holds at that time.
  ghost predicate Truthful(src: History, key: string, now: int, env: Env) {
    env.source.Some? ==> env.source.value == src(key, now)
  }

  ghost predicate GoodCall(c: Config, src: History, ttlOf: string -> int, call: Call) {
    call.GetOrFetch? ==>
      && ValidEnv(c, ttlOf(call.key), call.env)
      && Truthful(src, call.key, call.now, call.env)
  }

  ghost predicate Timed(clock: int, calls: seq<Call>) {
    && (calls != [] ==> clock <= calls[0].now)
    && forall i :: 0 < i < |calls| ==> calls[i - 1].now <= calls[i].now
  }

  // The longest life an entry can be given in L2.
  function L2Life(c: Config, ttl: int): int {
    if Jitters(c, ttl) && JitterRange(c, ttl) > 0 then ttl + JitterRange(c, ttl) - 1 else ttl
  }

  // That life, and another one in L1 after a backfill at the last moment.
  function MaxAge(c: Config, ttl: int): int {
    L2Life(c, ttl) + Shorter(c, ttl)
  }

  lemma MaxAgeInReals(c: Config, ttl: int)
    requires ValidConfig(c) && ttl > 0
    ensures MaxAge(c, ttl) as real <= ttl as real * (1.0 + c.jitterPct) + Shorter(c, ttl) as real
    ensures Shorter(c, ttl) == if ttl < c.l1TTL then ttl else c.l1TTL
  {
    assert ttl as real * (1.0 + c.jitterPct) == ttl as real + ttl as real * c.jitterPct;
    assert ttl as real * c.jitterPct >= 0.0;
  }

  // The text was the source's value at some time not after now, and is served no longer than
  // life after it.
  ghost predicate Born(src: History, key: string, e: Entry, life: int, now: int) {
    exists t :: BornAt(src, key, e, life, now, t)
  }

  ghost predicate BornAt(src: History, key: string, e: Entry, life: int, now: int, t: int) {
    t <= now && src(key, t) == Some(e.text) && e.expires.Some? && e.expires.value - t <= life
  }

  ghost predicate FreshTier(c: Config, src: History, ttlOf: string -> int, tier: Tier, now: int, first: bool) {
    forall k :: k in tier ==>
      || tier[k].text == Quoted(NULL_SENTINEL)
      || (c.decodes(tier[k].text)
          && Born(src, k, tier[k], if first then MaxAge(c, ttlOf(k)) else L2Life(c, ttlOf(k)), now))
  }

  ghost predicate Fresh(c: Config, src: History, ttlOf: string -> int, s: Caches, now: int) {
    FreshTier(c, src, ttlOf, s.l1, now, true) && FreshTier(c, src, ttlOf, s.l2, now, false)
  }

  lemma FreshLater(c: Config, src: History, ttlOf: string -> int, s: Caches, t: int, u: int)
    requires Fresh(c, src, ttlOf, s, t) && t <= u
    ensures Fresh(c, src, ttlOf, s, u)
  {
    forall k | k in s.l1 && s.l1[k].text != Quoted(NULL_SENTINEL)
      ensures Born(src, k, s.l1[k], MaxAge(c, ttlOf(k)), u)
    {
      var b :| BornAt(src, k, s.l1[k], MaxAge(c, ttlOf(k)), t, b);
      assert BornAt(src, k, s.l1[k], MaxAge(c, ttlOf(k)), u, b);
    }
    forall k | k in s.l2 && s.l2[k].text != Quoted(NULL_SENTINEL)
      ensures Born(src, k, s.l2[k], L2Life(c, ttlOf(k)), u)
    {
      var b :| BornAt(src, k, s.l2[k], L2Life(c, ttlOf(k)), t, b);
      assert BornAt(src, k, s.l2[k], L2Life(c, ttlOf(k)), u, b);
    }
  }

  // A fetched value is stored for at most the tier's life.
  lemma StoredLife(c: Config, ttl: int, jitter: int)
    requires ValidConfig(c) && ttl > 0
    requires Jitters(c, ttl) ==> 0 <= jitter < JitterRange(c, ttl)
    ensures 0 < JitteredTTL(c, ttl, jitter) <= L2Life(c, ttl)
    ensures JitteredTTL(c, ttl, jitter) == L2Life(c, ttl) <==> !Jitters(c, ttl) || jitter == JitterRange(c, ttl) - 1
    ensures 0 < Shorter(c, ttl) <= MaxAge(c, ttl)
  {
  }

  lemma {:induction false} GetKeepsFresh(c: Config, src: History, ttlOf: string -> int, s: Caches, call: Call)
    requires ValidConfig(c) && call.GetOrFetch? && ttlOf(call.key) > 0
    requires GoodCall(c, src, ttlOf, call) && Fresh(c, src, ttlOf, s, call.now)
    ensures Fresh(c, src, ttlOf, Next(c, ttlOf, s, call), call.now)
    ensures var r := Get(c, s, call.key, ttlOf(call.key), call.now, call.env).answer;
      r.Value? ==> exists t :: t <= call.now && src(call.key, t) == Some(r.text)
                               && call.now - t <= MaxAge(c, ttlOf(call.key))
  {
    var key, now, env, ttl := call.key, call.now, call.env, ttlOf(call.key);
    var o := Get(c, s, key, ttl, now, env);
    if o.fetched {
      FetchKeepsFresh(c, src, ttlOf, s, key, now, env);
    } else if o.answer.Value? {
      HitKeepsFresh(c, src, ttlOf, s, key, now, env);
    }
  }

  lemma FetchKeepsFresh(c: Config, src: History, ttlOf: string -> int, s: Caches, key: string, now: int, env: Env)
    requires ValidConfig(c) && ttlOf(key) > 0 && ValidEnv(c, ttlOf(key), env) && Truthful(src, key, now, env)
    requires Fresh(c, src, ttlOf, s, now)
    ensures var o := Fetch(c, s, key, ttlOf(key), now, env);
      && Fresh(c, src, ttlOf, o.caches, now)
      && (o.answer.Value? ==> src(key, now) == Some(o.answer.text) && MaxAge(c, ttlOf(key)) >= 0)
  {
    var ttl := ttlOf(key);
    var o := Fetch(c, s, key, ttl, now, env);
    if o.answer.Value? {
      var text := o.answer.text;
      if c.hasL2 || !Jitters(c, ttl) {
        StoredLife(c, ttl, env.jitter);
        assert BornAt(src, key, Entry(text, Until(now, JitteredTTL(c, ttl, env.jitter))), L2Life(c, ttl), now, now);
      } else {
        ShorterLife(c, ttl);
      }
      assert BornAt(src, key, Entry(text, Until(now, Shorter(c, ttl))), MaxAge(c, ttl), now, now);
    }
    hide Quoted;
  }

  lemma ShorterLife(c: Config, ttl: int)
    requires ValidConfig(c) && ttl > 0
    ensures 0 < Shorter(c, ttl) <= MaxAge(c, ttl) && L2Life(c, ttl) > 0
  {
  }

  lemma HitKeepsFresh(c: Config, src: History, ttlOf: string -> int, s: Caches, key: string, now: int, env: Env)
    requires ValidConfig(c) && ttlOf(key) > 0
    requires Fresh(c, src, ttlOf, s, now)
    requires var o := Get(c, s, key, ttlOf(key), now, env); !o.fetched && o.answer.Value?
    ensures var o := Get(c, s, key, ttlOf(key), now, env);
      && Fresh(c, src, ttlOf, o.caches, now)
      && exists t :: t <= now && src(key, t) == Some(o.answer.text)
                     && now - t <= MaxAge(c, ttlOf(key))
  {
    var ttl := ttlOf(key);
    var o := Get(c, s, key, ttl, now, env);
    var v1 := if c.hasL1 then Read(s.l1, env.l1Reads, key, now) else None;
    if v1.Some? && c.decodes(v1.value) {
      var t :| BornAt(src, key, s.l1[key], MaxAge(c, ttl), now, t);
    } else {
      var t :| BornAt(src, key, s.l2[key], L2Life(c, ttl), now, t);
      assert BornAt(src, key, Entry(o.answer.text, Until(now, Shorter(c, ttl))), MaxAge(c, ttl), now, t);
    }
  }

  lemma NextKeepsFresh(c: Config, src: History, ttlOf: string -> int, s: Caches, call: Call)
    requires ValidConfig(c) && forall k :: ttlOf(k) > 0
    requires GoodCall(c, src, ttlOf, call) && Fresh(c, src, ttlOf, s, call.now)
    ensures Fresh(c, src, ttlOf, Next(c, ttlOf, s, call), call.now)
  {
    if call.GetOrFetch? {
      GetKeepsFresh(c, src, ttlOf, s, call);
    }
  }

  lemma {:induction false} RunFresh(c: Config, src: History, ttlOf: string -> int, s: Caches, clock: int,
      calls: seq<Call>)
    requires ValidConfig(c) && forall k :: ttlOf(k) > 0
    requires Timed(clock, calls) && forall call :: call in calls ==> GoodCall(c, src, ttlOf, call)
    requires Fresh(c, src, ttlOf, s, clock)
    ensures Fresh(c, src, ttlOf, Run(c, ttlOf, s, calls), if calls == [] then clock else calls[|calls| - 1].now)
    decreases |calls|
  {
    if calls != [] {
      var call, rest := calls[0], calls[1..];
      FreshLater(c, src, ttlOf, s, clock, call.now);
      NextKeepsFresh(c, src, ttlOf, s, call);
      forall i | 0 < i < |rest| ensures rest[i - 1].now <= rest[i].now {
        assert rest[i - 1] == calls[i] && rest[i] == calls[i + 1];
      }
      RunFresh(c, src, ttlOf, Next(c, ttlOf, s, call), call.now, rest);
    }
  }

  // In every serialised run, with entries lost and writes failing at will and even without any
  // invalidation, a returned value was the source's no longer ago than
  // ttl * (1 + jitter) + min(l1TTL, ttl).
  lemma StalenessIsBounded(c: Config, src: History, ttlOf: string -> int, clock: int, calls: seq<Call>,
                           key: string, now: int, env: Env)
    requires ValidConfig(c) && forall k :: ttlOf(k) > 0
    requires Timed(clock, calls + [GetOrFetch(key, now, env)])
    requires forall call :: call in calls + [GetOrFetch(key, now, env)] ==> GoodCall(c, src, ttlOf, call)
    ensures var r := Get(c, Run(c, ttlOf, Caches(map[], map[]), calls), key, ttlOf(key), now, env).answer;
      r.Value? ==> exists t :: t <= now && src(key, t) == Some(r.text)
                               && now - t <= MaxAge(c, ttlOf(key))
  {
    var all := calls + [GetOrFetch(key, now, env)];
    assert all[|calls|] in all;
    assert forall call :: call in calls ==> call in all;
    assert forall i :: 0 <= i < |calls| ==> all[i] == calls[i];
    forall i | 0 < i < |calls| ensures calls[i - 1].now <= calls[i].now {
      assert all[i - 1].now <= all[i].now;
    }
    var s := Run(c, ttlOf, Caches(map[], map[]), calls);
    RunFresh(c, src, ttlOf, Caches(map[], map[]), clock, calls);
    var last := if calls == [] then clock else calls[|calls| - 1].now;
    if calls != [] {
      assert all[|calls| - 1].now <= all[|calls|].now;
    }
    FreshLater(c, src, ttlOf, s, last, now);
    GetKeepsFresh(c, src, ttlOf, s, GetOrFetch(key, now, env));
  }

  // The bound is reached: a value fetched at time 0 with the largest jitter is still returned
  // after its whole life in L2 and, backfilled at the last moment, another whole life in L1,
  // whatever the source holds by then.
  lemma StalenessIsReached(c: Config, key: string, ttl: int, text: string, later: Env)
    requires ValidConfig(c) && c.hasL1 && c.hasL2 && ttl > 0 && c.decodes(text)
    requires Jitters(c, ttl) ==> JitterRange(c, ttl) > 0
    requires later.l1Reads
    ensures var jitter := JitterRange(c, ttl) - 1;
      var fetch := Env(true, true, true, true, jitter, Some(Some(text)));
      var backfill := Env(false, true, true, true, jitter, None);
      var s1 := Get(c, Caches(map[], map[]), key, ttl, 0, fetch).caches;
      var s2 := Get(c, s1, key, ttl, L2Life(c, ttl), backfill).caches;
      Get(c, s2, key, ttl, MaxAge(c, ttl), later).answer == Value(text)
  {
    var jitter := JitterRange(c, ttl) - 1;
    var fetch := Env(true, true, true, true, jitter, Some(Some(text)));
    StoredLife(c, ttl, jitter);
    var s1 := Get(c, Caches(map[], map[]), key, ttl, 0, fetch).caches;
    assert s1.l2 == map[key := Entry(text, Some(L2Life(c, ttl)))];
    hide Quoted, JitterRange, Jitters;
  }

  // ----- the jitter's panic ---------------------------------------------------------------

  // A tier that ends the lookup: it holds the bare sentinel or something that decodes.
  predicate Serves(c: Config, has: bool, tier: Tier, works: bool, key: string, now: int) {
    has && var v := Read(tier, works, key, now);
           v.Some? && (v.value == NULL_SENTINEL || c.decodes(v.value))
  }

  // A call panics exactly when no tier answers, the fetch finds a record, and the jitter that
  // its L2 write asks for rounds to nothing.
  lemma PanicsIff(c: Config, s: Caches, key: string, ttl: int, now: int, env: Env)
    ensures Get(c, s, key, ttl, now, env).answer == Panic <==>
      && !Serves(c, c.hasL1, s.l1, env.l1Reads, key, now)
      && !Serves(c, c.hasL2, s.l2, env.l2Reads, key, now)
      && (Read(s.l2, env.l2Reads, key, now).Some? ==> c.hasL1)
      && env.source.Some? && env.source.value.Some? && c.decodes(env.source.value.value)
      && c.hasL2 && c.jitterPct > 0.0 && ttl > 0 && ttl as real * c.jitterPct < 1.0
  {
    RangeRoundsToZero(c, ttl);
    hide Quoted, Until, JitteredTTL, Shorter, JitterRange, Read, Write;
  }

  // ... and fails exactly when no tier answers and the fetch fails, finds something that does
  // not decode, or is not reached: an undecodable hit in L2 ends the lookup if there is no L1.
  lemma FailsIff(c: Config, s: Caches, key: string, ttl: int, now: int, env: Env)
    ensures Get(c, s, key, ttl, now, env).answer == Failed <==>
      && !Serves(c, c.hasL1, s.l1, env.l1Reads, key, now)
      && !Serves(c, c.hasL2, s.l2, env.l2Reads, key, now)
      && (|| (c.hasL2 && !c.hasL1 && Read(s.l2, env.l2Reads, key, now).Some?)
          || env.source.None? || (env.source.value.Some? && !c.decodes(env.source.value.value)))
  {
    hide Quoted, Until, JitteredTTL, Shorter, JitterRange, Read, Write;
  }

  // What a call answers otherwise: the text of the first tier that answers, or of the record
  // that the fetch finds.
  lemma AnswerIs(c: Config, s: Caches, key: string, ttl: int, now: int, env: Env)
    ensures var o := Get(c, s, key, ttl, now, env);
      var first := Serves(c, c.hasL1, s.l1, env.l1Reads, key, now);
      var second := Serves(c, c.hasL2, s.l2, env.l2Reads, key, now);
      && (o.fetched ==> !first && !second)
      && (first || second ==> !o.fetched)
      && (forall text :: o.answer == Value(text) <==>
            (if first then s.l1[key].text == text != NULL_SENTINEL
             else if second then s.l2[key].text == text != NULL_SENTINEL
             else o.answer !in {Failed, Panic} && env.source == Some(Some(text))))
  {
    hide Quoted, Until, JitteredTTL, Shorter, JitterRange, Write;
  }

  // A value that L1 did not hold is served from L1 for the L1 lifetime if its write worked, and
  // one that was fetched is served from L2 for at least its ttl: no further fetch is needed.
  lemma ReadAgain(c: Config, s: Caches, key: string, ttl: int, now: int, env: Env, text: string,
                  ttl': int, later: int, env': Env)
    requires ValidConfig(c) && ValidEnv(c, ttl, env) && text != NULL_SENTINEL
    requires !Serves(c, c.hasL1, s.l1, env.l1Reads, key, now)
    requires Get(c, s, key, ttl, now, env).answer == Value(text)
    ensures var o := Get(c, s, key, ttl, now, env);
      var again := Get(c, o.caches, key, ttl', later, env');
      && (c.hasL1 && env.l1Writes && env'.l1Reads && later <= now + Shorter(c, ttl) ==>
            again.answer == Value(text) && !again.fetched)
      && (o.fetched && c.hasL2 && env.l2Writes && env'.l2Reads && (ttl <= 0 || later <= now + ttl)
            && !Serves(c, c.hasL1, o.caches.l1, env'.l1Reads, key, later) ==>
            again.answer == Value(text) && !again.fetched)
  {
    hide Quoted, JitterRange;
  }

  ghost predicate SameEntry(a: Tier, b: Tier, key: string) {
    (key in a <==> key in b) && (key in a ==> b[key] == a[key])
  }

  // Neither a read nor an invalidation touches another key.
  lemma OtherKeysStay(c: Config, ttlOf: string -> int, s: Caches, call: Call, key: string)
    requires key != call.key
    ensures var s' := Next(c, ttlOf, s, call); SameEntry(s.l1, s'.l1, key) && SameEntry(s.l2, s'.l2, key)
  {
    hide Quoted, Until, JitteredTTL, Shorter, JitterRange, Read;
  }

  lemma RangeRoundsToZero(c: Config, ttl: int)
    ensures JitterRange(c, ttl) <= 0 <==> ttl as real * c.jitterPct < 1.0
  {
    FloorBelowOne(ttl as real * c.jitterPct);
  }

  lemma FloorBelowOne(x: real)
    ensures x.Floor <= 0 <==> x < 1.0
  {
    if x.Floor >= 1 {
      assert x.Floor as real >= 1.0;
    } else {
      assert x.Floor as real <= 0.0;
    }
  }

  // ----- the null sentinel ----------------------------------------------------------------

  ghost predicate NoSentinel(s: Caches) {
    && (forall k :: k in s.l1 ==> s.l1[k].text != NULL_SENTINEL)
    && (forall k :: k in s.l2 ==> s.l2[k].text != NULL_SENTINEL)
  }

  lemma NextKeepsNoSentinel(c: Config, ttlOf: string -> int, s: Caches, call: Call)
    requires !c.decodes(NULL_SENTINEL) && NoSentinel(s)
    ensures NoSentinel(Next(c, ttlOf, s, call))
  {
    assert Quoted(NULL_SENTINEL)[0] != NULL_SENTINEL[0];
    hide Quoted, Until, JitteredTTL, Shorter, JitterRange, Outlived;
  }

  lemma {:induction false} RunKeepsNoSentinel(c: Config, ttlOf: string -> int, s: Caches, calls: seq<Call>)
    requires !c.decodes(NULL_SENTINEL) && NoSentinel(s)
    ensures NoSentinel(Run(c, ttlOf, s, calls))
    decreases |calls|
  {
    if calls != [] {
      NextKeepsNoSentinel(c, ttlOf, s, calls[0]);
      RunKeepsNoSentinel(c, ttlOf, Next(c, ttlOf, s, calls[0]), calls[1..]);
    }
  }

  // The sentinel is stored with JSON quotes and compared without them: in every state a run
  // can reach, "not found" is only ever answered after the source said so again.
  lemma NotFoundIsNeverCached(c: Config, ttlOf: string -> int, calls: seq<Call>, key: string, now: int, env: Env)
    requires !c.decodes(NULL_SENTINEL)
    ensures var o := Get(c, Run(c, ttlOf, Caches(map[], map[]), calls), key, ttlOf(key), now, env);
      o.answer == NoRecord ==> o.fetched && env.source == Some(None)
  {
    RunKeepsNoSentinel(c, ttlOf, Caches(map[], map[]), calls);
    hide Quoted, Until, JitteredTTL, Shorter, JitterRange, Outlived, Write, Run;
  }

  // ----- invalidation ---------------------------------------------------------------------

  type Source = map<string, string>

  function Held(src: Source, key: string): Option<string> {
    if key in src then Some(src[key]) else None
  }

  // A read, or an update of the source followed by an Invalidate that works on both tiers.
  // A read's env.source only says whether the fetch works.
  datatype Op = Lookup(key: string, now: int, env: Env) | Update(key: string, value: Option<string>)

  datatype World = World(source: Source, caches: Caches)

  function Answering(src: Source, key: string, env: Env): Env {
    env.(source := if env.source.Some? then Some(Held(src, key)) else None)
  }

  function WorldNext(c: Config, ttlOf: string -> int, w: World, op: Op): World {
    match op
    case Lookup(key, now, env) =>
      w.(caches := Get(c, w.caches, key, ttlOf(key), now, Answering(w.source, key, env)).caches)
    case Update(key, value) =>
      World(if value.Some? then w.source[key := value.value] else w.source - {key},
            Invalidated(c, w.caches, key, true, true))
  }

  function WorldRun(c: Config, ttlOf: string -> int, w: World, ops: seq<Op>): World
    decreases |ops|
  {
    if ops == [] then w else WorldRun(c, ttlOf, WorldNext(c, ttlOf, w, ops[0]), ops[1..])
  }

  ghost predicate CurrentTier(c: Config, src: Source, tier: Tier) {
    forall k :: k in tier && tier[k].text != Quoted(NULL_SENTINEL) ==>
      c.decodes(tier[k].text) && Held(src, k) == Some(tier[k].text)
  }

  ghost predicate Current(c: Config, w: World) {
    && (c.hasL1 ==> CurrentTier(c, w.source, w.caches.l1))
    && (c.hasL2 ==> CurrentTier(c, w.source, w.caches.l2))
  }

  lemma {:induction false} CurrentForever(c: Config, ttlOf: string -> int, w: World, ops: seq<Op>)
    requires ValidConfig(c) && Current(c, w)
    ensures Current(c, WorldRun(c, ttlOf, w, ops))
    decreases |ops|
  {
    if ops != [] {
      NextKeepsCurrent(c, ttlOf, w, ops[0]);
      CurrentForever(c, ttlOf, WorldNext(c, ttlOf, w, ops[0]), ops[1..]);
    }
  }

  lemma NextKeepsCurrent(c: Config, ttlOf: string -> int, w: World, op: Op)
    requires ValidConfig(c) && Current(c, w)
    ensures Current(c, WorldNext(c, ttlOf, w, op))
  {
    hide Quoted, Shorter, JitterRange, JitteredTTL;
  }

  // If every source update is followed by a successful invalidation, reads are never stale.
  lemma InvalidatedReadsAreCurrent(c: Config, ttlOf: string -> int, ops: seq<Op>, key: string, now: int, env: Env)
    requires ValidConfig(c)
    ensures var w := WorldRun(c, ttlOf, World(map[], Caches(map[], map[])), ops);
      var r := Get(c, w.caches, key, ttlOf(key), now, Answering(w.source, key, env)).answer;
      && (r.Value? ==> Held(w.source, key) == Some(r.text))
      && (r == NoRecord ==> Held(w.source, key) == None)
  {
    CurrentForever(c, ttlOf, World(map[], Caches(map[], map[])), ops);
    assert Quoted(NULL_SENTINEL)[0] != NULL_SENTINEL[0];
    hide Quoted, Shorter, JitterRange, JitteredTTL;
  }

  // ----- the manager object ---------------------------------------------------------------

  class Manager {
    const config: Config
    var l1: Tier
    var l2: Tier

    constructor (config: Config)
      ensures this.config == config && l1 == map[] && l2 == map[]
    {
      this.config := config;
      l1, l2 := map[], map[];
    }

    method GetOrFetch(key: string, ttl: int, now: int, env: Env) returns (answer: Answer, fetched: bool)
      modifies this
      ensures Outcome(answer, Caches(l1, l2), fetched) == Get(config, Caches(old(l1), old(l2)), key, ttl, now, env)
    {
      fetched := false;
      if config.hasL1 {
        var val := Read(l1, env.l1Reads, key, now);
        if val.Some? {
          if val.value == NULL_SENTINEL {
            return NoRecord, fetched;
          }
          if config.decodes(val.value) {
            return Value(val.value), fetched;
          }
        }
      }
      if config.hasL2 {
        var val := Read(l2, env.l2Reads, key, now);
        if val.Some? {
          if val.value == NULL_SENTINEL {
            if config.hasL1 {
              l1 := Write(l1, env.l1Writes, key, Quoted(NULL_SENTINEL), Until(now, config.negativeTTL));
            }
            return NoRecord, fetched;
          }
          if config.hasL1 {
            if config.decodes(val.value) {
              l1 := Write(l1, env.l1Writes, key, val.value, Until(now, Shorter(config, ttl)));
              return Value(val.value), fetched;
            }
          } else {
            return if config.decodes(val.value) then Value(val.value) else Failed, fetched;
          }
        }
      }
      fetched := true;
      if env.source.None? {
        return Failed, fetched;
      }
      if env.source.value.None? {
        if config.negativeTTL > 0 {
          if config.hasL2 {
            l2 := Write(l2, env.l2Writes, key, Quoted(NULL_SENTINEL), Until(now, config.negativeTTL));
          }
          if config.hasL1 {
            l1 := Write(l1, env.l1Writes, key, Quoted(NULL_SENTINEL), Until(now, config.negativeTTL));
          }
        }
        return NoRecord, fetched;
      }
      var text := env.source.value.value;
      if !config.decodes(text) {
        return Failed, fetched;
      }
      if config.hasL2 {
        if Jitters(config, ttl) && JitterRange(config, ttl) <= 0 {
          return Panic, fetched;
        }
        l2 := Write(l2, env.l2Writes, key, text, Until(now, JitteredTTL(config, ttl, env.jitter)));
      }
      if config.hasL1 {
        l1 := Write(l1, env.l1Writes, key, text, Until(now, Shorter(config, ttl)));
      }
      return Value(text), fetched;
    }

    method Invalidate(key: string, l1ok: bool, l2ok: bool) returns (ok: bool)
      modifies this
      ensures Caches(l1, l2) == Invalidated(config, Caches(old(l1), old(l2)), key, l1ok, l2ok)
      ensures ok <==> (config.hasL1 ==> l1ok) && (config.hasL2 ==> l2ok)
      ensures ok ==> (config.hasL1 ==> key !in l1) && (config.hasL2 ==> key !in l2)
      ensures forall k :: k != key ==> SameEntry(old(l1), l1, k) && SameEntry(old(l2), l2, k)
    {
      ok := true;
      if config.hasL1 {
        if l1ok {
          l1 := l1 - {key};
        } else {
          ok := false;
        }
      }
      if config.hasL2 {
        if l2ok {
          l2 := l2 - {key};
        } else {
          ok := false;
        }
      }
    }
  }
}
