/** Which requests the token bucket of internal/gateway/middleware/ratelimit.go lets through, said
    without tokens: from the times of the earlier requests and the answers they got. */
module RateLimitAdmission {
  import opened RateLimit

  predicate IsFor(key: string, op: Op) {
    op.Request? && op.key == key
  }

  // The requests of one key along a trace, and how they were answered.
  function Of(key: string, ops: seq<Op>): (r: seq<Op>)
    ensures forall i :: 0 <= i < |r| ==> r[i].Request?
  {
    if ops == [] then []
    else
      var init, op := ops[..|ops| - 1], ops[|ops| - 1];
      Of(key, init) + if IsFor(key, op) then [op] else []
  }

  function Verdicts(keepFor: RateConfig -> real, forgets: bool, key: string, ops: seq<Op>): (r: seq<bool>)
    ensures |r| == |Of(key, ops)|
  {
    if ops == [] then []
    else
      var init, op := ops[..|ops| - 1], ops[|ops| - 1];
      Verdicts(keepFor, forgets, key, init)
      + if IsFor(key, op) then [Allowed(Run(keepFor, forgets, map[], init), key, op.cfg, op.now)] else []
  }

  // Requests let through from the j-th on.
  function Grants(verdicts: seq<bool>, j: nat): nat {
    if |verdicts| <= j then 0
    else Grants(verdicts[..|verdicts| - 1], j) + if verdicts[|verdicts| - 1] then 1 else 0
  }

  // What is earned from the j-th request until now, at the rate of each request that ends a
  // stretch of waiting.
  function Income(past: seq<Op>, cfg: RateConfig, now: real, j: nat): real
    requires j < |past| && forall i :: 0 <= i < |past| ==> past[i].Request?
  {
    var n := |past| - 1;
    var last := past[n];
    Earned(now - last.now, cfg.rate) + if j == n then 0.0 else Income(past[..n], last.cfg, last.now, j)
  }

  // Counted from any earlier request, the grants and this one fit into that request's burst and
  // what was earned since.
  ghost predicate Fits(past: seq<Op>, verdicts: seq<bool>, cfg: RateConfig, now: real, wanted: real)
    requires forall i :: 0 <= i < |past| ==> past[i].Request?
  {
    && wanted <= cfg.burst
    && forall j :: 0 <= j < |past| ==> FitsFrom(past, verdicts, cfg, now, wanted, j)
  }

  ghost predicate FitsFrom(past: seq<Op>, verdicts: seq<bool>, cfg: RateConfig, now: real, wanted: real, j: nat)
    requires j < |past| && forall i :: 0 <= i < |past| ==> past[i].Request?
  {
    Grants(verdicts, j) as real + wanted <= past[j].cfg.burst + Income(past, cfg, now, j)
  }

  lemma {:induction false} RunSnoc(keepFor: RateConfig -> real, forgets: bool, s: Store, ops: seq<Op>, op: Op)
    ensures Run(keepFor, forgets, s, ops + [op]) == Next(keepFor, forgets, Run(keepFor, forgets, s, ops), op)
    ensures Answers(keepFor, forgets, s, ops + [op]) == Answers(keepFor, forgets, s, ops)
              + (if op.Request? then [Allowed(Run(keepFor, forgets, s, ops), op.key, op.cfg, op.now)] else [])
    decreases |ops|
  {
    if ops == [] {
      assert [op][1..] == [] && [] + [op] == [op];
    } else {
      assert (ops + [op])[1..] == ops[1..] + [op];
      hide Next;
      RunSnoc(keepFor, forgets, Next(keepFor, forgets, s, ops[0]), ops[1..], op);
    }
  }

  // One more request on record: what is wanted after it was wanted before, less what is earned
  // in between and with its own grant on top.
  lemma FitsOneMore(past: seq<Op>, verdicts: seq<bool>, op: Op, verdict: bool, cfg: RateConfig, now: real, wanted: real)
    requires op.Request? && |verdicts| == |past| && forall i :: 0 <= i < |past| ==> past[i].Request?
    ensures var before := wanted + (if verdict then 1.0 else 0.0) - Earned(now - op.now, cfg.rate);
      Fits(past + [op], verdicts + [verdict], cfg, now, wanted) <==>
      wanted <= cfg.burst && Fits(past, verdicts, op.cfg, op.now, before)
  {
    var before := wanted + (if verdict then 1.0 else 0.0) - Earned(now - op.now, cfg.rate);
    var past', verdicts' := past + [op], verdicts + [verdict];
    assert past'[..|past|] == past && verdicts'[..|past|] == verdicts;
    assert verdicts'[..|verdicts'| - 1] == verdicts && past'[|past|] == op;
    assert Grants(verdicts', |past|) == if verdict then 1 else 0;
    assert Income(past', cfg, now, |past|) == Earned(now - op.now, cfg.rate);
    assert FitsFrom(past', verdicts', cfg, now, wanted, |past|) <==> before <= op.cfg.burst;
    forall j: nat | j < |past|
      ensures FitsFrom(past', verdicts', cfg, now, wanted, j) <==> FitsFrom(past, verdicts, op.cfg, op.now, before, j)
    {
    }
    hide FitsFrom;
  }

  // The bucket holds what fits.
  lemma {:induction false} LevelIs(keepFor: RateConfig -> real, ops: seq<Op>, key: string, cfg: RateConfig,
                                   now: real, wanted: real)
    ensures Refilled(Run(keepFor, false, map[], ops), key, cfg, now) >= wanted <==>
            Fits(Of(key, ops), Verdicts(keepFor, false, key, ops), cfg, now, wanted)
    decreases |ops|
  {
    if ops != [] {
      var init, op := ops[..|ops| - 1], ops[|ops| - 1];
      var s := Run(keepFor, false, map[], init);
      assert ops == init + [op];
      RunSnoc(keepFor, false, map[], init, op);
      if IsFor(key, op) {
        var verdict := Allowed(s, key, op.cfg, op.now);
        var before := wanted + (if verdict then 1.0 else 0.0) - Earned(now - op.now, cfg.rate);
        FitsOneMore(Of(key, init), Verdicts(keepFor, false, key, init), op, verdict, cfg, now, wanted);
        LevelIs(keepFor, init, key, op.cfg, op.now, before);
        RefilledAfter(keepFor, s, op, cfg, now);
      } else {
        LevelIs(keepFor, init, key, cfg, now, wanted);
        assert Of(key, ops) == Of(key, init);
        assert Verdicts(keepFor, false, key, ops) == Verdicts(keepFor, false, key, init);
        RefilledElsewhere(keepFor, s, op, key, cfg, now);
      }
      hide Fits, Earned, Run, Next, Refilled, Allowed;
    }
  }

  lemma RefilledAfter(keepFor: RateConfig -> real, s: Store, op: Op, cfg: RateConfig, now: real)
    requires op.Request?
    ensures Refilled(Next(keepFor, false, s, op), op.key, cfg, now) ==
            Min(cfg.burst, Refilled(s, op.key, op.cfg, op.now)
              - (if Allowed(s, op.key, op.cfg, op.now) then 1.0 else 0.0) + Earned(now - op.now, cfg.rate))
  {
    hide Earned;
  }

  lemma RefilledElsewhere(keepFor: RateConfig -> real, s: Store, op: Op, key: string, cfg: RateConfig, now: real)
    requires !IsFor(key, op)
    ensures Refilled(Next(keepFor, false, s, op), key, cfg, now) == Refilled(s, key, cfg, now)
  {
    hide Earned;
  }

  // In a store that never forgets, whatever the configurations: a request is let through
  // exactly when a whole token fits.
  lemma AdmittedIff(keepFor: RateConfig -> real, ops: seq<Op>, key: string, cfg: RateConfig, now: real)
    ensures Allowed(Run(keepFor, false, map[], ops), key, cfg, now) <==>
            Fits(Of(key, ops), Verdicts(keepFor, false, key, ops), cfg, now, 1.0)
  {
    LevelIs(keepFor, ops, key, cfg, now, 1.0);
  }

  lemma CoveredFront(keepFor: RateConfig -> real, clock: real, ops: seq<Op>, op: Op)
    requires Covered(keepFor, ops + [op]) && Timed(clock, ops + [op])
    ensures Covered(keepFor, ops) && Timed(clock, ops)
  {
    var all := ops + [op];
    assert forall i :: 0 <= i < |ops| ==> all[i] == ops[i];
    forall i, j | 0 <= i < j < |ops| ensures Compatible(keepFor, ops[i], ops[j]) {
      assert Compatible(keepFor, all[i], all[j]);
    }
    forall i | 0 < i < |ops| ensures ops[i - 1].now <= ops[i].now {
      assert all[i - 1].now <= all[i].now;
    }
    hide Compatible, SoundConfig;
  }

  // A store that forgets buckets only once they are full answers the same.
  lemma {:induction false} SameVerdicts(keepFor: RateConfig -> real, clock: real, ops: seq<Op>, key: string)
    requires Timed(clock, ops) && Covered(keepFor, ops) && forall c :: keepFor(c) >= 0.0
    ensures Verdicts(keepFor, true, key, ops) == Verdicts(keepFor, false, key, ops)
    decreases |ops|
  {
    if ops != [] {
      var init, op := ops[..|ops| - 1], ops[|ops| - 1];
      assert ops == init + [op];
      CoveredFront(keepFor, clock, init, op);
      SameVerdicts(keepFor, clock, init, key);
      if op.Request? {
        SameAllowed(keepFor, clock, init, op);
      }
    }
  }

  lemma SameAllowed(keepFor: RateConfig -> real, clock: real, ops: seq<Op>, op: Op)
    requires op.Request? && Timed(clock, ops + [op]) && Covered(keepFor, ops + [op])
    requires forall c :: keepFor(c) >= 0.0
    ensures Allowed(Run(keepFor, true, map[], ops), op.key, op.cfg, op.now) <==>
            Allowed(Run(keepFor, false, map[], ops), op.key, op.cfg, op.now)
  {
    ForgettingIsInvisible(keepFor, clock, ops + [op]);
    RunSnoc(keepFor, true, map[], ops, op);
    RunSnoc(keepFor, false, map[], ops, op);
    var a, b := Answers(keepFor, true, map[], ops + [op]), Answers(keepFor, false, map[], ops + [op]);
    assert a[|a| - 1] == b[|b| - 1];
  }

  // So the exact condition holds of both stores wherever their forgetting is invisible.
  lemma StoreAdmitsIff(keepFor: RateConfig -> real, clock: real, ops: seq<Op>, op: Op)
    requires op.Request? && Timed(clock, ops + [op]) && Covered(keepFor, ops + [op])
    requires forall c :: keepFor(c) >= 0.0
    ensures Allowed(Run(keepFor, true, map[], ops), op.key, op.cfg, op.now) <==>
            Fits(Of(op.key, ops), Verdicts(keepFor, true, op.key, ops), op.cfg, op.now, 1.0)
  {
    CoveredFront(keepFor, clock, ops, op);
    SameVerdicts(keepFor, clock, ops, op.key);
    SameAllowed(keepFor, clock, ops, op);
    AdmittedIff(keepFor, ops, op.key, op.cfg, op.now);
  }

  // ----- one configuration ----------------------------------------------------------------

  lemma {:induction false} IncomeIsRate(past: seq<Op>, cfg: RateConfig, now: real, j: nat)
    requires j < |past| && forall i :: 0 <= i < |past| ==> past[i].Request? && past[i].cfg == cfg
    ensures Income(past, cfg, now, j) == Earned(now - past[j].now, cfg.rate)
    decreases |past|
  {
    var n := |past| - 1;
    if j < n {
      IncomeIsRate(past[..n], cfg, past[n].now, j);
      EarnedAdds(now - past[n].now, past[n].now - past[j].now, cfg.rate);
      assert now - past[n].now + (past[n].now - past[j].now) == now - past[j].now;
      hide Earned;
    }
  }

  lemma {:induction false} OfUses(key: string, ops: seq<Op>, cfg: RateConfig)
    requires forall op :: op in ops && IsFor(key, op) ==> op.cfg == cfg
    ensures forall i :: 0 <= i < |Of(key, ops)| ==> Of(key, ops)[i].cfg == cfg
  {
    if ops != [] {
      OfUses(key, ops[..|ops| - 1], cfg);
    }
  }

  // A key with one configuration: a request is let through exactly when the bucket holds a
  // token at all and, from every earlier request of the key on, the grants and this one are at
  // most burst + rate * the time since.
  lemma OneConfigAdmitsIff(keepFor: RateConfig -> real, ops: seq<Op>, key: string, cfg: RateConfig, now: real)
    requires forall op :: op in ops && IsFor(key, op) ==> op.cfg == cfg
    ensures var past, verdicts := Of(key, ops), Verdicts(keepFor, false, key, ops);
      Allowed(Run(keepFor, false, map[], ops), key, cfg, now) <==>
      cfg.burst >= 1.0 && forall j :: 0 <= j < |past| ==>
        (Grants(verdicts, j) + 1) as real <= cfg.burst + Earned(now - past[j].now, cfg.rate)
  {
    var past, verdicts := Of(key, ops), Verdicts(keepFor, false, key, ops);
    hide Allowed, Earned, Run, Verdicts, Of, Income, Grants;
    AdmittedIff(keepFor, ops, key, cfg, now);
    OfUses(key, ops, cfg);
    forall j: nat | j < |past|
      ensures FitsFrom(past, verdicts, cfg, now, 1.0, j) <==>
              (Grants(verdicts, j) + 1) as real <= cfg.burst + Earned(now - past[j].now, cfg.rate)
    {
      IncomeIsRate(past, cfg, now, j);
    }
    hide FitsFrom;
  }
}
