/** Recovery of the fallback store (markUnhealthy and runProbe in
    internal/gateway/middleware/ratelimit.go): when "three probes before recovery" is kept, for
    failures and probes taken as single steps and for every interleaving of their atomic
    operations. */
module Recovery {
  import opened RateLimitStores

  // ----- failures and probes as single steps ----------------------------------------------

  datatype HealthStep = Failure | Ping(ok: bool)

  datatype Health = Health(healthy: bool, consecOK: nat)

  function HealthNext(s: Health, step: HealthStep): Health {
    var f := Fallback(map[], map[], s.healthy, s.consecOK);
    var f' := match step case Failure => Down(f) case Ping(ok) => Probed(f, ok);
    Health(f'.healthy, f'.consecOK)
  }

  function HealthAfter(history: seq<HealthStep>): Health {
    if history == [] then Health(true, 0)
    else HealthNext(HealthAfter(history[..|history| - 1]), history[|history| - 1])
  }

  datatype Outage = NoOutage | Since(pings: seq<bool>)

  function TrailingOK(pings: seq<bool>): nat {
    if pings == [] || !pings[|pings| - 1] then 0 else 1 + TrailingOK(pings[..|pings| - 1])
  }

  // What the fallback promises, without its counter: an outage lasts from a failure met in
  // normal operation until three probes in a row, all since that failure, have succeeded.
  function OutageAfter(history: seq<HealthStep>): Outage {
    if history == [] then NoOutage
    else
      var before := OutageAfter(history[..|history| - 1]);
      match history[|history| - 1]
      case Failure => if before == NoOutage then Since([]) else before
      case Ping(ok) =>
        if before == NoOutage then NoOutage
        else
          var pings := before.pings + [ok];
          if |pings| >= 3 && pings[|pings| - 1] && pings[|pings| - 2] && pings[|pings| - 3] then NoOutage
          else Since(pings)
  }

  // With markUnhealthy and a probe tick each taken as one step, the counter keeps the promise.
  lemma {:induction false} RecoveryTakesThreeProbes(history: seq<HealthStep>)
    ensures var s, outage := HealthAfter(history), OutageAfter(history);
      && (s.healthy <==> outage == NoOutage)
      && (outage.Since? ==> s.consecOK == TrailingOK(outage.pings) < RECOVERY_THRESHOLD)
  {
    if history != [] {
      var h, step := history[..|history| - 1], history[|history| - 1];
      RecoveryTakesThreeProbes(h);
      var before := OutageAfter(h);
      if before.Since? && step.Ping? {
        TrailingThree(before.pings + [step.ok]);
        assert (before.pings + [step.ok])[..|before.pings|] == before.pings;
      }
    }
  }

  lemma TrailingThree(pings: seq<bool>)
    ensures TrailingOK(pings) >= 3 <==>
      |pings| >= 3 && pings[|pings| - 1] && pings[|pings| - 2] && pings[|pings| - 3]
  {
    if |pings| >= 3 {
      var a := pings[..|pings| - 1];
      var b := a[..|a| - 1];
      assert a[|a| - 1] == pings[|pings| - 2] && b[|b| - 1] == pings[|pings| - 3];
      assert TrailingOK(pings) == if !pings[|pings| - 1] then 0 else 1 + TrailingOK(a);
      assert TrailingOK(a) == if !a[|a| - 1] then 0 else 1 + TrailingOK(b);
    } else if |pings| == 2 {
      assert pings[..1][..0] == [];
      assert TrailingOK(pings[..1]) <= 1;
    }
  }

  // ----- the atomic operations ------------------------------------------------------------

  // Where the probe goroutine is: Added holds the count its increment returned.
  datatype Probe = Idle | Added(count: nat)

  // resetsDue: request goroutines whose swap took effect and whose reset is still to come.
  datatype Fine = Fine(healthy: bool, consecOK: nat, resetsDue: nat, probe: Probe)

  datatype FineStep =
    | Swap     // healthy.CompareAndSwap(true, false) by a request whose Redis call failed
    | Reset    // its consecOK.Store(0), if the swap took effect
    | PingOk   // consecOK.Add(1) after a good ping
    | Promote  // the check of that count, and healthy.Store(true)
    | PingBad  // consecOK.Store(0) after a failed ping

  predicate Enabled(s: Fine, step: FineStep) {
    match step
    case Swap => true
    case Reset => s.resetsDue > 0
    case PingOk => s.probe.Idle?
    case Promote => s.probe.Added?
    case PingBad => s.probe.Idle?
  }

  predicate TakesEffect(s: Fine, step: FineStep) {
    step.Swap? && s.healthy
  }

  predicate Recovers(s: Fine, step: FineStep) {
    step.Promote? && s.probe.Added? && s.probe.count >= RECOVERY_THRESHOLD && !s.healthy
  }

  function FineNext(s: Fine, step: FineStep): Fine
    requires Enabled(s, step)
  {
    match step
    case Swap => if s.healthy then s.(healthy := false, resetsDue := s.resetsDue + 1) else s
    case Reset => s.(consecOK := 0, resetsDue := s.resetsDue - 1)
    case PingOk => s.(consecOK := s.consecOK + 1, probe := Added(s.consecOK + 1))
    case Promote => s.(healthy := s.healthy || s.probe.count >= RECOVERY_THRESHOLD, probe := Idle)
    case PingBad => s.(consecOK := 0)
  }

  // ----- what is promised, and what breaks it ---------------------------------------------

  // An observer of the steps.
  //   trail: good pings in a row since the last failure that took effect
  //   unearned: whether some recovery came with fewer than three of them
  //   stale: such a failure found a count that neither a reset nor a bad ping has cleared since
  //   straddles: the pending count was added to a stale one, or a failure fell after it
  //   straddled: whether some recovery used such a count
  datatype Watch = Watch(s: Fine, trail: nat, unearned: bool, stale: bool, straddles: bool, straddled: bool)

  const START := Watch(Fine(true, 0, 0, Idle), 0, false, false, false, false)

  function WatchNext(w: Watch, step: FineStep): Watch
    requires Enabled(w.s, step)
  {
    Watch(FineNext(w.s, step),
          if TakesEffect(w.s, step) || step.PingBad? then 0 else if step.PingOk? then w.trail + 1 else w.trail,
          w.unearned || (Recovers(w.s, step) && w.trail < 3),
          if TakesEffect(w.s, step) then w.s.consecOK > 0
          else if step.Reset? || step.PingBad? then false
          else w.stale,
          if TakesEffect(w.s, step) then true else if step.PingOk? then w.stale else w.straddles,
          w.straddled || (Recovers(w.s, step) && w.straddles))
  }

  // A schedule is any sequence of steps; entries that are not enabled are skipped.
  function WatchRun(w: Watch, steps: seq<FineStep>): Watch
    decreases |steps|
  {
    if steps == [] then w
    else WatchRun(if Enabled(w.s, steps[0]) then WatchNext(w, steps[0]) else w, steps[1..])
  }

  ghost predicate Consistent(w: Watch) {
    && (w.unearned <==> w.straddled)
    && (w.stale ==> w.trail < w.s.consecOK && w.s.resetsDue > 0)
    && (!w.stale ==> w.s.consecOK <= w.trail)
    && (w.s.probe.Added? ==> w.s.consecOK in {0, w.s.probe.count})
    && (w.s.probe.Added? && !w.straddles ==> w.s.probe.count <= w.trail)
    && (w.s.probe.Added? && w.straddles && !w.s.healthy ==> w.trail <= 2)
    && (w.s.probe.Idle? && w.stale && !w.s.healthy ==> w.trail == 0 || w.s.consecOK <= 2)
  }

  lemma StepKeepsConsistent(w: Watch, step: FineStep)
    requires Consistent(w) && Enabled(w.s, step)
    ensures Consistent(WatchNext(w, step))
  {
  }

  lemma {:induction false} RunKeepsConsistent(w: Watch, steps: seq<FineStep>)
    requires Consistent(w)
    ensures Consistent(WatchRun(w, steps))
    decreases |steps|
  {
    if steps != [] {
      if Enabled(w.s, steps[0]) {
        StepKeepsConsistent(w, steps[0]);
        hide Consistent;
        RunKeepsConsistent(WatchNext(w, steps[0]), steps[1..]);
      } else {
        RunKeepsConsistent(w, steps[1..]);
      }
    }
  }

  // In every interleaving, some recovery comes too early exactly when some recovery uses a count
  // that straddles a failure: the failure fell between the ping's increment and its check, or
  // the ping was added to a count from before the failure that nothing had cleared yet.
  lemma EarlyRecoveryIff(steps: seq<FineStep>)
    ensures WatchRun(START, steps).unearned <==> WatchRun(START, steps).straddled
  {
    RunKeepsConsistent(START, steps);
  }

  lemma OneStep(w: Watch, step: FineStep, rest: seq<FineStep>)
    requires Enabled(w.s, step)
    ensures WatchRun(w, [step] + rest) == WatchRun(WatchNext(w, step), rest)
    ensures RunsApart(w.s, [step] + rest) == (Apart(w.s, step) && RunsApart(FineNext(w.s, step), rest))
  {
    assert ([step] + rest)[1..] == rest;
  }

  // Both ways do break the promise, from every state in which they can begin.
  lemma FailureBeforeTheCheck(w: Watch)
    requires w.s.healthy && w.s.probe.Added? && w.s.probe.count >= 3
    ensures var w' := WatchRun(w, [Swap] + ([Promote] + [])); w'.unearned && w'.s.healthy
  {
    var w1 := WatchNext(w, Swap);
    OneStep(w, Swap, [Promote] + []);
    OneStep(w1, Promote, []);
  }

  lemma ProbeBeforeTheReset(w: Watch)
    requires w.s.healthy && w.s.probe.Idle? && w.s.consecOK >= 2
    ensures var w' := WatchRun(w, [Swap] + ([PingOk] + ([Promote] + []))); w'.unearned && w'.s.healthy
  {
    var w1 := WatchNext(w, Swap);
    var w2 := WatchNext(w1, PingOk);
    OneStep(w, Swap, [PingOk] + ([Promote] + []));
    OneStep(w1, PingOk, [Promote] + []);
    OneStep(w2, Promote, []);
  }

  // A race alone need not break it: a failure between the first good ping and its check finds a
  // count too small to matter.
  lemma RaceWithoutHarm()
    ensures var steps := [PingOk] + ([Swap] + ([Reset] + ([Promote] + [])));
      !RunsApart(START.s, steps) && !WatchRun(START, steps).unearned && !WatchRun(START, steps).s.healthy
  {
    var w1 := WatchNext(START, PingOk);
    var w2 := WatchNext(w1, Swap);
    var w3 := WatchNext(w2, Reset);
    OneStep(START, PingOk, [Swap] + ([Reset] + ([Promote] + [])));
    OneStep(w1, Swap, [Reset] + ([Promote] + []));
    OneStep(w2, Reset, [Promote] + []);
    OneStep(w3, Promote, []);
    hide WatchRun, RunsApart;
    assert !Apart(w1.s, Swap);
    assert WatchNext(w3, Promote) == WatchRun(WatchNext(w3, Promote), []) by { NoSteps(WatchNext(w3, Promote)); }
  }

  lemma NoSteps(w: Watch)
    ensures WatchRun(w, []) == w
  {
  }

  // ----- schedules without the two races --------------------------------------------------

  // No failure takes effect between an increment and its check, and no increment comes between
  // a failure and its reset.
  predicate Apart(s: Fine, step: FineStep) {
    && (TakesEffect(s, step) ==> s.probe.Idle?)
    && (step.PingOk? ==> s.resetsDue == 0)
  }

  predicate RunsApart(s: Fine, steps: seq<FineStep>)
    decreases |steps|
  {
    steps == [] ||
    if Enabled(s, steps[0]) then Apart(s, steps[0]) && RunsApart(FineNext(s, steps[0]), steps[1..])
    else RunsApart(s, steps[1..])
  }

  // What such a schedule amounts to: each swap a failure, each check and each bad ping a probe.
  function Log(s: Fine, steps: seq<FineStep>): seq<HealthStep>
    decreases |steps|
  {
    if steps == [] then []
    else if !Enabled(s, steps[0]) then Log(s, steps[1..])
    else
      (match steps[0]
       case Swap => [Failure]
       case Promote => [Ping(true)]
       case PingBad => [Ping(false)]
       case _ => [])
      + Log(FineNext(s, steps[0]), steps[1..])
  }

  function HealthRun(h: Health, history: seq<HealthStep>): Health
    decreases |history|
  {
    if history == [] then h else HealthRun(HealthNext(h, history[0]), history[1..])
  }

  ghost predicate Refines(s: Fine, h: Health) {
    && s.healthy == h.healthy
    && (s.resetsDue > 0 ==> h.consecOK == 0 && s.probe.Idle? && !s.healthy)
    && (s.resetsDue == 0 ==> s.consecOK == h.consecOK + if s.probe.Added? then 1 else 0)
    && (s.probe.Added? ==> s.consecOK == s.probe.count)
  }

  lemma {:induction false} ApartRefines(s: Fine, h: Health, steps: seq<FineStep>, w: Watch)
    requires Refines(s, h) && RunsApart(s, steps) && w.s == s
    ensures Refines(WatchRun(w, steps).s, HealthRun(h, Log(s, steps)))
    decreases |steps|
  {
    if steps != [] {
      if Enabled(s, steps[0]) {
        var s', rest := FineNext(s, steps[0]), Log(FineNext(s, steps[0]), steps[1..]);
        var h' := match steps[0]
          case Swap => HealthNext(h, Failure)
          case Promote => HealthNext(h, Ping(true))
          case PingBad => HealthNext(h, Ping(false))
          case _ => h;
        assert Refines(s', h');
        ApartRefines(s', h', steps[1..], WatchNext(w, steps[0]));
        hide Refines, FineNext, HealthNext;
        if !steps[0].Reset? && !steps[0].PingOk? {
          assert Log(s, steps)[1..] == rest;
        } else {
          assert Log(s, steps) == rest;
        }
      } else {
        ApartRefines(s, h, steps[1..], w);
      }
    }
  }

  lemma {:induction false} HealthRunIsAfter(before: seq<HealthStep>, history: seq<HealthStep>)
    ensures HealthRun(HealthAfter(before), history) == HealthAfter(before + history)
    decreases |history|
  {
    if history == [] {
      assert before + history == before;
    } else {
      var b := before + [history[0]];
      assert b[..|b| - 1] == before;
      assert before + history == b + history[1..];
      HealthRunIsAfter(b, history[1..]);
    }
  }

  // Every schedule without the two races behaves like its failures and probes taken as single
  // steps: between operations the store is down exactly while that history has an outage, so
  // until three good probes in a row since the failure.
  lemma RecoveryWithoutRaces(steps: seq<FineStep>)
    requires RunsApart(START.s, steps)
    ensures var s := WatchRun(START, steps).s;
      s.healthy <==> OutageAfter(Log(START.s, steps)) == NoOutage
    ensures !WatchRun(START, steps).unearned
  {
    ApartRefines(START.s, Health(true, 0), steps, START);
    HealthRunIsAfter([], Log(START.s, steps));
    assert [] + Log(START.s, steps) == Log(START.s, steps);
    RecoveryTakesThreeProbes(Log(START.s, steps));
    ApartNeverStraddles(START, steps);
    EarlyRecoveryIff(steps);
  }

  lemma {:induction false} ApartNeverStraddles(w: Watch, steps: seq<FineStep>)
    requires RunsApart(w.s, steps) && !w.straddled
    requires (w.stale ==> w.s.resetsDue > 0) && (w.s.probe.Added? ==> !w.straddles)
    ensures !WatchRun(w, steps).straddled
    decreases |steps|
  {
    if steps != [] {
      ApartNeverStraddles(if Enabled(w.s, steps[0]) then WatchNext(w, steps[0]) else w, steps[1..]);
    }
  }
}
