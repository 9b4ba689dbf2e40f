/** The in-process event bus (internal/events/bus.go) as a system of atomic steps: every step
    is one critical section, one handler call or one channel operation of some goroutine. */
module LocalBus {
  import opened Common
  import opened Counting

  type Handler = nat
  datatype Event = Event(id: string, topic: string)

  // Durations are nanoseconds.
  datatype Config = Config(maxRetries: nat, initialBackoff: nat, maxBackoff: nat, dlqSize: nat)

  ghost predicate ValidConfig(c: Config) {
    c.maxRetries >= 1 && c.dlqSize >= 1
  }

  const DEFAULT_DLQ_SIZE := 100
  const DEFAULT_MAX_RETRIES := 3
  const DEFAULT_INITIAL_BACKOFF := 50_000_000
  const DEFAULT_MAX_BACKOFF := 2_000_000_000

  // Non-positive settings fall back to the defaults.
  function Configure(maxRetries: int, initialBackoff: int, maxBackoff: int, dlqSize: int): (c: Config)
    ensures ValidConfig(c)
    ensures c.maxRetries == (if maxRetries > 0 then maxRetries else 3)
    ensures c.dlqSize == (if dlqSize > 0 then dlqSize else 100)
    ensures c.initialBackoff == (if initialBackoff > 0 then initialBackoff else 50_000_000)
    ensures c.maxBackoff == (if maxBackoff > 0 then maxBackoff else 2_000_000_000)
  {
    Config(if maxRetries <= 0 then DEFAULT_MAX_RETRIES else maxRetries,
           if initialBackoff <= 0 then DEFAULT_INITIAL_BACKOFF else initialBackoff,
           if maxBackoff <= 0 then DEFAULT_MAX_BACKOFF else maxBackoff,
           if dlqSize <= 0 then DEFAULT_DLQ_SIZE else dlqSize)
  }

  // Where a worker goroutine is.  Ended: the retry loop returned, wg.Done is still to run.
  datatype Phase = Trying | Sleeping | Exhausted | Ended | Gone

  datatype Outcome = Pending | Succeeded | DeadLettered | Dropped

  // One (event, handler) pair accepted by Publish.  results are the handler's replies so far
  // (a panic counts as an error), slept the pauses taken between attempts.
  datatype Job = Job(event: Event, handler: Handler, phase: Phase, outcome: Outcome,
                     results: seq<bool>, backoff: nat, slept: seq<nat>)

  // Where the one Close call that flipped the closed flag is.
  datatype Closer = NotCalled | Waiting | Drained | Returned

  datatype Bus = Bus(subscribers: map<string, seq<Handler>>, closed: bool, wg: int,
                     dlq: seq<Event>, dlqOpen: bool, received: seq<Event>,
                     jobs: seq<Job>, closer: Closer, closes: nat, panicked: bool)

  datatype Step =
    | Subscribe(topic: string, handler: Handler)
    | Publish(event: Event)
    | Invoke(i: nat, ok: bool)    // the handler runs once
    | Wake(i: nat)                // time.Sleep(backoff) returns
    | SendToDLQ(i: nat)
    | Done(i: nat)
    | Receive                     // a reader takes an event from DLQ()
    | CloseStart                  // any call of Close up to its unlock
    | CloseWait                   // wg.Wait returns
    | CloseFinish                 // close(b.dlq)

  const EMPTY_BUS := Bus(map[], false, 0, [], true, [], [], NotCalled, 0, false)

  function Handlers(s: Bus, topic: string): seq<Handler> {
    if topic in s.subscribers then s.subscribers[topic] else []
  }

  function NewJobs(c: Config, e: Event, hs: seq<Handler>): (r: seq<Job>)
    ensures |r| == |hs|
    ensures forall k :: 0 <= k < |hs| ==> r[k] == Job(e, hs[k], Trying, Pending, [], c.initialBackoff, [])
  {
    seq(|hs|, k requires 0 <= k < |hs| => Job(e, hs[k], Trying, Pending, [], c.initialBackoff, []))
  }

  predicate IsWorker(step: Step) {
    step.Invoke? || step.Wake? || step.SendToDLQ? || step.Done?
  }

  predicate Enabled(s: Bus, step: Step) {
    match step
    case Subscribe(_, _) => true
    case Publish(_) => true
    case Invoke(i, _) => i < |s.jobs| && s.jobs[i].phase == Trying
    case Wake(i) => i < |s.jobs| && s.jobs[i].phase == Sleeping
    case SendToDLQ(i) => i < |s.jobs| && s.jobs[i].phase == Exhausted
    case Done(i) => i < |s.jobs| && s.jobs[i].phase == Ended
    case Receive => s.dlq != []
    case CloseStart => true
    case CloseWait => s.closer == Waiting && s.wg == 0
    case CloseFinish => s.closer == Drained
  }

  function Invoked(c: Config, j: Job, ok: bool): Job {
    var j' := j.(results := j.results + [ok]);
    if ok then j'.(phase := Ended, outcome := Succeeded)
    else if |j'.results| < c.maxRetries then j'.(phase := Sleeping)
    else j'.(phase := Exhausted)
  }

  function Woken(c: Config, j: Job): Job {
    j.(phase := Trying, slept := j.slept + [j.backoff],
       backoff := if j.backoff * 2 > c.maxBackoff then c.maxBackoff else j.backoff * 2)
  }

  // Sending on a closed channel, closing it twice and a negative WaitGroup panic in Go.
  function Next(c: Config, s: Bus, step: Step): Bus
    requires Enabled(s, step)
  {
    match step
    case Subscribe(topic, h) =>
      if s.closed then s
      else s.(subscribers := s.subscribers[topic := Handlers(s, topic) + [h]])
    case Publish(e) =>
      if s.closed then s
      else
        var hs := Handlers(s, e.topic);
        s.(jobs := s.jobs + NewJobs(c, e, hs), wg := s.wg + |hs|)
    case Invoke(i, ok) => s.(jobs := s.jobs[i := Invoked(c, s.jobs[i], ok)])
    case Wake(i) => s.(jobs := s.jobs[i := Woken(c, s.jobs[i])])
    case SendToDLQ(i) =>
      if !s.dlqOpen then s.(panicked := true)
      else if |s.dlq| < c.dlqSize then
        s.(dlq := s.dlq + [s.jobs[i].event],
           jobs := s.jobs[i := s.jobs[i].(phase := Ended, outcome := DeadLettered)])
      else
        s.(jobs := s.jobs[i := s.jobs[i].(phase := Ended, outcome := Dropped)])
    case Done(i) =>
      s.(wg := s.wg - 1, jobs := s.jobs[i := s.jobs[i].(phase := Gone)],
         panicked := s.panicked || s.wg - 1 < 0)
    case Receive => s.(dlq := s.dlq[1..], received := s.received + [s.dlq[0]])
    case CloseStart => if s.closed then s else s.(closed := true, closer := Waiting)
    case CloseWait => s.(closer := Drained)
    case CloseFinish =>
      if !s.dlqOpen then s.(panicked := true)
      else s.(closer := Returned, dlqOpen := false, closes := s.closes + 1)
  }

  // A schedule is any sequence of steps; entries that are not enabled are skipped.
  function Run(c: Config, s: Bus, steps: seq<Step>): Bus
    decreases |steps|
  {
    if steps == [] then s
    else Run(c, if Enabled(s, steps[0]) then Next(c, s, steps[0]) else s, steps[1..])
  }

  // ----- counting jobs --------------------------------------------------------------------

  const LIVE: Job -> bool := (j: Job) => j.phase != Gone
  function Has(o: Outcome): Job -> bool { (j: Job) => j.outcome == o }

  // The event of a dead-lettered job.
  const DEAD_LETTER: Job -> Option<Event> := (j: Job) => if j.outcome == DeadLettered then Some(j.event) else None

  // ----- what holds of one job ------------------------------------------------------------

  // The pause before attempt k + 2: doubling from the initial value, capped from the second on.
  function BackoffAt(c: Config, k: nat): nat {
    if k == 0 then c.initialBackoff
    else
      var b := BackoffAt(c, k - 1) * 2;
      if b > c.maxBackoff then c.maxBackoff else b
  }

  function Pow2(k: nat): nat {
    if k == 0 then 1 else 2 * Pow2(k - 1)
  }

  lemma {:induction false} BackoffDoublesToCap(c: Config, k: nat)
    requires k >= 1
    ensures BackoffAt(c, k) ==
            if Pow2(k) * c.initialBackoff > c.maxBackoff then c.maxBackoff else Pow2(k) * c.initialBackoff
  {
    DoubleProduct(Pow2(k - 1), c.initialBackoff);
    if k > 1 {
      BackoffDoublesToCap(c, k - 1);
    }
  }

  lemma DoubleProduct(a: nat, b: nat)
    ensures 2 * a * b == 2 * (a * b)
  {
  }

  ghost predicate JobOK(c: Config, j: Job) {
    var n := |j.results|;
    && n <= c.maxRetries
    && (forall k :: 0 <= k < n - 1 ==> !j.results[k])
    && (j.outcome == Succeeded ==> n >= 1 && j.results[n - 1])
    && (j.outcome != Succeeded ==> forall k :: 0 <= k < n ==> !j.results[k])
    && (j.outcome == DeadLettered || j.outcome == Dropped ==> n == c.maxRetries)
    && (j.outcome == Pending <==> j.phase in {Trying, Sleeping, Exhausted})
    && (j.phase == Trying ==> n < c.maxRetries && |j.slept| == n)
    && (j.phase == Sleeping ==> 1 <= n < c.maxRetries && |j.slept| == n - 1)
    && (j.phase == Exhausted ==> n == c.maxRetries)
    && (j.phase !in {Trying, Sleeping} ==> n >= 1 && |j.slept| == n - 1)
    && j.backoff == BackoffAt(c, |j.slept|)
    && (forall k :: 0 <= k < |j.slept| ==> j.slept[k] == BackoffAt(c, k))
  }

  lemma InvokedOK(c: Config, j: Job, ok: bool)
    requires JobOK(c, j) && j.phase == Trying
    ensures JobOK(c, Invoked(c, j, ok))
  {
    var j' := Invoked(c, j, ok);
    assert forall k :: 0 <= k < |j.results| ==> j'.results[k] == j.results[k];
  }

  lemma PhaseOfPending(c: Config, j: Job)
    requires JobOK(c, j)
    ensures j.outcome == Pending <==> j.phase in {Trying, Sleeping, Exhausted}
  {
  }

  // ----- the invariant --------------------------------------------------------------------

  ghost predicate CloseOK(s: Bus) {
    && !s.panicked
    && s.wg == Count(s.jobs, LIVE)
    && (s.closed <==> s.closer != NotCalled)
    && (s.closer in {Drained, Returned} ==> s.wg == 0)
    && (s.dlqOpen <==> s.closer != Returned)
    && s.closes == if s.closer == Returned then 1 else 0
  }

  ghost predicate LettersOK(c: Config, s: Bus) {
    && |s.dlq| <= c.dlqSize
    && multiset(s.received + s.dlq) == Collect(s.jobs, DEAD_LETTER)
  }

  ghost predicate Inv(c: Config, s: Bus) {
    && CloseOK(s) && LettersOK(c, s)
    && forall j :: j in s.jobs ==> JobOK(c, j)
  }

  lemma NextKeepsJobs(c: Config, s: Bus, step: Step)
    requires Inv(c, s) && Enabled(s, step) && ValidConfig(c)
    ensures forall j :: j in Next(c, s, step).jobs ==> JobOK(c, j)
  {
    if step.Publish? {
      var b := NewJobs(c, step.event, Handlers(s, step.event.topic));
      assert BackoffAt(c, 0) == c.initialBackoff;
      assert forall j :: j in b ==> JobOK(c, j);
    } else if IsWorker(step) {
      assert s.jobs[step.i] in s.jobs;
      WorkerKeepsJob(c, s, step);
      hide JobOK, Next;
      var j := Next(c, s, step).jobs[step.i];
      assert forall x :: x in s.jobs[step.i := j] ==> x == j || x in s.jobs;
    }
  }

  lemma WorkerKeepsJob(c: Config, s: Bus, step: Step)
    requires IsWorker(step) && Enabled(s, step) && JobOK(c, s.jobs[step.i])
    ensures var s' := Next(c, s, step);
      |s'.jobs| == |s.jobs| && s'.jobs == s.jobs[step.i := s'.jobs[step.i]] && JobOK(c, s'.jobs[step.i])
  {
    if step.Invoke? {
      hide JobOK;
      InvokedOK(c, s.jobs[step.i], step.ok);
    }
  }

  lemma NextKeepsClose(c: Config, s: Bus, step: Step)
    requires Inv(c, s) && Enabled(s, step)
    ensures CloseOK(Next(c, s, step))
  {
    hide JobOK, LettersOK;
    var s' := Next(c, s, step);
    match step {
      case Publish(e) =>
        var b := NewJobs(c, e, Handlers(s, e.topic));
        CountAppend(s.jobs, b, LIVE);
        CountAll(b, LIVE, true);
      case Invoke(i, _) => CountUpdate(s.jobs, i, s'.jobs[i], LIVE);
      case Wake(i) => CountUpdate(s.jobs, i, s'.jobs[i], LIVE);
      case SendToDLQ(i) =>
        CountZero(s.jobs, LIVE);
        CountUpdate(s.jobs, i, s'.jobs[i], LIVE);
      case Done(i) => CountUpdate(s.jobs, i, s'.jobs[i], LIVE);
      case _ =>
    }
  }

  lemma NextKeepsLetters(c: Config, s: Bus, step: Step)
    requires Inv(c, s) && Enabled(s, step)
    ensures LettersOK(c, Next(c, s, step))
  {
    hide JobOK, CloseOK, Collect;
    var s' := Next(c, s, step);
    if IsWorker(step) {
      assert s.jobs[step.i] in s.jobs;
      PhaseOfPending(c, s.jobs[step.i]);
      if step.SendToDLQ? {
        SendKeepsLetters(c, s, step.i);
      } else {
        WorkerKeepsLetters(c, s, step);
      }
    } else if step.Publish? {
      var b := NewJobs(c, step.event, Handlers(s, step.event.topic));
      CollectAppend(s.jobs, b, DEAD_LETTER);
      CollectNone(b, DEAD_LETTER);
    } else if step.Receive? {
      assert s'.received + s'.dlq == s.received + s.dlq;
    }
  }

  lemma WorkerKeepsLetters(c: Config, s: Bus, step: Step)
    requires IsWorker(step) && !step.SendToDLQ? && Enabled(s, step) && LettersOK(c, s)
    requires step.Invoke? ==> s.jobs[step.i].outcome == Pending
    ensures LettersOK(c, Next(c, s, step))
  {
    hide Collect;
    var j := Next(c, s, step).jobs[step.i];
    CollectKeep(s.jobs, step.i, j, DEAD_LETTER);
  }

  lemma SendKeepsLetters(c: Config, s: Bus, i: nat)
    requires LettersOK(c, s) && Enabled(s, SendToDLQ(i)) && s.jobs[i].outcome == Pending
    ensures LettersOK(c, Next(c, s, SendToDLQ(i)))
  {
    hide Collect;
    if s.dlqOpen {
      var o := if |s.dlq| < c.dlqSize then DeadLettered else Dropped;
      CollectGain(s.jobs, i, s.jobs[i].(phase := Ended, outcome := o), DEAD_LETTER);
      OneMore(s.received, s.dlq, s.jobs[i].event);
    }
  }

  lemma OneMore(a: seq<Event>, b: seq<Event>, e: Event)
    ensures multiset(a + (b + [e])) == multiset(a + b) + multiset{e}
  {
    assert a + (b + [e]) == (a + b) + [e];
  }

  // What a worker's step does to its own job and to no other.
  lemma WorkerJob(c: Config, s: Bus, step: Step)
    requires IsWorker(step) && Enabled(s, step)
    ensures var s' := Next(c, s, step);
      && |s'.jobs| == |s.jobs| && s'.jobs == s.jobs[step.i := s'.jobs[step.i]]
      && var j, j' := s.jobs[step.i], s'.jobs[step.i];
         && j'.event == j.event && j'.handler == j.handler
         && (step.Invoke? ==> j'.outcome == if step.ok then Succeeded else j.outcome)
         && (step.SendToDLQ? ==> j'.outcome in {j.outcome, DeadLettered, Dropped})
         && (step.Wake? || step.Done? ==> j'.outcome == j.outcome)
  {
  }

  lemma NextKeepsInv(c: Config, s: Bus, step: Step)
    requires ValidConfig(c) && Inv(c, s) && Enabled(s, step)
    ensures Inv(c, Next(c, s, step))
  {
    NextKeepsJobs(c, s, step);
    NextKeepsClose(c, s, step);
    NextKeepsLetters(c, s, step);
    hide JobOK, CloseOK, LettersOK, Next;
  }

  lemma PendingIsOngoing(c: Config, s: Bus, i: nat)
    requires Inv(c, s) && i < |s.jobs|
    ensures s.jobs[i].outcome == Pending <==> s.jobs[i].phase in {Trying, Sleeping, Exhausted}
  {
    assert s.jobs[i] in s.jobs;
    PhaseOfPending(c, s.jobs[i]);
  }

  lemma {:induction false} RunKeepsInv(c: Config, s: Bus, steps: seq<Step>)
    requires ValidConfig(c) && Inv(c, s)
    ensures Inv(c, Run(c, s, steps))
    decreases |steps|
  {
    if steps != [] {
      if Enabled(s, steps[0]) {
        NextKeepsInv(c, s, steps[0]);
        RunKeepsInv(c, Next(c, s, steps[0]), steps[1..]);
      } else {
        RunKeepsInv(c, s, steps[1..]);
      }
    }
  }

  // ----- main results ---------------------------------------------------------------------

  // No schedule makes the bus panic: nothing is ever sent on the closed dead-letter channel,
  // it is closed at most once, and only when no worker is left.
  lemma DeadLetterChannelIsSafe(c: Config, steps: seq<Step>)
    requires ValidConfig(c)
    ensures var s := Run(c, EMPTY_BUS, steps);
      && !s.panicked && s.closes <= 1
      && (s.closes == 1 <==> !s.dlqOpen)
      && (!s.dlqOpen ==> s.closed && s.wg == 0 && forall j :: j in s.jobs ==> j.phase == Gone)
  {
    RunKeepsInv(c, EMPTY_BUS, steps);
    var s := Run(c, EMPTY_BUS, steps);
    CountZero(s.jobs, LIVE);
    forall j | j in s.jobs && !s.dlqOpen ensures j.phase == Gone {
      var i :| 0 <= i < |s.jobs| && s.jobs[i] == j;
      assert !LIVE(s.jobs[i]);
    }
  }

  // Every accepted pair is succeeded, dead-lettered, dropped or in flight; the dead letters
  // are exactly the events received from or still waiting in the channel.
  lemma AcceptedIsAccountedFor(c: Config, steps: seq<Step>)
    requires ValidConfig(c)
    ensures var s := Run(c, EMPTY_BUS, steps);
      && |s.jobs| == Count(s.jobs, Has(Succeeded)) + Count(s.jobs, Has(DeadLettered))
                     + Count(s.jobs, Has(Dropped)) + Count(s.jobs, Has(Pending))
      && multiset(s.received + s.dlq) == Collect(s.jobs, DEAD_LETTER) && |s.dlq| <= c.dlqSize
      && forall j :: j in s.jobs ==> JobOK(c, j)
  {
    RunKeepsInv(c, EMPTY_BUS, steps);
    Partition(Run(c, EMPTY_BUS, steps).jobs);
  }

  lemma {:induction false} Partition(jobs: seq<Job>)
    ensures |jobs| == Count(jobs, Has(Succeeded)) + Count(jobs, Has(DeadLettered))
                      + Count(jobs, Has(Dropped)) + Count(jobs, Has(Pending))
  {
    if jobs != [] {
      Partition(jobs[1..]);
    }
  }

  // What a finished pair went through: the handler failed on every attempt but a last,
  // successful one, or on all maxRetries attempts.
  lemma FinishedPair(c: Config, steps: seq<Step>, i: nat)
    requires ValidConfig(c) && i < |Run(c, EMPTY_BUS, steps).jobs|
    ensures var j := Run(c, EMPTY_BUS, steps).jobs[i];
      && (j.outcome != Pending ==> 1 <= |j.results| <= c.maxRetries && |j.slept| == |j.results| - 1)
      && (j.outcome == Succeeded ==>
            j.results[|j.results| - 1] && forall k :: 0 <= k < |j.results| - 1 ==> !j.results[k])
      && (j.outcome in {DeadLettered, Dropped} ==>
            |j.results| == c.maxRetries && forall k :: 0 <= k < |j.results| ==> !j.results[k])
      && forall k :: 0 <= k < |j.slept| ==> j.slept[k] == BackoffAt(c, k)
  {
    RunKeepsInv(c, EMPTY_BUS, steps);
    assert Run(c, EMPTY_BUS, steps).jobs[i] in Run(c, EMPTY_BUS, steps).jobs;
  }

  // Jobs are never lost or re-used, and an outcome, once given, is final.
  ghost predicate Extends(a: Bus, b: Bus) {
    && |a.jobs| <= |b.jobs|
    && forall i :: 0 <= i < |a.jobs| ==> JobExtends(a.jobs[i], b.jobs[i])
  }

  ghost predicate JobExtends(a: Job, b: Job) {
    && b.event == a.event && b.handler == a.handler && a.results <= b.results
    && (a.outcome != Pending ==> b.outcome == a.outcome && b.results == a.results)
  }

  lemma {:induction false} OutcomesAreFinal(c: Config, s: Bus, steps: seq<Step>)
    requires ValidConfig(c) && Inv(c, s)
    ensures Extends(s, Run(c, s, steps))
    decreases |steps|
  {
    if steps != [] && !Enabled(s, steps[0]) {
      OutcomesAreFinal(c, s, steps[1..]);
    } else if steps != [] {
      var s' := Next(c, s, steps[0]);
      RunKeepsInv(c, s, steps[..1]);
      assert Run(c, s, steps[..1]) == s' by {
        assert steps[..1][1..] == [];
      }
      StepExtends(c, s, steps[0]);
      OutcomesAreFinal(c, s', steps[1..]);
    }
  }

  lemma StepExtends(c: Config, s: Bus, step: Step)
    requires Inv(c, s) && Enabled(s, step)
    ensures Extends(s, Next(c, s, step))
  {
    if IsWorker(step) {
      assert s.jobs[step.i] in s.jobs;
      PhaseOfPending(c, s.jobs[step.i]);
      WorkerKeepsJob(c, s, step);
      WorkerExtends(c, s, step);
      hide JobOK, Next, JobExtends;
      assert forall i :: 0 <= i < |s.jobs| ==> JobExtends(s.jobs[i], s.jobs[i]) by { SelfExtends(); }
    }
  }

  lemma SelfExtends()
    ensures forall j :: JobExtends(j, j)
  {
  }

  lemma WorkerExtends(c: Config, s: Bus, step: Step)
    requires IsWorker(step) && Enabled(s, step)
    requires s.jobs[step.i].outcome == Pending <==> s.jobs[step.i].phase in {Trying, Sleeping, Exhausted}
    ensures JobExtends(s.jobs[step.i], Next(c, s, step).jobs[step.i])
  {
  }

  // ----- who hears what -------------------------------------------------------------------

  // The steps of a schedule up to the first call of Close.
  function BeforeClose(steps: seq<Step>): seq<Step> {
    if steps == [] || steps[0].CloseStart? then [] else [steps[0]] + BeforeClose(steps[1..])
  }

  // The handlers subscribed to a topic, oldest first.
  function Subscribed(steps: seq<Step>, topic: string): seq<Handler> {
    if steps == [] then []
    else
      var init, last := steps[..|steps| - 1], steps[|steps| - 1];
      Subscribed(init, topic) + if last.Subscribe? && last.topic == topic then [last.handler] else []
  }

  // The pairs of event and handler a schedule owes: every published event to every handler
  // subscribed to its topic so far.
  function Owed(steps: seq<Step>): seq<(Event, Handler)> {
    if steps == [] then []
    else
      var init, last := steps[..|steps| - 1], steps[|steps| - 1];
      Owed(init) + if last.Publish? then PairsOf(last.event, Subscribed(init, last.event.topic)) else []
  }

  function PairsOf(e: Event, hs: seq<Handler>): (r: seq<(Event, Handler)>)
    ensures |r| == |hs| && forall k :: 0 <= k < |hs| ==> r[k] == (e, hs[k])
  {
    seq(|hs|, k requires 0 <= k < |hs| => (e, hs[k]))
  }

  function Accepted(jobs: seq<Job>): (r: seq<(Event, Handler)>)
    ensures |r| == |jobs| && forall i :: 0 <= i < |jobs| ==> r[i] == (jobs[i].event, jobs[i].handler)
  {
    seq(|jobs|, i requires 0 <= i < |jobs| => (jobs[i].event, jobs[i].handler))
  }

  lemma {:induction false} RunSnoc(c: Config, s: Bus, steps: seq<Step>, step: Step)
    ensures var s' := Run(c, s, steps);
      Run(c, s, steps + [step]) == if Enabled(s', step) then Next(c, s', step) else s'
    decreases |steps|
  {
    if steps == [] {
      assert ([] + [step])[1..] == [];
    } else {
      assert (steps + [step])[1..] == steps[1..] + [step];
      RunSnoc(c, if Enabled(s, steps[0]) then Next(c, s, steps[0]) else s, steps[1..], step);
    }
  }

  lemma {:induction false} BeforeCloseSnoc(steps: seq<Step>, step: Step)
    ensures BeforeClose(steps + [step]) ==
            if CloseStart in steps || step.CloseStart? then BeforeClose(steps) else BeforeClose(steps) + [step]
  {
    if steps == [] {
      assert ([] + [step])[1..] == [];
    } else {
      assert (steps + [step])[0] == steps[0] && (steps + [step])[1..] == steps[1..] + [step];
      BeforeCloseSnoc(steps[1..], step);
    }
  }

  ghost predicate Hears(s: Bus, open: seq<Step>) {
    && (forall topic :: Handlers(s, topic) == Subscribed(open, topic))
    && Accepted(s.jobs) == Owed(open)
  }

  // In every interleaving the handlers of a topic are those subscribed before Close, in order,
  // and the accepted pairs are, in order, exactly those that are owed.
  lemma {:induction false} EveryHandlerHears(c: Config, steps: seq<Step>)
    ensures var s := Run(c, EMPTY_BUS, steps);
      (s.closed <==> CloseStart in steps) && Hears(s, BeforeClose(steps))
    decreases |steps|
  {
    if steps != [] {
      var init, step := steps[..|steps| - 1], steps[|steps| - 1];
      assert steps == init + [step];
      EveryHandlerHears(c, init);
      RunSnoc(c, EMPTY_BUS, init, step);
      BeforeCloseSnoc(init, step);
      var s := Run(c, EMPTY_BUS, init);
      hide Run, BeforeClose, Hears;
      StillHears(c, s, BeforeClose(init), step);
    }
  }

  lemma StillHears(c: Config, s: Bus, open: seq<Step>, step: Step)
    requires Hears(s, open)
    ensures var s' := if Enabled(s, step) then Next(c, s, step) else s;
      && (s'.closed <==> s.closed || step.CloseStart?)
      && Hears(s', if s.closed || step.CloseStart? then open else open + [step])
  {
    hide Next, Handlers, Subscribed, Owed, Accepted, Enabled;
    OneMoreOpen(open, step);
    if Enabled(s, step) {
      StepHears(c, s, step);
    } else {
      IdleSteps(s, step);
    }
  }

  lemma IdleSteps(s: Bus, step: Step)
    requires !Enabled(s, step)
    ensures !step.Subscribe? && !step.Publish? && !step.CloseStart?
  {
  }

  lemma OneMoreOpen(open: seq<Step>, step: Step)
    ensures forall topic :: Subscribed(open + [step], topic) == Subscribed(open, topic)
              + (if step.Subscribe? && step.topic == topic then [step.handler] else [])
    ensures Owed(open + [step]) ==
            Owed(open) + if step.Publish? then PairsOf(step.event, Subscribed(open, step.event.topic)) else []
  {
    assert (open + [step])[..|open|] == open;
  }

  // What one step does to the subscriptions and the accepted pairs.
  lemma StepHears(c: Config, s: Bus, step: Step)
    requires Enabled(s, step)
    ensures var s' := Next(c, s, step);
      && (s'.closed <==> s.closed || step.CloseStart?)
      && (forall topic :: Handlers(s', topic) == Handlers(s, topic)
            + (if step.Subscribe? && step.topic == topic && !s.closed then [step.handler] else []))
      && Accepted(s'.jobs) == Accepted(s.jobs)
           + if step.Publish? && !s.closed then PairsOf(step.event, Handlers(s, step.event.topic)) else []
  {
    if IsWorker(step) {
      WorkerJob(c, s, step);
      hide Next;
    }
  }

  // ----- draining -------------------------------------------------------------------------

  // Steps a worker still needs at most.
  function JobWork(c: Config, j: Job): nat {
    var left := if |j.results| < c.maxRetries then c.maxRetries - |j.results| else 0;
    match j.phase
    case Trying => 2 * left + 1
    case Sleeping => 2 * left + 2
    case Exhausted => 2
    case Ended => 1
    case Gone => 0
  }

  function Work(c: Config, jobs: seq<Job>): nat {
    if jobs == [] then 0 else JobWork(c, jobs[0]) + Work(c, jobs[1..])
  }

  lemma {:induction false} WorkUpdate(c: Config, jobs: seq<Job>, i: nat, j: Job)
    requires i < |jobs|
    ensures Work(c, jobs[i := j]) == Work(c, jobs) - JobWork(c, jobs[i]) + JobWork(c, j)
  {
    if i == 0 {
      assert jobs[i := j][1..] == jobs[1..];
    } else {
      assert jobs[i := j][1..] == jobs[1..][i - 1 := j];
      WorkUpdate(c, jobs[1..], i - 1, j);
    }
  }

  // The worker steps that a schedule really takes.
  function WorkerSteps(c: Config, s: Bus, steps: seq<Step>): nat
    decreases |steps|
  {
    if steps == [] then 0
    else if !Enabled(s, steps[0]) then WorkerSteps(c, s, steps[1..])
    else (if IsWorker(steps[0]) then 1 else 0) + WorkerSteps(c, Next(c, s, steps[0]), steps[1..])
  }

  lemma StepWork(c: Config, s: Bus, step: Step)
    requires ValidConfig(c) && Inv(c, s) && s.closed && Enabled(s, step)
    ensures var s' := Next(c, s, step);
      s'.closed && Work(c, s'.jobs) + (if IsWorker(step) then 1 else 0) <= Work(c, s.jobs)
  {
    var s' := Next(c, s, step);
    if IsWorker(step) {
      assert s.jobs[step.i] in s.jobs;
      NextKeepsClose(c, s, step);
      WorkerKeepsJob(c, s, step);
      WorkerJobWork(c, s, step);
      hide JobOK, JobWork;
      WorkUpdate(c, s.jobs, step.i, s'.jobs[step.i]);
    }
  }

  // The worker steps of one pair.
  function OwnSteps(c: Config, s: Bus, steps: seq<Step>, i: nat): nat
    decreases |steps|
  {
    if steps == [] then 0
    else if !Enabled(s, steps[0]) then OwnSteps(c, s, steps[1..], i)
    else (if IsWorker(steps[0]) && steps[0].i == i then 1 else 0) + OwnSteps(c, Next(c, s, steps[0]), steps[1..], i)
  }

  lemma StepJobWork(c: Config, s: Bus, step: Step, i: nat)
    requires Inv(c, s) && Enabled(s, step) && i < |s.jobs|
    ensures var s' := Next(c, s, step);
      && i < |s'.jobs|
      && JobWork(c, s'.jobs[i]) + (if IsWorker(step) && step.i == i then 1 else 0) <= JobWork(c, s.jobs[i])
  {
    if IsWorker(step) {
      assert s.jobs[step.i] in s.jobs;
      WorkerKeepsJob(c, s, step);
      NextKeepsClose(c, s, step);
      if step.i == i {
        WorkerJobWork(c, s, step);
      }
      hide JobOK, Next, JobWork, CloseOK;
    }
  }

  lemma WorkerJobWork(c: Config, s: Bus, step: Step)
    requires IsWorker(step) && Enabled(s, step) && JobOK(c, s.jobs[step.i]) && !Next(c, s, step).panicked
    ensures JobWork(c, Next(c, s, step).jobs[step.i]) + 1 <= JobWork(c, s.jobs[step.i])
  {
    hide BackoffAt;
  }

  // Closed or not, every accepted pair comes to its end: its worker takes a bounded number of
  // steps under every schedule, and until it is gone one of them is enabled.
  lemma {:induction false} EachPairEnds(c: Config, s: Bus, steps: seq<Step>, i: nat)
    requires ValidConfig(c) && Inv(c, s) && i < |s.jobs|
    ensures var s' := Run(c, s, steps);
      && i < |s'.jobs| && OwnSteps(c, s, steps, i) + JobWork(c, s'.jobs[i]) <= JobWork(c, s.jobs[i])
      && (s'.jobs[i].phase != Gone ==> exists step :: IsWorker(step) && step.i == i && Enabled(s', step))
    decreases |steps|
  {
    if steps == [] {
      if s.jobs[i].phase != Gone {
        assert IsWorker(OwnStep(s.jobs[i], i)) && Enabled(s, OwnStep(s.jobs[i], i));
      }
    } else if Enabled(s, steps[0]) {
      NextKeepsInv(c, s, steps[0]);
      StepJobWork(c, s, steps[0], i);
      hide JobOK, CloseOK, LettersOK, JobWork;
      EachPairEnds(c, Next(c, s, steps[0]), steps[1..], i);
    } else {
      EachPairEnds(c, s, steps[1..], i);
    }
  }

  // What the pair's worker does next.
  function OwnStep(j: Job, i: nat): Step {
    match j.phase
    case Trying => Invoke(i, true)
    case Sleeping => Wake(i)
    case Exhausted => SendToDLQ(i)
    case _ => Done(i)
  }

  // After Close was called, whatever the schedule, workers take a bounded number of steps.
  lemma {:induction false} DrainIsBounded(c: Config, s: Bus, steps: seq<Step>)
    requires ValidConfig(c) && Inv(c, s) && s.closed
    ensures WorkerSteps(c, s, steps) + Work(c, Run(c, s, steps).jobs) <= Work(c, s.jobs)
    decreases |steps|
  {
    if steps != [] && !Enabled(s, steps[0]) {
      DrainIsBounded(c, s, steps[1..]);
    } else if steps != [] {
      NextKeepsInv(c, s, steps[0]);
      StepWork(c, s, steps[0]);
      DrainIsBounded(c, Next(c, s, steps[0]), steps[1..]);
    }
  }

  // And the waiting Close is never stuck: either it can go on, or some worker can.
  lemma CloseNeverDeadlocks(c: Config, s: Bus)
    requires Inv(c, s) && s.closer in {Waiting, Drained}
    ensures Enabled(s, CloseWait) || Enabled(s, CloseFinish)
      || exists step :: IsWorker(step) && Enabled(s, step)
  {
    if s.closer == Waiting && s.wg != 0 {
      CountZero(s.jobs, LIVE);
      var i: nat :| i < |s.jobs| && LIVE(s.jobs[i]);
      var step := OwnStep(s.jobs[i], i);
      assert IsWorker(step) && Enabled(s, step);
    }
  }

  // ----- the bus object -------------------------------------------------------------------

  class LocalEventBus {
    const config: Config
    var subscribers: map<string, seq<Handler>>
    var closed: bool
    var wg: int
    var dlq: seq<Event>
    var dlqOpen: bool
    var received: seq<Event>
    var jobs: seq<Job>
    var closer: Closer
    var closes: nat

    ghost function State(): Bus
      reads this
    {
      Bus(subscribers, closed, wg, dlq, dlqOpen, received, jobs, closer, closes, false)
    }

    ghost predicate Valid()
      reads this
    {
      ValidConfig(config) && Inv(config, State())
    }

    constructor (maxRetries: int, initialBackoff: int, maxBackoff: int, dlqSize: int)
      ensures Valid() && State() == EMPTY_BUS
      ensures config == Configure(maxRetries, initialBackoff, maxBackoff, dlqSize)
    {
      config := Configure(maxRetries, initialBackoff, maxBackoff, dlqSize);
      subscribers, closed, wg, dlq, dlqOpen := map[], false, 0, [], true;
      received, jobs, closer, closes := [], [], NotCalled, 0;
    }

    method Subscribe(topic: string, handler: Handler)
      requires Valid()
      modifies this`subscribers
      ensures Valid() && State() == Next(config, old(State()), Step.Subscribe(topic, handler))
    {
      Kept(Step.Subscribe(topic, handler));
      hide Inv;
      if closed {
        return;
      }
      var handlers := if topic in subscribers then subscribers[topic] else [];
      subscribers := subscribers[topic := handlers + [handler]];
    }

    // Accepts one job per handler registered for the topic, or drops the event.
    method Publish(event: Event)
      requires Valid()
      modifies this`jobs, this`wg
      ensures Valid() && State() == Next(config, old(State()), Step.Publish(event))
      ensures var accepted := if closed then [] else Handlers(State(), event.topic);
        && |jobs| == |old(jobs)| + |accepted| && old(jobs) <= jobs
        && forall k :: 0 <= k < |accepted| ==>
             jobs[|old(jobs)| + k].event == event && jobs[|old(jobs)| + k].handler == accepted[k]
    {
      Kept(Step.Publish(event));
      hide Inv;
      if closed {
        return;
      }
      var handlers := if event.topic in subscribers then subscribers[event.topic] else [];
      if |handlers| == 0 {
        assert NewJobs(config, event, handlers) == [];
        return;
      }
      wg := wg + |handlers|;
      jobs := jobs + NewJobs(config, event, handlers);
    }

    method Invoke(i: nat, ok: bool)
      requires Valid() && Enabled(State(), Step.Invoke(i, ok))
      modifies this`jobs
      ensures Valid() && State() == Next(config, old(State()), Step.Invoke(i, ok))
    {
      Kept(Step.Invoke(i, ok));
      hide Inv;
      var j := jobs[i];
      j := j.(results := j.results + [ok]);
      if ok {
        j := j.(phase := Ended, outcome := Succeeded);
      } else if |j.results| < config.maxRetries {
        j := j.(phase := Sleeping);
      } else {
        j := j.(phase := Exhausted);
      }
      jobs := jobs[i := j];
    }

    method Wake(i: nat)
      requires Valid() && Enabled(State(), Step.Wake(i))
      modifies this`jobs
      ensures Valid() && State() == Next(config, old(State()), Step.Wake(i))
    {
      Kept(Step.Wake(i));
      hide Inv;
      var j := jobs[i];
      var backoff := j.backoff * 2;
      if backoff > config.maxBackoff {
        backoff := config.maxBackoff;
      }
      jobs := jobs[i := j.(phase := Trying, slept := j.slept + [j.backoff], backoff := backoff)];
    }

    // The send never meets a closed channel: Valid rules the branch out.
    method SendToDLQ(i: nat)
      requires Valid() && Enabled(State(), Step.SendToDLQ(i))
      modifies this`jobs, this`dlq
      ensures Valid() && State() == Next(config, old(State()), Step.SendToDLQ(i))
      ensures jobs[i].outcome == if |old(dlq)| < config.dlqSize then DeadLettered else Dropped
    {
      Kept(Step.SendToDLQ(i));
      assert dlqOpen;
      hide Inv;
      if |dlq| < config.dlqSize {
        dlq := dlq + [jobs[i].event];
        jobs := jobs[i := jobs[i].(phase := Ended, outcome := DeadLettered)];
      } else {
        jobs := jobs[i := jobs[i].(phase := Ended, outcome := Dropped)];
      }
    }

    method Done(i: nat)
      requires Valid() && Enabled(State(), Step.Done(i))
      modifies this`jobs, this`wg
      ensures Valid() && State() == Next(config, old(State()), Step.Done(i))
    {
      Kept(Step.Done(i));
      hide Inv;
      wg := wg - 1;
      jobs := jobs[i := jobs[i].(phase := Gone)];
    }

    method Receive() returns (event: Event)
      requires Valid() && dlq != []
      modifies this`dlq, this`received
      ensures Valid() && State() == Next(config, old(State()), Step.Receive)
      ensures event == old(dlq)[0]
    {
      Kept(Step.Receive);
      hide Inv;
      event := dlq[0];
      dlq, received := dlq[1..], received + [dlq[0]];
    }

    // Close up to its first unlock; only the call that flips the flag goes on.
    method CloseStart() returns (goesOn: bool)
      requires Valid()
      modifies this`closed, this`closer
      ensures Valid() && State() == Next(config, old(State()), Step.CloseStart)
      ensures goesOn <==> !old(closed)
    {
      Kept(Step.CloseStart);
      hide Inv;
      if closed {
        return false;
      }
      closed, closer := true, Waiting;
      return true;
    }

    method CloseWait()
      requires Valid() && Enabled(State(), Step.CloseWait)
      modifies this`closer
      ensures Valid() && State() == Next(config, old(State()), Step.CloseWait)
    {
      Kept(Step.CloseWait);
      hide Inv;
      closer := Drained;
    }

    method CloseFinish()
      requires Valid() && Enabled(State(), Step.CloseFinish)
      modifies this`closer, this`dlqOpen, this`closes
      ensures Valid() && State() == Next(config, old(State()), Step.CloseFinish)
      ensures old(dlqOpen) && !dlqOpen
    {
      Kept(Step.CloseFinish);
      hide Inv;
      closer, dlqOpen, closes := Returned, false, closes + 1;
    }

    lemma Kept(step: Step)
      requires Valid() && Enabled(State(), step)
      ensures Inv(config, Next(config, State(), step))
    {
      NextKeepsJobs(config, State(), step);
      NextKeepsClose(config, State(), step);
      NextKeepsLetters(config, State(), step);
    }
  }
}
