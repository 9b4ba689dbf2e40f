/** The idempotency wrapper (internal/events/idempotency.go) under overlapping deliveries: it
    takes no lock between its lookup, the handler and its mark, and the bus runs every delivery
    in a goroutine of its own. */
module Idempotency {
  import opened Counting

  // Where one call of the wrapped handler is.  Looked: the event was not marked; Handled: the
  // handler succeeded and the mark is still to come; the others are final.
  datatype Phase = Called | Looked | Handled | Skipped | LookupFailed | HandlerFailed | Marked | MarkFailed

  // looked and marked: when the lookup found nothing and when the mark was written.
  datatype Delivery = Delivery(id: nat, phase: Phase, looked: nat, marked: nat)

  // marked: the dedup store; calls: all calls of the wrapper so far; clock: steps taken.
  datatype Dedup = Dedup(marked: set<nat>, calls: seq<Delivery>, clock: nat)

  datatype Step =
    | Begin(id: nat)           // a delivery, or a retry of one, calls the wrapper
    | Look(i: nat, ok: bool)   // store.Exists
    | Handle(i: nat, ok: bool) // the handler
    | Mark(i: nat, ok: bool)   // store.Mark

  const NO_CALLS := Dedup({}, [], 0)

  predicate Enabled(s: Dedup, step: Step) {
    match step
    case Begin(_) => true
    case Look(i, _) => i < |s.calls| && s.calls[i].phase == Called
    case Handle(i, _) => i < |s.calls| && s.calls[i].phase == Looked
    case Mark(i, _) => i < |s.calls| && s.calls[i].phase == Handled
  }

  function After(s: Dedup, step: Step): Delivery
    requires Enabled(s, step) && !step.Begin?
  {
    var d := s.calls[step.i];
    match step
    case Look(_, ok) =>
      if !ok then d.(phase := LookupFailed)
      else if d.id in s.marked then d.(phase := Skipped)
      else d.(phase := Looked, looked := s.clock)
    case Handle(_, ok) => d.(phase := if ok then Handled else HandlerFailed)
    case Mark(_, ok) => if ok then d.(phase := Marked, marked := s.clock) else d.(phase := MarkFailed)
  }

  function Next(s: Dedup, step: Step): Dedup
    requires Enabled(s, step)
  {
    if step.Begin? then Dedup(s.marked, s.calls + [Delivery(step.id, Called, 0, 0)], s.clock + 1)
    else
      Dedup(if step.Mark? && step.ok then s.marked + {s.calls[step.i].id} else s.marked,
            s.calls[step.i := After(s, step)], s.clock + 1)
  }

  // A schedule is any sequence of steps; entries that are not enabled are skipped.
  function Run(s: Dedup, steps: seq<Step>): Dedup
    decreases |steps|
  {
    if steps == [] then s else Run(if Enabled(s, steps[0]) then Next(s, steps[0]) else s, steps[1..])
  }

  lemma {:induction false} RunAppend(s: Dedup, a: seq<Step>, b: seq<Step>)
    ensures Run(s, a + b) == Run(Run(s, a), b)
    decreases |a|
  {
    if a == [] {
      assert a + b == b;
    } else {
      assert (a + b)[1..] == a[1..] + b;
      RunAppend(if Enabled(s, a[0]) then Next(s, a[0]) else s, a[1..], b);
    }
  }

  lemma FourSteps(s: Dedup, a: Step, b: Step, c: Step, d: Step)
    ensures var s1 := if Enabled(s, a) then Next(s, a) else s;
      var s2 := if Enabled(s1, b) then Next(s1, b) else s1;
      var s3 := if Enabled(s2, c) then Next(s2, c) else s2;
      Run(s, [a, b, c, d]) == if Enabled(s3, d) then Next(s3, d) else s3
  {
    var s1 := if Enabled(s, a) then Next(s, a) else s;
    var s2 := if Enabled(s1, b) then Next(s1, b) else s1;
    var s3 := if Enabled(s2, c) then Next(s2, c) else s2;
    assert [a, b, c, d][1..] == [b, c, d] && [b, c, d][1..] == [c, d] && [c, d][1..] == [d] && [d][1..] == [];
    var s4 := if Enabled(s3, d) then Next(s3, d) else s3;
    assert Run(s, [a, b, c, d]) == Run(s1, [b, c, d]) == Run(s2, [c, d]) == Run(s3, [d]) == Run(s4, []);
  }

  // ----- what is promised -----------------------------------------------------------------

  function In(id: nat, phases: set<Phase>): Delivery -> bool {
    (d: Delivery) => d.id == id && d.phase in phases
  }

  // How often the handler has succeeded for an event, and how often its mark then failed.
  function Handlings(s: Dedup, id: nat): nat {
    Count(s.calls, In(id, {Handled, Marked, MarkFailed}))
  }

  function FailedMarks(s: Dedup, id: nat): nat {
    Count(s.calls, In(id, {MarkFailed}))
  }

  predicate Kept(s: Dedup, id: nat) {
    Handlings(s, id) <= 1 + FailedMarks(s, id)
  }

  // Calls past a lookup that found nothing: still running, and not undone by a failure.
  function Open(s: Dedup, id: nat): nat {
    Count(s.calls, In(id, {Looked, Handled}))
  }

  function Exposure(s: Dedup, id: nat): nat {
    Count(s.calls, In(id, {Looked, Handled, Marked}))
  }

  lemma {:induction false} CountSplit(calls: seq<Delivery>, id: nat, a: set<Phase>, b: set<Phase>)
    requires a !! b
    ensures Count(calls, In(id, a + b)) == Count(calls, In(id, a)) + Count(calls, In(id, b))
  {
    if calls != [] {
      CountSplit(calls[1..], id, a, b);
    }
  }

  // The promise in terms of the successes that stand.
  lemma KeptIsOneEffect(s: Dedup, id: nat)
    ensures Kept(s, id) <==> Count(s.calls, In(id, {Handled, Marked})) <= 1
    ensures Exposure(s, id) == Open(s, id) + Count(s.calls, In(id, {Marked}))
    ensures Count(s.calls, In(id, {Handled, Marked})) <= Exposure(s, id)
  {
    CountSplit(s.calls, id, {Handled, Marked}, {MarkFailed});
    assert {Handled, Marked} + {MarkFailed} == {Handled, Marked, MarkFailed};
    CountSplit(s.calls, id, {Looked, Handled}, {Marked});
    assert {Looked, Handled} + {Marked} == {Looked, Handled, Marked};
    CountSplit(s.calls, id, {Looked}, {Handled, Marked});
    assert {Looked} + {Handled, Marked} == {Looked, Handled, Marked};
  }

  // ----- the invariant of every schedule --------------------------------------------------

  predicate PastLook(d: Delivery) {
    d.phase in {Looked, Handled, Marked, MarkFailed, HandlerFailed}
  }

  ghost predicate TimesOK(s: Dedup) {
    && (forall i :: 0 <= i < |s.calls| && PastLook(s.calls[i]) ==> s.calls[i].looked < s.clock)
    && (forall i :: 0 <= i < |s.calls| && s.calls[i].phase == Marked ==>
          s.calls[i].id in s.marked && s.calls[i].marked < s.clock)
    && (forall id :: id in s.marked ==>
          exists i :: 0 <= i < |s.calls| && s.calls[i].id == id && s.calls[i].phase == Marked)
    && forall i, j :: (0 <= i < |s.calls| && 0 <= j < |s.calls| && s.calls[i].id == s.calls[j].id
         && PastLook(s.calls[i]) && s.calls[j].phase == Marked) ==> s.calls[i].looked < s.calls[j].marked
  }

  lemma StepKeepsTimes(s: Dedup, step: Step)
    requires TimesOK(s) && Enabled(s, step)
    ensures TimesOK(Next(s, step))
  {
    var s' := Next(s, step);
    if !step.Begin? {
      AfterTimes(s, step);
    }
    hide After, PastLook;
    forall id | id in s'.marked
      ensures exists i :: 0 <= i < |s'.calls| && s'.calls[i].id == id && s'.calls[i].phase == Marked
    {
      if id in s.marked {
        var i :| 0 <= i < |s.calls| && s.calls[i].id == id && s.calls[i].phase == Marked;
        assert s'.calls[i] == s.calls[i];
      } else {
        assert s'.calls[step.i].id == id && s'.calls[step.i].phase == Marked;
      }
    }
    if step.Begin? {
      assert !PastLook(Delivery(step.id, Called, 0, 0)) by { NewIsBeforeLook(step.id); }
    }
  }

  lemma NewIsBeforeLook(id: nat)
    ensures !PastLook(Delivery(id, Called, 0, 0))
  {
  }

  lemma AfterTimes(s: Dedup, step: Step)
    requires Enabled(s, step) && !step.Begin?
    ensures var d, d' := s.calls[step.i], After(s, step);
      && d'.id == d.id && d.phase != Marked
      && (PastLook(d') ==> (PastLook(d) && d'.looked == d.looked) || (d'.looked == s.clock && d.id !in s.marked))
      && (PastLook(d') && !PastLook(d) ==> d'.phase == Looked)
      && (d'.phase == Marked <==> step.Mark? && step.ok) && (d'.phase == Marked ==> d'.marked == s.clock)
  {
  }

  lemma {:induction false} RunKeepsTimes(s: Dedup, steps: seq<Step>)
    requires TimesOK(s)
    ensures TimesOK(Run(s, steps))
    decreases |steps|
  {
    if steps != [] {
      if Enabled(s, steps[0]) {
        StepKeepsTimes(s, steps[0]);
        hide TimesOK;
        RunKeepsTimes(Next(s, steps[0]), steps[1..]);
      } else {
        RunKeepsTimes(s, steps[1..]);
      }
    }
  }

  // ----- exactly when the promise is broken -----------------------------------------------

  // Two deliveries of one event overlap: each looked before the other was marked.
  predicate Overlap(a: Delivery, b: Delivery) {
    && a.id == b.id && PastLook(a) && PastLook(b)
    && (b.phase == Marked ==> a.looked < b.marked) && (a.phase == Marked ==> b.looked < a.marked)
  }

  lemma EffectsOverlap(s: Dedup, id: nat, i: nat, j: nat)
    requires TimesOK(s) && i < j < |s.calls|
    requires In(id, {Handled, Marked})(s.calls[i]) && In(id, {Handled, Marked})(s.calls[j])
    ensures BothTookEffect(id, s.calls[i], s.calls[j])
  {
  }

  predicate BothTookEffect(id: nat, a: Delivery, b: Delivery) {
    a.id == id && a.phase in {Handled, Marked} && b.phase in {Handled, Marked} && Overlap(a, b)
  }

  ghost predicate Overlapped(s: Dedup, id: nat) {
    exists i, j :: 0 <= i < j < |s.calls| && BothTookEffect(id, s.calls[i], s.calls[j])
  }

  // In every schedule, a handler has succeeded for an event more than once beyond its failed
  // marks exactly when two overlapping deliveries of it were both handled and neither's mark
  // failed.
  lemma BrokenIffOverlap(steps: seq<Step>, id: nat)
    ensures var s := Run(NO_CALLS, steps);
      Kept(s, id) <==> !Overlapped(s, id)
  {
    RunKeepsTimes(NO_CALLS, steps);
    BrokenAt(Run(NO_CALLS, steps), id);
  }

  lemma BrokenAt(s: Dedup, id: nat)
    requires TimesOK(s)
    ensures Kept(s, id) <==> !Overlapped(s, id)
  {
    var p := In(id, {Handled, Marked});
    KeptIsOneEffect(s, id);
    CountTwo(s.calls, p);
    forall i, j | 0 <= i < j < |s.calls|
      ensures p(s.calls[i]) && p(s.calls[j]) <==> BothTookEffect(id, s.calls[i], s.calls[j])
    {
      if p(s.calls[i]) && p(s.calls[j]) {
        EffectsOverlap(s, id, i, j);
      }
    }
    hide Kept, Count, In, BothTookEffect;
  }

  // Two deliveries that both look before either marks: handled twice, no mark failed.
  lemma OverlapHandlesTwice(id: nat)
    ensures var s := Run(NO_CALLS, [Begin(id), Begin(id), Look(0, true), Look(1, true)]
                                   + [Handle(0, true), Handle(1, true), Mark(0, true), Mark(1, true)]);
      Handlings(s, id) == 2 && FailedMarks(s, id) == 0 && id in s.marked
  {
    var first := [Begin(id), Begin(id), Look(0, true), Look(1, true)];
    var second := [Handle(0, true), Handle(1, true), Mark(0, true), Mark(1, true)];
    RunAppend(NO_CALLS, first, second);
    FourSteps(NO_CALLS, Begin(id), Begin(id), Look(0, true), Look(1, true));
    var s := Run(NO_CALLS, first);
    assert s == Dedup({}, [Delivery(id, Looked, 2, 0), Delivery(id, Looked, 3, 0)], 4) by {
      var d := Delivery(id, Called, 0, 0);
      assert Next(Next(NO_CALLS, Begin(id)), Begin(id)).calls == [d, d];
    }
    FourSteps(s, Handle(0, true), Handle(1, true), Mark(0, true), Mark(1, true));
    var s' := Run(s, second);
    assert s' == Dedup({id}, [Delivery(id, Marked, 2, 6), Delivery(id, Marked, 3, 7)], 8);
    CountAll(s'.calls, In(id, {Handled, Marked, MarkFailed}), true);
    CountAll(s'.calls, In(id, {MarkFailed}), false);
  }

  // ----- the discipline that keeps it -----------------------------------------------------

  // A lookup that finds nothing while another delivery of the event is past its own.
  predicate Overtakes(s: Dedup, step: Step, id: nat) {
    step.Look? && step.ok && Enabled(s, step) && s.calls[step.i].id == id && id !in s.marked && Open(s, id) > 0
  }

  predicate Serial(s: Dedup, steps: seq<Step>, id: nat)
    decreases |steps|
  {
    steps == [] ||
    (!Overtakes(s, steps[0], id) && Serial(if Enabled(s, steps[0]) then Next(s, steps[0]) else s, steps[1..], id))
  }

  // Steps that only let deliveries already past their lookup go on.
  predicate Finishing(steps: seq<Step>) {
    forall step :: step in steps ==> step.Handle? || step.Mark?
  }

  lemma PhaseCounts(s: Dedup, step: Step, id: nat, phases: set<Phase>)
    requires Enabled(s, step) && Called !in phases
    ensures Count(Next(s, step).calls, In(id, phases)) == Count(s.calls, In(id, phases))
      + if step.Begin? then 0
        else (if In(id, phases)(After(s, step)) then 1 else 0) - (if In(id, phases)(s.calls[step.i]) then 1 else 0)
  {
    if step.Begin? {
      CountAppend(s.calls, [Delivery(step.id, Called, 0, 0)], In(id, phases));
      CountAll([Delivery(step.id, Called, 0, 0)], In(id, phases), false);
    } else {
      CountUpdate(s.calls, step.i, After(s, step), In(id, phases));
    }
  }

  ghost predicate Safe(s: Dedup, id: nat) {
    Exposure(s, id) <= 1 && (id in s.marked <==> Count(s.calls, In(id, {Marked})) > 0)
  }

  lemma StepKeepsSafe(s: Dedup, step: Step, id: nat)
    requires Safe(s, id) && Enabled(s, step) && !Overtakes(s, step, id)
    ensures Safe(Next(s, step), id)
  {
    PhaseCounts(s, step, id, {Looked, Handled, Marked});
    PhaseCounts(s, step, id, {Marked});
    KeptIsOneEffect(s, id);
    hide Count;
  }

  lemma {:induction false} SerialKeepsSafe(s: Dedup, steps: seq<Step>, id: nat)
    requires Safe(s, id) && Serial(s, steps, id)
    ensures Safe(Run(s, steps), id)
    decreases |steps|
  {
    if steps != [] {
      if Enabled(s, steps[0]) {
        StepKeepsSafe(s, steps[0], id);
        hide Safe, Overtakes, Next;
        SerialKeepsSafe(Next(s, steps[0]), steps[1..], id);
      } else {
        SerialKeepsSafe(s, steps[1..], id);
      }
    }
  }

  lemma {:induction false} FinishingIsSerial(s: Dedup, steps: seq<Step>, id: nat)
    requires Finishing(steps)
    ensures Serial(s, steps, id)
    decreases |steps|
  {
    if steps != [] {
      assert steps[0] in steps;
      FinishingIsSerial(if Enabled(s, steps[0]) then Next(s, steps[0]) else s, steps[1..], id);
    }
  }

  // With two deliveries past their lookups, nothing but their own going on breaks the promise.
  lemma TwoOpenBreak(s: Dedup, id: nat) returns (tail: seq<Step>)
    requires Open(s, id) >= 2
    ensures Finishing(tail) && !Kept(Run(s, tail), id)
  {
    CountTwo(s.calls, In(id, {Looked, Handled}));
    var i, j :| 0 <= i < j < |s.calls|
      && In(id, {Looked, Handled})(s.calls[i]) && In(id, {Looked, Handled})(s.calls[j]);
    tail := [Handle(i, true), Handle(j, true)];
    assert tail[1..] == [Handle(j, true)] && tail[1..][1..] == [];
    var s1 := if Enabled(s, tail[0]) then Next(s, tail[0]) else s;
    var s2 := if Enabled(s1, tail[1]) then Next(s1, tail[1]) else s1;
    assert Run(s, tail) == Run(s1, tail[1..]) == Run(s2, []) == s2;
    var p := In(id, {Handled, Marked});
    assert p(s2.calls[i]) && p(s2.calls[j]);
    CountTwo(s2.calls, p);
    KeptIsOneEffect(s2, id);
  }

  lemma {:induction false} OvertakingBreaks(s: Dedup, steps: seq<Step>, id: nat) returns (k: nat, tail: seq<Step>)
    requires !Serial(s, steps, id)
    ensures k <= |steps| && Finishing(tail) && !Kept(Run(s, steps[..k] + tail), id)
    decreases |steps|
  {
    var s' := if Enabled(s, steps[0]) then Next(s, steps[0]) else s;
    if Overtakes(s, steps[0], id) {
      PhaseCounts(s, steps[0], id, {Looked, Handled});
      tail := TwoOpenBreak(s', id);
      k := 1;
      assert (steps[..1] + tail)[1..] == tail;
    } else {
      k, tail := OvertakingBreaks(s', steps[1..], id);
      assert (steps[..k + 1] + tail)[1..] == steps[1..][..k] + tail;
      k := k + 1;
    }
  }

  // The exact condition on a schedule: whatever the deliveries past their lookup go on to do at
  // any point of it, the promise is kept, if and only if no lookup finds nothing while another
  // delivery of the event is between its lookup and its end.
  lemma KeptIffSerial(steps: seq<Step>, id: nat)
    ensures Serial(NO_CALLS, steps, id) <==>
      forall k, tail :: 0 <= k <= |steps| && Finishing(tail) ==> Kept(Run(NO_CALLS, steps[..k] + tail), id)
  {
    if Serial(NO_CALLS, steps, id) {
      forall k, tail | 0 <= k <= |steps| && Finishing(tail) ensures Kept(Run(NO_CALLS, steps[..k] + tail), id) {
        SerialPrefix(NO_CALLS, steps, k, id);
        var s := Run(NO_CALLS, steps[..k]);
        SerialKeepsSafe(NO_CALLS, steps[..k], id);
        FinishingIsSerial(s, tail, id);
        SerialKeepsSafe(s, tail, id);
        RunAppend(NO_CALLS, steps[..k], tail);
        KeptIsOneEffect(Run(s, tail), id);
      }
    } else {
      var k, tail := OvertakingBreaks(NO_CALLS, steps, id);
    }
  }

  lemma {:induction false} SerialPrefix(s: Dedup, steps: seq<Step>, k: nat, id: nat)
    requires Serial(s, steps, id) && k <= |steps|
    ensures Serial(s, steps[..k], id)
    decreases |steps|
  {
    if k > 0 {
      assert steps[..k][1..] == steps[1..][..k - 1];
      SerialPrefix(if Enabled(s, steps[0]) then Next(s, steps[0]) else s, steps[1..], k - 1, id);
    }
  }

  // ----- after the mark -------------------------------------------------------------------

  lemma {:induction false} MarkedRun(s: Dedup, steps: seq<Step>, id: nat)
    requires id in s.marked
    ensures var s' := Run(s, steps);
      && id in s'.marked && Handlings(s, id) <= Handlings(s', id)
      && Handlings(s', id) + Count(s'.calls, In(id, {Looked})) <= Handlings(s, id) + Count(s.calls, In(id, {Looked}))
    decreases |steps|
  {
    if steps != [] {
      if Enabled(s, steps[0]) {
        PhaseCounts(s, steps[0], id, {Handled, Marked, MarkFailed});
        PhaseCounts(s, steps[0], id, {Looked});
        hide Count;
        MarkedRun(Next(s, steps[0]), steps[1..], id);
      } else {
        MarkedRun(s, steps[1..], id);
      }
    }
  }

  // Once an event is marked, no run handles it again if and only if no delivery of it is still
  // between its lookup and its handler; and at most those deliveries do.
  lemma MarkedIsFinalIff(s: Dedup, id: nat)
    requires id in s.marked
    ensures (forall steps :: Handlings(Run(s, steps), id) == Handlings(s, id))
      <==> forall i :: 0 <= i < |s.calls| && s.calls[i].id == id ==> s.calls[i].phase != Looked
    ensures forall steps :: Handlings(Run(s, steps), id) <= Handlings(s, id) + Count(s.calls, In(id, {Looked}))
  {
    forall steps ensures Handlings(Run(s, steps), id) >= Handlings(s, id)
      && Handlings(Run(s, steps), id) <= Handlings(s, id) + Count(s.calls, In(id, {Looked}))
    {
      MarkedRun(s, steps, id);
    }
    CountZero(s.calls, In(id, {Looked}));
    if i :| 0 <= i < |s.calls| && s.calls[i].id == id && s.calls[i].phase == Looked {
      var steps := [Handle(i, true)];
      assert steps[1..] == [];
      PhaseCounts(s, steps[0], id, {Handled, Marked, MarkFailed});
      assert Run(s, steps) == Run(Next(s, steps[0]), []);
      assert Handlings(Run(s, steps), id) == Handlings(s, id) + 1;
    } else {
      assert forall i :: 0 <= i < |s.calls| ==> !In(id, {Looked})(s.calls[i]);
    }
  }

  // ----- the wrapper ----------------------------------------------------------------------

  class IdempotentHandler {
    var marked: set<nat>
    ghost var calls: seq<Delivery>
    ghost var clock: nat

    ghost function View(): Dedup
      reads this
    {
      Dedup(marked, calls, clock)
    }

    constructor ()
      ensures View() == NO_CALLS
    {
      marked, calls, clock := {}, [], 0;
    }

    ghost method Call(id: nat)
      modifies this`calls, this`clock
      ensures View() == Next(old(View()), Begin(id))
    {
      calls, clock := calls + [Delivery(id, Called, 0, 0)], clock + 1;
    }

    method Exists(id: nat, ok: bool, ghost i: nat) returns (found: bool)
      requires Enabled(View(), Look(i, ok)) && calls[i].id == id
      modifies this`calls, this`clock
      ensures View() == Next(old(View()), Look(i, ok))
      ensures found == (id in marked)
    {
      found := id in marked;
      calls, clock := calls[i := After(View(), Look(i, ok))], clock + 1;
    }

    ghost method HandlerReturned(ok: bool, i: nat)
      requires Enabled(View(), Step.Handle(i, ok))
      modifies this`calls, this`clock
      ensures View() == Next(old(View()), Step.Handle(i, ok))
    {
      calls, clock := calls[i := After(View(), Step.Handle(i, ok))], clock + 1;
    }

    method MarkEvent(id: nat, ok: bool, ghost i: nat)
      requires Enabled(View(), Mark(i, ok)) && calls[i].id == id
      modifies this
      ensures View() == Next(old(View()), Mark(i, ok))
    {
      calls, clock := calls[i := After(View(), Mark(i, ok))], clock + 1;
      if ok {
        marked := marked + {id};
      }
    }

    // One pass with nothing in between: an error when the lookup or the handler fails; a failed
    // mark is not reported.
    method Handle(id: nat, lookupOk: bool, handlerOk: bool, markOk: bool) returns (ok: bool)
      modifies this
      ensures ok <==> lookupOk && (id in old(marked) || handlerOk)
      ensures var i := |old(calls)|;
        View() == Run(old(View()), [Begin(id), Look(i, lookupOk), Step.Handle(i, handlerOk), Mark(i, markOk)])
    {
      ghost var i, start := |calls|, View();
      ghost var steps := [Begin(id), Look(i, lookupOk), Step.Handle(i, handlerOk), Mark(i, markOk)];
      ghost var s1 := Next(start, steps[0]);
      ghost var s2 := Next(s1, steps[1]);
      FourSteps(start, steps[0], steps[1], steps[2], steps[3]);
      Call(id);
      var found := Exists(id, lookupOk, i);
      if !lookupOk {
        return false;
      }
      if found {
        return true;
      }
      HandlerReturned(handlerOk, i);
      if !handlerOk {
        return false;
      }
      MarkEvent(id, markOk, i);
      return true;
    }
  }
}
