/** Start-up and shutdown of the engine's modules (internal/engine/engine.go): the Init loop
    over the sorted modules and the reverse loop of Shutdown. */
module Engine {
  import opened DepGraph

  datatype Step = Init(name: string) | InitFailed(name: string) | Stop(name: string)

  datatype BootResult = Ready | WiringError(cause: SortResult) | InitError(name: string)

  function Inits(ms: seq<Module>): (r: seq<Step>)
    ensures |r| == |ms| && forall i :: 0 <= i < |ms| ==> r[i] == Init(ms[i].name)
  {
    seq(|ms|, i requires 0 <= i < |ms| => Init(ms[i].name))
  }

  function Stops(ms: seq<Module>): (r: seq<Step>)
    ensures |r| == |ms| && forall i :: 0 <= i < |ms| ==> r[i] == Stop(ms[|ms| - 1 - i].name)
  {
    seq(|ms|, i requires 0 <= i < |ms| => Stop(ms[|ms| - 1 - i].name))
  }

  class Engine {
    var activeModules: seq<Module>
    var log: seq<Step>  // what was done to the modules so far, oldest first

    constructor ()
      ensures activeModules == [] && log == []
    {
      activeModules, log := [], [];
    }

    // initOk tells which modules' Init succeeds.
    method Boot(active: seq<Module>, initOk: string -> bool) returns (r: BootResult)
      modifies this
      ensures r.Ready? ==> Distinct(active) && Closed(active) && !Cyclic(active)
      ensures r.Ready? ==>
        && multiset(activeModules) == multiset(active) && DependencyFirst(activeModules)
        && log == old(log) + Inits(activeModules)
        && forall m :: m in active ==> initOk(m.name)
      ensures !r.Ready? ==> activeModules == old(activeModules)
      ensures r.WiringError? ==> log == old(log) && !r.cause.Sorted?
      ensures r.WiringError? <==> !(Distinct(active) && Closed(active) && !Cyclic(active))
      ensures r.InitError? ==> exists order: seq<Module>, k: nat ::
        && multiset(order) == multiset(active) && DependencyFirst(order)
        && k < |order| && r.name == order[k].name && !initOk(r.name)
        && (forall i :: 0 <= i < k ==> initOk(order[i].name))
        && log == old(log) + Inits(order[..k]) + [InitFailed(r.name)]
    {
      hide *;
      var sorted, _ := ValidateAndSort(active);
      if !sorted.Sorted? {
        return WiringError(sorted);
      }
      var order := sorted.order;
      assert Inits(order[..0]) == [];
      for i := 0 to |order|
        invariant log == old(log) + Inits(order[..i])
        invariant activeModules == old(activeModules)
        invariant forall j :: 0 <= j < i ==> initOk(order[j].name)
      {
        if !initOk(order[i].name) {
          log := log + [InitFailed(order[i].name)];
          return InitError(order[i].name);
        }
        assert Inits(order[..i + 1]) == Inits(order[..i]) + [Init(order[i].name)];
        log := log + [Init(order[i].name)];
      }
      assert order[..|order|] == order;
      activeModules := order;
      forall m | m in active ensures initOk(m.name) {
        assert m in multiset(active);
        assert m in order;
      }
      return Ready;
    }

    // An error from a module's own Shutdown is logged and does not stop the loop.
    method Shutdown()
      modifies this`log
      ensures log == old(log) + Stops(activeModules)
    {
      var i := |activeModules|;
      while i > 0
        invariant 0 <= i <= |activeModules|
        invariant log == old(log) + Stops(activeModules)[..|activeModules| - i]
      {
        i := i - 1;
        log := log + [Stop(activeModules[i].name)];
      }
    }
  }

  // x happens exactly once in the log, as entry i.
  ghost predicate OnlyAt(log: seq<Step>, x: Step, i: nat) {
    i < |log| && forall j :: 0 <= j < |log| ==> (log[j] == x <==> j == i)
  }

  // The log of a boot followed by a shutdown, read as a whole: a required module is
  // initialised before its dependents and stopped after them.
  lemma DependenciesOutliveDependents(order: seq<Module>, a: string, b: string)
    returns (initB: nat, initA: nat, stopA: nat, stopB: nat)
    requires Distinct(order) && DependencyFirst(order) && Edge(order, a, b)
    ensures initB < initA < stopA < stopB
    ensures OnlyAt(Inits(order) + Stops(order), Init(b), initB)
    ensures OnlyAt(Inits(order) + Stops(order), Init(a), initA)
    ensures OnlyAt(Inits(order) + Stops(order), Stop(a), stopA)
    ensures OnlyAt(Inits(order) + Stops(order), Stop(b), stopB)
  {
    var m :| m in order && m.name == a && b in m.deps;
    initA :| 0 <= initA < |order| && order[initA] == m;
    assert b in NameSet(order[..initA]);
    var m' :| m' in order[..initA] && m'.name == b;
    initB :| 0 <= initB < initA && order[initB] == m';
    stopA, stopB := 2 * |order| - 1 - initA, 2 * |order| - 1 - initB;
    Positions(order, initA);
    Positions(order, initB);
  }

  lemma Positions(order: seq<Module>, k: nat)
    requires Distinct(order) && k < |order|
    ensures OnlyAt(Inits(order) + Stops(order), Init(order[k].name), k)
    ensures OnlyAt(Inits(order) + Stops(order), Stop(order[k].name), 2 * |order| - 1 - k)
  {
    var log := Inits(order) + Stops(order);
    forall i | 0 <= i < |log|
      ensures log[i] == Init(order[k].name) <==> i == k
      ensures log[i] == Stop(order[k].name) <==> i == 2 * |order| - 1 - k
    {
      if i < |order| {
        assert log[i] == Inits(order)[i] == Init(order[i].name);
      } else {
        var j := 2 * |order| - 1 - i;
        assert log[i] == Stops(order)[i - |order|] == Stop(order[j].name);
      }
    }
  }
}
