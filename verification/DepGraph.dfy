/** Dependency sorting of engine modules: validation, Kahn's algorithm and the
    cycle-path walk used for the error message (internal/engine/depgraph.go). */
module DepGraph {

  datatype Module = Module(name: string, deps: seq<string>)

  datatype SortResult =
    | Sorted(order: seq<Module>)
    | Missing(dependent: string, dep: string)
    | Circular(path: seq<string>)
    | CircularUnknown

  // ----- the requirement relation ---------------------------------------------------------

  ghost function NameSet(ms: seq<Module>): set<string> {
    set m | m in ms :: m.name
  }

  ghost predicate Distinct(ms: seq<Module>) {
    forall i, j :: 0 <= i < j < |ms| ==> ms[i].name != ms[j].name
  }

  // Module a requires module b.
  ghost predicate Edge(ms: seq<Module>, a: string, b: string) {
    exists m :: m in ms && m.name == a && b in m.deps
  }

  ghost predicate Closed(ms: seq<Module>) {
    forall m, d :: m in ms && d in m.deps ==> d in NameSet(ms)
  }

  ghost predicate IsWalk(ms: seq<Module>, p: seq<string>) {
    forall i :: 0 < i < |p| ==> Edge(ms, p[i - 1], p[i])
  }

  ghost predicate IsCycle(ms: seq<Module>, p: seq<string>) {
    |p| >= 2 && IsWalk(ms, p) && p[0] == p[|p| - 1]
  }

  ghost predicate Cyclic(ms: seq<Module>) {
    exists p :: IsCycle(ms, p)
  }

  // A walk whose last entry is the only one that repeats an earlier entry.
  ghost predicate IsLasso(ms: seq<Module>, p: seq<string>) {
    && |p| >= 2 && IsWalk(ms, p)
    && p[|p| - 1] in p[..|p| - 1]
    && NoRepeat(p[..|p| - 1])
  }

  // Following requirements from n, a walk can run into itself.
  ghost predicate LeadsToCycle(ms: seq<Module>, n: string) {
    exists p :: IsLasso(ms, p) && p[0] == n
  }

  ghost predicate NoRepeat(p: seq<string>) {
    forall i, j :: 0 <= i < j < |p| ==> p[i] != p[j]
  }

  // Every module comes after all modules it requires.
  ghost predicate DependencyFirst(order: seq<Module>) {
    forall i, d :: 0 <= i < |order| && d in order[i].deps ==> d in NameSet(order[..i])
  }

  // (i, j) is the first requirement, in declaration order, that no module provides.
  ghost predicate FirstMissing(ms: seq<Module>, i: nat, j: nat) {
    && i < |ms| && j < |ms[i].deps| && ms[i].deps[j] !in NameSet(ms)
    && (forall m, d :: m in ms[..i] && d in m.deps ==> d in NameSet(ms))
    && (forall d :: d in ms[i].deps[..j] ==> d in NameSet(ms))
  }

  lemma LassoHoldsCycle(ms: seq<Module>, p: seq<string>)
    requires IsLasso(ms, p)
    ensures exists k :: 0 <= k < |p| - 1 && IsCycle(ms, p[k..])
    ensures Cyclic(ms)
  {
    var k :| 0 <= k < |p| - 1 && p[k] == p[|p| - 1];
    var c := p[k..];
    forall i | 0 < i < |c| ensures Edge(ms, c[i - 1], c[i]) {
      assert c[i - 1] == p[k + i - 1] && c[i] == p[k + i];
    }
    assert IsCycle(ms, c);
  }

  // ----- requirements listed under a name -------------------------------------------------

  function DepsOf(ms: seq<Module>, n: string): seq<string> {
    if ms == [] then []
    else
      var last := ms[|ms| - 1];
      DepsOf(ms[..|ms| - 1], n) + if last.name == n then last.deps else []
  }

  lemma {:induction false} DepsOfIsEdge(ms: seq<Module>, n: string, d: string)
    ensures d in DepsOf(ms, n) <==> Edge(ms, n, d)
  {
    if ms != [] {
      var init, last := ms[..|ms| - 1], ms[|ms| - 1];
      DepsOfIsEdge(init, n, d);
      assert ms == init + [last];
      if last.name == n && d in last.deps {
        assert last in ms;
      }
    }
  }

  // How many entries of s are not in done.
  function CountOut(s: seq<string>, done: set<string>): nat {
    if s == [] then 0 else (if s[0] in done then 0 else 1) + CountOut(s[1..], done)
  }

  lemma {:induction false} CountOutZero(s: seq<string>, done: set<string>)
    ensures CountOut(s, done) == 0 <==> forall d :: d in s ==> d in done
    ensures CountOut(s, {}) == |s|
  {
    if s != [] {
      CountOutZero(s[1..], done);
      assert s == [s[0]] + s[1..];
    }
  }

  lemma {:induction false} CountOutAdd(s: seq<string>, done: set<string>, c: string)
    requires c !in done
    ensures CountOut(s, done) == CountOut(s, done + {c}) + multiset(s)[c]
  {
    if s != [] {
      CountOutAdd(s[1..], done, c);
      assert s == [s[0]] + s[1..];
      assert multiset(s) == multiset{s[0]} + multiset(s[1..]);
    }
  }

  // ----- graph facts ----------------------------------------------------------------------

  // A dependency-first order rules out cycles: positions strictly decrease along requirements.
  lemma {:induction false} OrderRulesOutWalk(order: seq<Module>, p: seq<string>, k: nat)
    requires Distinct(order) && DependencyFirst(order)
    requires |p| >= 2 && IsWalk(order, p)
    requires k < |order| && order[k].name == p[0]
    ensures p[|p| - 1] in NameSet(order[..k])
  {
    assert Edge(order, p[0], p[1]);
    var m :| m in order && m.name == p[0] && p[1] in m.deps;
    assert m == order[k];
    assert p[1] in NameSet(order[..k]);
    if |p| > 2 {
      var m' :| m' in order[..k] && m'.name == p[1];
      var k' :| 0 <= k' < k && order[k'] == m';
      var q := p[1..];
      forall i | 0 < i < |q| ensures Edge(order, q[i - 1], q[i]) {
        assert q[i - 1] == p[i] && q[i] == p[i + 1];
        assert Edge(order, p[i + 1 - 1], p[i + 1]);
      }
      OrderRulesOutWalk(order, q, k');
      assert forall m :: m in order[..k'] ==> m in order[..k];
    }
  }

  lemma OrderIsAcyclic(order: seq<Module>)
    requires Distinct(order) && DependencyFirst(order)
    ensures !Cyclic(order)
  {
    forall p | IsCycle(order, p) ensures false {
      assert Edge(order, p[1 - 1], p[1]);
      var m :| m in order && m.name == p[0] && p[1] in m.deps;
      var k :| 0 <= k < |order| && order[k] == m;
      OrderRulesOutWalk(order, p, k);
    }
  }

  // Every stuck name requires a stuck name.
  ghost predicate StuckOnStuck(ms: seq<Module>, stuck: set<string>) {
    forall x {:trigger RequiresStuck(ms, stuck, x)} :: x in stuck ==> RequiresStuck(ms, stuck, x)
  }

  ghost predicate RequiresStuck(ms: seq<Module>, stuck: set<string>, x: string) {
    exists y :: y in stuck && Edge(ms, x, y)
  }

  lemma PickStuck(ms: seq<Module>, stuck: set<string>, x: string) returns (y: string)
    requires StuckOnStuck(ms, stuck) && x in stuck
    ensures y in stuck && Edge(ms, x, y)
  {
    assert RequiresStuck(ms, stuck, x);
    y :| y in stuck && Edge(ms, x, y);
  }

  // Then a walk through stuck names can be prolonged until it runs into itself.
  lemma {:induction false} StuckWalk(ms: seq<Module>, stuck: set<string>, p: seq<string>,
                                     seen: set<string>)
    requires p != [] && IsWalk(ms, p) && NoRepeat(p)
    requires forall x :: x in p <==> x in seen
    requires seen <= stuck
    requires StuckOnStuck(ms, stuck)
    ensures LeadsToCycle(ms, p[0])
    decreases stuck - seen
  {
    hide StuckOnStuck;
    hide Edge;
    var x := p[|p| - 1];
    assert x in p;
    var y := PickStuck(ms, stuck, x);
    var q := p + [y];
    assert IsWalk(ms, q);
    assert q[..|q| - 1] == p;
    if y in p {
      assert IsLasso(ms, q);
    } else {
      assert NoRepeat(q);
      StuckWalk(ms, stuck, q, seen + {y});
    }
  }

  lemma {:induction false} NameCount(ms: seq<Module>)
    ensures |NameSet(ms)| <= |ms|
    ensures |NameSet(ms)| == |ms| <==> Distinct(ms)
  {
    if ms != [] {
      var init, last := ms[..|ms| - 1], ms[|ms| - 1];
      NameCount(init);
      assert ms == init + [last];
      assert NameSet(ms) == NameSet(init) + {last.name};
      DistinctSnoc(init, last);
      hide Distinct;
    }
  }

  lemma DistinctSnoc(init: seq<Module>, last: Module)
    ensures Distinct(init + [last]) <==> Distinct(init) && last.name !in NameSet(init)
  {
    var ms := init + [last];
    if last.name in NameSet(init) {
      var m :| m in init && m.name == last.name;
      var k :| 0 <= k < |init| && init[k] == m;
      assert ms[k].name == ms[|init|].name;
    } else if Distinct(init) {
      assert forall i :: 0 <= i < |init| ==> init[i] in init;
    } else {
      var i, j :| 0 <= i < j < |init| && init[i].name == init[j].name;
      assert ms[i].name == ms[j].name;
    }
  }

  lemma DropOne(b: seq<Module>, k: nat)
    requires Distinct(b) && k < |b|
    ensures var b' := b[..k] + b[k + 1..];
      && Distinct(b') && multiset(b) == multiset(b') + multiset{b[k]}
      && forall x :: x in b && x != b[k] ==> x in b'
  {
    var b' := b[..k] + b[k + 1..];
    assert b == b[..k] + [b[k]] + b[k + 1..];
    forall x | x in b && x != b[k] ensures x in b' {
      var i :| 0 <= i < |b| && b[i] == x;
      assert b'[if i < k then i else i - 1] == x;
    }
  }

  // Two duplicate-free listings of the same modules are permutations of each other.
  lemma {:induction false} SameElements(a: seq<Module>, b: seq<Module>)
    requires Distinct(a) && Distinct(b) && |a| == |b|
    requires forall m :: m in a ==> m in b
    ensures multiset(a) == multiset(b)
  {
    if a != [] {
      var m := a[0];
      assert m in a;
      var k :| 0 <= k < |b| && b[k] == m;
      DropOne(b, k);
      forall x | x in a[1..] ensures x in a && x != m {
        var i :| 0 <= i < |a[1..]| && a[1..][i] == x;
        assert a[0].name != a[i + 1].name;
      }
      assert Distinct(a[1..]);
      hide Distinct;
      SameElements(a[1..], b[..k] + b[k + 1..]);
      assert a == [m] + a[1..];
    }
  }

  // ----- building the maps ----------------------------------------------------------------

  function Get(dependents: map<string, seq<string>>, d: string): seq<string> {
    if d in dependents then dependents[d] else []
  }

  function Deg(inDegree: map<string, int>, n: string): int {
    if n in inDegree then inDegree[n] else 0
  }

  ghost predicate IsByName(ms: seq<Module>, byName: map<string, Module>) {
    && byName.Keys == NameSet(ms)
    && forall n :: n in byName ==> byName[n] in ms && byName[n].name == n
  }

  method IndexByName(modules: seq<Module>) returns (byName: map<string, Module>)
    ensures IsByName(modules, byName)
  {
    byName := map[];
    for i := 0 to |modules|
      invariant IsByName(modules[..i], byName)
    {
      assert modules[..i + 1] == modules[..i] + [modules[i]];
      byName := byName[modules[i].name := modules[i]];
    }
    assert modules[..|modules|] == modules;
  }

  method FindMissing(modules: seq<Module>, byName: map<string, Module>)
    returns (found: bool, i: nat, j: nat)
    requires IsByName(modules, byName)
    ensures found ==> FirstMissing(modules, i, j)
    ensures !found ==> Closed(modules)
  {
    i, j := 0, 0;
    while i < |modules|
      invariant i <= |modules|
      invariant forall m, d :: m in modules[..i] && d in m.deps ==> d in NameSet(modules)
    {
      j := 0;
      while j < |modules[i].deps|
        invariant j <= |modules[i].deps|
        invariant forall d :: d in modules[i].deps[..j] ==> d in NameSet(modules)
      {
        if modules[i].deps[j] !in byName {
          return true, i, j;
        }
        j := j + 1;
      }
      assert modules[i].deps[..j] == modules[i].deps;
      i := i + 1;
    }
    assert modules[..i] == modules;
    found := false;
  }

  // dependents[d] lists n once for every time n requires d.
  ghost predicate IsDegrees(ms: seq<Module>, inDegree: map<string, int>,
                            dependents: map<string, seq<string>>)
  {
    && inDegree.Keys == NameSet(ms)
    && (forall n :: n in inDegree ==> inDegree[n] == |DepsOf(ms, n)|)
    && Listed(ms, dependents)
  }

  ghost predicate Listed(ms: seq<Module>, dependents: map<string, seq<string>>) {
    forall d, n :: multiset(Get(dependents, d))[n] == multiset(DepsOf(ms, n))[d]
  }

  method BuildDegrees(modules: seq<Module>)
    returns (inDegree: map<string, int>, dependents: map<string, seq<string>>)
    ensures IsDegrees(modules, inDegree, dependents)
  {
    hide *;
    inDegree, dependents := map[], map[];
    NoDegrees();
    for i := 0 to |modules|
      invariant IsDegrees(modules[..i], inDegree, dependents)
    {
      var m := modules[i];
      DegreesStart(modules[..i], m, inDegree, dependents);
      if m.name !in inDegree {
        inDegree := inDegree[m.name := 0];
      }
      for j := 0 to |m.deps|
        invariant IsDegrees(modules[..i] + [Module(m.name, m.deps[..j])], inDegree, dependents)
      {
        var dep := m.deps[j];
        assert m.deps[..j + 1] == m.deps[..j] + [dep];
        DegreesStep(modules[..i], m.name, m.deps[..j], dep, inDegree, dependents);
        inDegree := inDegree[m.name := inDegree[m.name] + 1];
        dependents := dependents[dep := Get(dependents, dep) + [m.name]];
      }
      assert m.deps[..|m.deps|] == m.deps;
      assert modules[..i + 1] == modules[..i] + [Module(m.name, m.deps)];
    }
    assert modules[..|modules|] == modules;
  }

  lemma NoDegrees()
    ensures IsDegrees([], map[], map[])
  {
  }

  lemma DepsOfSnoc(init: seq<Module>, m: Module, n: string)
    ensures DepsOf(init + [m], n) == DepsOf(init, n) + if m.name == n then m.deps else []
    ensures NameSet(init + [m]) == NameSet(init) + {m.name}
  {
    assert (init + [m])[..|init|] == init;
  }

  lemma DegreesStart(init: seq<Module>, m: Module, inDegree: map<string, int>,
                     dependents: map<string, seq<string>>)
    requires IsDegrees(init, inDegree, dependents)
    ensures IsDegrees(init + [Module(m.name, m.deps[..0])],
                      if m.name in inDegree then inDegree else inDegree[m.name := 0], dependents)
  {
    hide DepsOf;
    var ms := init + [Module(m.name, m.deps[..0])];
    forall n ensures DepsOf(ms, n) == DepsOf(init, n) {
      DepsOfSnoc(init, Module(m.name, m.deps[..0]), n);
    }
    DepsOfSnoc(init, Module(m.name, m.deps[..0]), m.name);
    if m.name !in inDegree {
      NotNamed(init, m.name);
    }
    hide NameSet;
    assert Listed(ms, dependents);
  }

  // One more requirement of the last module bumps its degree and is listed once.
  lemma DegreesStep(init: seq<Module>, name: string, deps: seq<string>, dep: string,
                    inDegree: map<string, int>, dependents: map<string, seq<string>>)
    requires IsDegrees(init + [Module(name, deps)], inDegree, dependents)
    ensures name in inDegree
    ensures IsDegrees(init + [Module(name, deps + [dep])],
                      inDegree[name := inDegree[name] + 1],
                      dependents[dep := Get(dependents, dep) + [name]])
  {
    hide DepsOf, NameSet, Listed, Get;
    CountsStep(init, name, deps, dep, inDegree);
    ListedStep(init, name, deps, dep, dependents);
  }

  lemma CountsStep(init: seq<Module>, name: string, deps: seq<string>, dep: string, inDegree: map<string, int>)
    requires inDegree.Keys == NameSet(init + [Module(name, deps)])
    requires forall n :: n in inDegree ==> inDegree[n] == |DepsOf(init + [Module(name, deps)], n)|
    ensures name in inDegree
    ensures var inDegree' := inDegree[name := inDegree[name] + 1];
      var ms' := init + [Module(name, deps + [dep])];
      inDegree'.Keys == NameSet(ms') && forall n :: n in inDegree' ==> inDegree'[n] == |DepsOf(ms', n)|
  {
    hide DepsOf, NameSet;
    DepsOfSnoc(init, Module(name, deps), name);
    DepsOfSnoc(init, Module(name, deps + [dep]), name);
    var inDegree' := inDegree[name := inDegree[name] + 1];
    forall n | n in inDegree' ensures inDegree'[n] == |DepsOf(init + [Module(name, deps + [dep])], n)| {
      DepsOfStep(init, name, deps, dep, n);
    }
  }

  lemma DepsOfStep(init: seq<Module>, name: string, deps: seq<string>, dep: string, n: string)
    ensures DepsOf(init + [Module(name, deps + [dep])], n) ==
            DepsOf(init + [Module(name, deps)], n) + if n == name then [dep] else []
  {
    DepsOfSnoc(init, Module(name, deps), n);
    DepsOfSnoc(init, Module(name, deps + [dep]), n);
  }

  lemma CountSnoc<T>(s: seq<T>, x: T, y: T)
    ensures multiset(s + [x])[y] == multiset(s)[y] + if x == y then 1 else 0
  {
    assert multiset(s + [x]) == multiset(s) + multiset{x};
  }

  lemma ListedStep(init: seq<Module>, name: string, deps: seq<string>, dep: string,
                   dependents: map<string, seq<string>>)
    requires Listed(init + [Module(name, deps)], dependents)
    ensures Listed(init + [Module(name, deps + [dep])],
                   dependents[dep := Get(dependents, dep) + [name]])
  {
    var ms, ms' := init + [Module(name, deps)], init + [Module(name, deps + [dep])];
    var dependents' := dependents[dep := Get(dependents, dep) + [name]];
    forall d, n ensures multiset(Get(dependents', d))[n] == multiset(DepsOf(ms', n))[d] {
      hide DepsOf;
      DepsOfStep(init, name, deps, dep, n);
      assert multiset(Get(dependents, d))[n] == multiset(DepsOf(ms, n))[d];
      CountSnoc(DepsOf(ms, n), dep, d);
      CountSnoc(Get(dependents, dep), name, n);
    }
  }

  lemma {:induction false} NotNamed(ms: seq<Module>, n: string)
    requires n !in NameSet(ms)
    ensures DepsOf(ms, n) == []
  {
    if ms != [] {
      var init, last := ms[..|ms| - 1], ms[|ms| - 1];
      assert ms == init + [last];
      assert last in ms;
      assert forall m :: m in init ==> m in ms;
      NotNamed(init, n);
    }
  }

  // ----- Kahn's algorithm -----------------------------------------------------------------

  // Degrees count the requirements not yet sorted, plus the decrements still to come for the
  // module popped last; the names with degree zero are the sorted and the queued ones.
  ghost predicate KahnState(ms: seq<Module>, inDegree: map<string, int>, done: set<string>,
                            queue: seq<string>, pending: multiset<string>)
  {
    && inDegree.Keys == NameSet(ms)
    && done <= inDegree.Keys
    && (forall n :: n in inDegree ==> inDegree[n] == CountOut(DepsOf(ms, n), done) + pending[n])
    && (forall n :: n in inDegree ==> (inDegree[n] == 0 <==> n in done || n in queue))
    && (forall n :: n in queue ==> n in inDegree && n !in done)
    && (forall i, j :: 0 <= i < j < |queue| ==> queue[i] != queue[j])
  }

  ghost predicate SortedPrefix(ms: seq<Module>, sorted: seq<Module>, done: set<string>) {
    && NameSet(sorted) == done && Distinct(sorted)
    && (forall m :: m in sorted ==> m in ms)
    && DependencyFirst(sorted)
  }

  method InitialQueue(ms: seq<Module>, inDegree: map<string, int>) returns (queue: seq<string>)
    requires inDegree.Keys == NameSet(ms)
    requires forall n :: n in inDegree ==> inDegree[n] == |DepsOf(ms, n)|
    ensures KahnState(ms, inDegree, {}, queue, multiset{})
  {
    hide DepsOf, NameSet, CountOut;
    queue := [];
    var rest := inDegree.Keys;
    // Go visits the keys of a map in an arbitrary order.
    while rest != {}
      invariant rest <= inDegree.Keys
      invariant forall n :: n in queue <==> n in inDegree.Keys - rest && inDegree[n] == 0
      invariant forall i, j :: 0 <= i < j < |queue| ==> queue[i] != queue[j]
      decreases rest
    {
      var n :| n in rest;
      rest := rest - {n};
      if inDegree[n] == 0 {
        queue := queue + [n];
      }
    }
    forall n | n in inDegree ensures inDegree[n] == CountOut(DepsOf(ms, n), {}) {
      CountOutZero(DepsOf(ms, n), {});
    }
  }

  // The inner loop: every dependent of the popped module loses one requirement per listing.
  method Release(ghost ms: seq<Module>, inDegree0: map<string, int>, queue0: seq<string>,
                 listed: seq<string>, ghost done: set<string>)
    returns (inDegree: map<string, int>, queue: seq<string>)
    requires KahnState(ms, inDegree0, done, queue0, multiset(listed))
    requires forall n :: n in listed ==> n in inDegree0
    ensures KahnState(ms, inDegree, done, queue, multiset{})
  {
    hide *;
    inDegree, queue := inDegree0, queue0;
    for k := 0 to |listed|
      invariant inDegree.Keys == inDegree0.Keys
      invariant KahnState(ms, inDegree, done, queue, multiset(listed[k..]))
    {
      var n := listed[k];
      assert listed[k..] == [n] + listed[k + 1..];
      ReleaseStep(ms, inDegree, done, queue, n, listed[k + 1..]);
      inDegree := inDegree[n := inDegree[n] - 1];
      if inDegree[n] == 0 {
        queue := queue + [n];
      }
    }
    assert multiset(listed[|listed|..]) == multiset{};
  }

  lemma ReleaseStep(ms: seq<Module>, inDegree: map<string, int>, done: set<string>,
                    queue: seq<string>, n: string, rest: seq<string>)
    requires KahnState(ms, inDegree, done, queue, multiset([n] + rest)) && n in inDegree
    ensures var inDegree' := inDegree[n := inDegree[n] - 1];
      KahnState(ms, inDegree', done, if inDegree'[n] == 0 then queue + [n] else queue,
                multiset(rest))
  {
    hide CountOut, DepsOf, NameSet;
    assert multiset([n] + rest) == multiset{n} + multiset(rest);
    assert inDegree[n] > 0 by {
      assert multiset([n] + rest)[n] > 0;
    }
    var inDegree' := inDegree[n := inDegree[n] - 1];
    assert forall x :: x in inDegree' ==> inDegree'[x] == CountOut(DepsOf(ms, x), done) + multiset(rest)[x];
    if inDegree'[n] == 0 {
      forall x | x in inDegree'
        ensures inDegree'[x] == 0 <==> x in done || x in queue + [n]
      {
      }
    }
  }

  // Popping a name turns its listings into pending decrements.
  lemma PopKeepsState(ms: seq<Module>, inDegree: map<string, int>, done: set<string>,
                      queue: seq<string>, dependents: map<string, seq<string>>)
    requires queue != []
    requires KahnState(ms, inDegree, done, queue, multiset{})
    requires Listed(ms, dependents)
    ensures var c := queue[0];
      && KahnState(ms, inDegree, done + {c}, queue[1..], multiset(Get(dependents, c)))
      && (forall n :: n in Get(dependents, c) ==> n in inDegree)
      && (forall d :: d in DepsOf(ms, c) ==> d in done)
  {
    hide CountOut, DepsOf, Get, NameSet, Listed;
    var c := queue[0];
    assert c in queue && inDegree[c] == 0;
    PopDegrees(ms, inDegree, done, c, dependents);
    PendingAreNamed(ms, c, dependents);
    CountOutZero(DepsOf(ms, c), done);
    assert queue == [c] + queue[1..];
    assert forall x :: x in queue[1..] ==> x in queue && x != c;
  }

  lemma PopDegrees(ms: seq<Module>, inDegree: map<string, int>, done: set<string>, c: string,
                   dependents: map<string, seq<string>>)
    requires Listed(ms, dependents) && c !in done
    requires forall n :: n in inDegree ==> inDegree[n] == CountOut(DepsOf(ms, n), done) + multiset{}[n]
    ensures forall n :: n in inDegree ==>
      inDegree[n] == CountOut(DepsOf(ms, n), done + {c}) + multiset(Get(dependents, c))[n]
  {
    forall n | n in inDegree
      ensures inDegree[n] == CountOut(DepsOf(ms, n), done + {c}) + multiset(Get(dependents, c))[n]
    {
      hide CountOut, DepsOf, Get;
      CountOutAdd(DepsOf(ms, n), done, c);
      assert multiset(Get(dependents, c))[n] == multiset(DepsOf(ms, n))[c];
    }
  }

  lemma PendingAreNamed(ms: seq<Module>, c: string, dependents: map<string, seq<string>>)
    requires Listed(ms, dependents)
    ensures forall n :: n in Get(dependents, c) ==> n in NameSet(ms)
  {
    forall n | n in Get(dependents, c) ensures n in NameSet(ms) {
      assert multiset(Get(dependents, c))[n] > 0;
      if n !in NameSet(ms) {
        NotNamed(ms, n);
      }
    }
  }

  // With the queue empty, a name is stuck exactly when it is not sorted; a stuck name
  // requires a stuck name.
  lemma StuckRequiresStuck(ms: seq<Module>, inDegree: map<string, int>, done: set<string>)
    requires Closed(ms)
    requires KahnState(ms, inDegree, done, [], multiset{})
    ensures StuckOnStuck(ms, inDegree.Keys - done)
  {
    forall n | n in inDegree.Keys - done
      ensures RequiresStuck(ms, inDegree.Keys - done, n)
    {
      assert inDegree[n] != 0;
      CountOutZero(DepsOf(ms, n), done);
      var d :| d in DepsOf(ms, n) && d !in done;
      DepsOfIsEdge(ms, n, d);
    }
  }

  // With distinct names, byName lists the same requirements as the modules do.
  lemma ByNameIsEdge(ms: seq<Module>, byName: map<string, Module>, a: string, b: string)
    requires IsByName(ms, byName) && a in byName
    ensures b in byName[a].deps ==> Edge(ms, a, b)
    ensures Distinct(ms) ==> (b in byName[a].deps <==> Edge(ms, a, b))
  {
    if Distinct(ms) && Edge(ms, a, b) {
      var m :| m in ms && m.name == a && b in m.deps;
      var i :| 0 <= i < |ms| && ms[i] == m;
      var j :| 0 <= j < |ms| && ms[j] == byName[a];
    }
  }

  method Kahn(modules: seq<Module>, byName: map<string, Module>)
    returns (sorted: seq<Module>, inDegree: map<string, int>, ghost done: set<string>)
    requires IsByName(modules, byName)
    ensures KahnState(modules, inDegree, done, [], multiset{})
    ensures SortedPrefix(modules, sorted, done)
    ensures Distinct(sorted) && DependencyFirst(sorted) && forall m :: m in sorted ==> m in modules
    ensures forall n :: n in NameSet(modules) ==> n in inDegree && (inDegree[n] == 0 <==> n in NameSet(sorted))
  {
    var dependents;
    inDegree, dependents := BuildDegrees(modules);
    var queue := InitialQueue(modules, inDegree);
    sorted, done := [], {};
    while queue != []
      invariant KahnState(modules, inDegree, done, queue, multiset{})
      invariant SortedPrefix(modules, sorted, done)
      decreases inDegree.Keys - done
    {
      var current := queue[0];
      PopKeepsState(modules, inDegree, done, queue, dependents);
      assert current in queue;
      ghost var before := inDegree.Keys - done;
      queue := queue[1..];
      AppendKeepsPrefix(modules, byName, sorted, done, current);
      sorted := sorted + [byName[current]];
      done := done + {current};
      inDegree, queue := Release(modules, inDegree, queue, Get(dependents, current), done);
      assert current in before && current !in inDegree.Keys - done;
    }
  }

  lemma AppendKeepsPrefix(ms: seq<Module>, byName: map<string, Module>, sorted: seq<Module>,
                          done: set<string>, c: string)
    requires IsByName(ms, byName) && SortedPrefix(ms, sorted, done)
    requires c in byName && c !in done
    requires forall d :: d in DepsOf(ms, c) ==> d in done
    ensures SortedPrefix(ms, sorted + [byName[c]], done + {c})
  {
    var s := sorted + [byName[c]];
    forall i, d | 0 <= i < |s| && d in s[i].deps ensures d in NameSet(s[..i]) {
      if i < |sorted| {
        assert s[..i] == sorted[..i];
      } else {
        assert s[..i] == sorted;
        ByNameIsEdge(ms, byName, c, d);
        DepsOfIsEdge(ms, c, d);
      }
    }
    forall i, j | 0 <= i < j < |s| ensures s[i].name != s[j].name {
      assert sorted[i].name in NameSet(sorted);
    }
  }

  // ----- the cycle-path walk --------------------------------------------------------------

  // The first stuck requirement of m that was not visited.
  method NextStuck(m: Module, inDegree: map<string, int>, visited: set<string>)
    returns (found: bool, dep: string)
    ensures found ==> dep in m.deps && Deg(inDegree, dep) > 0 && dep !in visited
    ensures !found ==> forall d :: d in m.deps && Deg(inDegree, d) > 0 ==> d in visited
  {
    for k := 0 to |m.deps|
      invariant forall d :: d in m.deps[..k] && Deg(inDegree, d) > 0 ==> d in visited
    {
      if Deg(inDegree, m.deps[k]) > 0 && m.deps[k] !in visited {
        return true, m.deps[k];
      }
    }
    assert m.deps[..|m.deps|] == m.deps;
    return false, "";
  }

  ghost function Stuck(inDegree: map<string, int>): set<string> {
    set n | n in inDegree && inDegree[n] > 0
  }

  ghost predicate IndexedEdge(byName: map<string, Module>, a: string, b: string) {
    a in byName && b in byName[a].deps
  }

  // Consecutive entries are requirement edges of the indexed modules.
  ghost predicate IndexedWalk(byName: map<string, Module>, p: seq<string>) {
    forall i :: 0 < i < |p| ==> IndexedEdge(byName, p[i - 1], p[i])
  }

  // A repeat-free walk through stuck modules.
  ghost predicate StuckPath(byName: map<string, Module>, inDegree: map<string, int>,
                            p: seq<string>)
  {
    && p != [] && IndexedWalk(byName, p) && NoRepeat(p)
    && forall n :: n in p ==> n in Stuck(inDegree)
  }

  lemma Prolong(byName: map<string, Module>, inDegree: map<string, int>, p: seq<string>,
                dep: string)
    requires StuckPath(byName, inDegree, p)
    requires IndexedEdge(byName, p[|p| - 1], dep)
    ensures IndexedWalk(byName, p + [dep])
    ensures dep in Stuck(inDegree) && dep !in p ==> StuckPath(byName, inDegree, p + [dep])
  {
  }

  // What the reported path says.  An empty path stands for "(unknown)": nothing is stuck, or
  // the stuck module picked first has the empty name.  Any other path walks through distinct
  // stuck modules; it stops at a module that requires no stuck one, or else its last entry
  // repeats an earlier one.
  ghost predicate CycleReport(byName: map<string, Module>, inDegree: map<string, int>,
                              path: seq<string>)
  {
    if path == [] then Stuck(inDegree) == {} || "" in Stuck(inDegree)
    else
      && path[0] in Stuck(inDegree) && path[0] != "" && IndexedWalk(byName, path)
      && if StuckPath(byName, inDegree, path) then
           forall d :: IndexedEdge(byName, path[|path| - 1], d) ==> d !in Stuck(inDegree)
         else
           && StuckPath(byName, inDegree, path[..|path| - 1])
           && path[|path| - 1] in path[..|path| - 1]
  }

  // first: the stuck name met first, empty if there is none.
  method FindCycle(byName: map<string, Module>, inDegree: map<string, int>)
    returns (path: seq<string>, ghost first: string)
    requires forall n :: n in Stuck(inDegree) ==> n in byName
    ensures CycleReport(byName, inDegree, path)
    ensures if Stuck(inDegree) == {} then first == "" else first in Stuck(inDegree)
    ensures path == [] <==> first == ""
    ensures path != [] ==> path[0] == first
  {
    var start := "";
    if n :| n in inDegree && inDegree[n] > 0 {
      start := n;
    }
    first := start;
    if start == "" {
      return [], first;
    }
    var visited: set<string> := {};
    path := [start];
    var current := start;
    StartsPath(byName, inDegree, start);
    hide StuckPath, IndexedWalk;
    while true
      invariant path != [] && current == path[|path| - 1] && path[0] == start == first
      invariant StuckPath(byName, inDegree, path)
      invariant forall n :: n in visited <==> n in path[..|path| - 1]
      decreases Stuck(inDegree) - visited
    {
      ghost var before := Stuck(inDegree) - visited;
      LastIsNew(byName, inDegree, path);
      assert current in before;
      visited := visited + {current};
      assert path == path[..|path| - 1] + [current];
      assert forall n :: n in visited <==> n in path;
      var advanced, dep := NextStuck(byName[current], inDegree, visited);
      if !advanced {
        var closes, back := NextStuck(byName[current], inDegree, {});
        if closes {
          Prolong(byName, inDegree, path, back);
          assert (path + [back])[..|path|] == path;
          RepeatBreaks(byName, inDegree, path, back);
          path := path + [back];
        }
        return path, first;
      }
      Prolong(byName, inDegree, path, dep);
      assert (path + [dep])[..|path|] == path;
      path := path + [dep];
      current := dep;
    }
  }

  lemma StartsPath(byName: map<string, Module>, inDegree: map<string, int>, start: string)
    requires start in Stuck(inDegree)
    ensures StuckPath(byName, inDegree, [start]) && IndexedWalk(byName, [start])
  {
  }

  lemma LastIsNew(byName: map<string, Module>, inDegree: map<string, int>, p: seq<string>)
    requires StuckPath(byName, inDegree, p)
    ensures p != [] && p[|p| - 1] in Stuck(inDegree) && p[|p| - 1] !in p[..|p| - 1]
    ensures IndexedWalk(byName, p)
  {
    assert p[|p| - 1] in p;
  }

  lemma RepeatBreaks(byName: map<string, Module>, inDegree: map<string, int>, p: seq<string>,
                     x: string)
    requires x in p
    ensures !StuckPath(byName, inDegree, p + [x])
  {
    var i :| 0 <= i < |p| && p[i] == x;
    assert (p + [x])[i] == (p + [x])[|p|];
  }

  // ----- the whole sort -------------------------------------------------------------------

  // first: the stuck name the cycle walk starts from, once there is one.
  method ValidateAndSort(modules: seq<Module>) returns (r: SortResult, ghost first: string)
    ensures r.Sorted? <==> Distinct(modules) && Closed(modules) && !Cyclic(modules)
    ensures r.Sorted? ==> multiset(r.order) == multiset(modules) && DependencyFirst(r.order)
    ensures r.Missing? <==> !Closed(modules)
    ensures r.Missing? ==> exists i: nat, j: nat ::
      FirstMissing(modules, i, j) && r.dependent == modules[i].name && r.dep == modules[i].deps[j]
    ensures r.Circular? && Distinct(modules) ==> IsLasso(modules, r.path)
    ensures r.Circular? ==> r.path != [] && r.path[0] == first != ""
    ensures r.CircularUnknown? ==> first == ""
    ensures (r.Circular? || r.CircularUnknown?) && Distinct(modules) ==> LeadsToCycle(modules, first)
  {
    var byName := IndexByName(modules);
    var missing, i, j := FindMissing(modules, byName);
    if missing {
      assert modules[i] in modules;
      return Missing(modules[i].name, modules[i].deps[j]), "";
    }
    hide *;
    var sorted, inDegree;
    ghost var done;
    sorted, inDegree, done := Kahn(modules, byName);
    if |sorted| != |modules| {
      StuckIsUnsorted(modules, byName, inDegree, sorted, done);
      var path;
      path, first := FindCycle(byName, inDegree);
      if Distinct(modules) {
        StalledIsCyclic(modules, byName, inDegree, sorted, done, path, first);
      }
      if path == [] {
        return CircularUnknown, first;
      }
      return Circular(path), first;
    }
    AllSorted(modules, inDegree, sorted, done);
    return Sorted(sorted), "";
  }

  lemma LeadsIsNamed(ms: seq<Module>, n: string)
    requires LeadsToCycle(ms, n)
    ensures n in NameSet(ms) && Cyclic(ms)
  {
    var p :| IsLasso(ms, p) && p[0] == n;
    assert Edge(ms, p[1 - 1], p[1]);
    LassoHoldsCycle(ms, p);
  }

  lemma StuckLeadsToCycle(ms: seq<Module>, stuck: set<string>, n: string)
    requires StuckOnStuck(ms, stuck) && n in stuck
    ensures LeadsToCycle(ms, n)
  {
    StuckWalk(ms, stuck, [n], {n});
  }

  // The names Kahn's algorithm leaves are exactly those that lead to a cycle: the map's order
  // may make any of them the first.
  lemma StuckIff(ms: seq<Module>, inDegree: map<string, int>, sorted: seq<Module>, done: set<string>, n: string)
    requires Distinct(ms) && Closed(ms) && n in NameSet(ms)
    requires KahnState(ms, inDegree, done, [], multiset{}) && SortedPrefix(ms, sorted, done)
    ensures n in inDegree && (inDegree[n] > 0 <==> LeadsToCycle(ms, n))
  {
    StuckRequiresStuck(ms, inDegree, done);
    if n !in done {
      StuckLeadsToCycle(ms, inDegree.Keys - done, n);
    } else {
      forall p | IsLasso(ms, p) && p[0] == n ensures false {
        DoneStaysDone(ms, sorted, p);
        LassoHoldsCycle(sorted, p);
        OrderIsAcyclic(sorted);
      }
    }
  }

  // A walk from a sorted name only meets sorted names.
  lemma DoneStaysDone(ms: seq<Module>, sorted: seq<Module>, p: seq<string>)
    requires Distinct(ms) && SortedPrefix(ms, sorted, NameSet(sorted))
    requires IsWalk(ms, p) && p != [] && p[0] in NameSet(sorted)
    ensures IsWalk(sorted, p)
  {
    var k := 1;
    while k < |p|
      invariant 1 <= k <= |p| && p[k - 1] in NameSet(sorted)
      invariant forall i :: 0 < i < k ==> Edge(sorted, p[i - 1], p[i])
    {
      EdgeOfSorted(ms, sorted, p[k - 1], p[k]);
      k := k + 1;
    }
  }

  lemma EdgeOfSorted(ms: seq<Module>, sorted: seq<Module>, a: string, b: string)
    requires Distinct(ms) && SortedPrefix(ms, sorted, NameSet(sorted))
    requires Edge(ms, a, b) && a in NameSet(sorted)
    ensures Edge(sorted, a, b) && b in NameSet(sorted)
  {
    var m :| m in ms && m.name == a && b in m.deps;
    var m' :| m' in sorted && m'.name == a;
    var i, j :| 0 <= i < |ms| && 0 <= j < |ms| && ms[i] == m && ms[j] == m';
    var k :| 0 <= k < |sorted| && sorted[k] == m';
    assert b in NameSet(sorted[..k]);
  }

  // A single module without a name that requires itself: the answer can only be "(unknown)".
  method UnnamedLoop() returns (r: SortResult)
    ensures r == CircularUnknown
  {
    var ms := [Module("", [""])];
    assert Closed(ms) && Distinct(ms);
    assert Edge(ms, "", "") && NameSet(ms) == {""};
    assert IsCycle(ms, ["", ""]);
    ghost var first;
    r, first := ValidateAndSort(ms);
    ghost var p :| IsLasso(ms, p) && p[0] == first;
    assert Edge(ms, p[1 - 1], p[1]);
  }

  lemma StuckIsUnsorted(ms: seq<Module>, byName: map<string, Module>,
                        inDegree: map<string, int>, sorted: seq<Module>, done: set<string>)
    requires IsByName(ms, byName)
    requires KahnState(ms, inDegree, done, [], multiset{}) && SortedPrefix(ms, sorted, done)
    requires |sorted| != |ms|
    ensures Stuck(inDegree) == inDegree.Keys - done
    ensures forall n :: n in Stuck(inDegree) ==> n in byName
    ensures Distinct(ms) ==> Stuck(inDegree) != {}
  {
    hide CountOut;
    hide DepsOf;
    NameCount(ms);
    NameCount(sorted);
    forall n | n in inDegree ensures n in Stuck(inDegree) <==> n !in done {
      assert inDegree[n] == CountOut(DepsOf(ms, n), done) + multiset{}[n];
    }
    assert Stuck(inDegree) == inDegree.Keys - done;
    if Stuck(inDegree) == {} {
      assert done == inDegree.Keys;
    }
  }

  lemma IndexedIsWalk(ms: seq<Module>, byName: map<string, Module>, p: seq<string>)
    requires IsByName(ms, byName) && IndexedWalk(byName, p)
    ensures IsWalk(ms, p)
  {
    forall i | 0 < i < |p| ensures Edge(ms, p[i - 1], p[i]) {
      assert IndexedEdge(byName, p[i - 1], p[i]);
      ByNameIsEdge(ms, byName, p[i - 1], p[i]);
    }
  }

  // What a stall means for modules with distinct names.
  lemma StalledIsCyclic(ms: seq<Module>, byName: map<string, Module>,
                        inDegree: map<string, int>, sorted: seq<Module>, done: set<string>,
                        path: seq<string>, first: string)
    requires IsByName(ms, byName) && Closed(ms) && Distinct(ms)
    requires KahnState(ms, inDegree, done, [], multiset{}) && SortedPrefix(ms, sorted, done)
    requires Stuck(inDegree) == inDegree.Keys - done && first in Stuck(inDegree)
    requires CycleReport(byName, inDegree, path)
    ensures Cyclic(ms) && LeadsToCycle(ms, first)
    ensures path == [] ==> "" in NameSet(ms)
    ensures path != [] ==> IsLasso(ms, path)
  {
    StuckRequiresStuck(ms, inDegree, done);
    hide StuckOnStuck;
    hide KahnState;
    hide SortedPrefix;
    hide Edge;
    hide Closed;
    hide Distinct;
    StuckLeadsToCycle(ms, Stuck(inDegree), first);
    var p :| IsLasso(ms, p) && p[0] == first;
    LassoHoldsCycle(ms, p);
    if path != [] {
      IndexedIsWalk(ms, byName, path);
      if StuckPath(byName, inDegree, path) {
        assert path[|path| - 1] in path;
        var d := PickStuck(ms, Stuck(inDegree), path[|path| - 1]);
        ByNameIsEdge(ms, byName, path[|path| - 1], d);
        assert false;
      }
    }
  }

  lemma AllSorted(ms: seq<Module>, inDegree: map<string, int>, sorted: seq<Module>,
                  done: set<string>)
    requires KahnState(ms, inDegree, done, [], multiset{}) && SortedPrefix(ms, sorted, done)
    requires |sorted| == |ms|
    ensures Distinct(ms) && !Cyclic(ms)
    ensures multiset(sorted) == multiset(ms) && DependencyFirst(sorted)
  {
    hide KahnState;
    NameCount(sorted);
    NameCount(ms);
    assert done <= NameSet(ms);
    SubsetSize(done, NameSet(ms));
    SameElements(sorted, ms);
    OrderIsAcyclic(sorted);
    if Cyclic(ms) {
      SameCycles(sorted, ms);
    }
  }

  lemma SubsetSize<T>(a: set<T>, b: set<T>)
    requires a <= b
    ensures |a| <= |b|
    ensures |a| == |b| ==> a == b
  {
    assert b == a + (b - a);
    assert |b| == |a| + |b - a|;
  }

  // A cycle of requirements only depends on which modules there are.
  lemma CycleTransfers(a: seq<Module>, b: seq<Module>, p: seq<string>)
    requires multiset(a) == multiset(b) && IsCycle(b, p)
    ensures IsCycle(a, p)
  {
    forall i | 0 < i < |p| ensures Edge(a, p[i - 1], p[i]) {
      assert Edge(b, p[i - 1], p[i]);
      var m :| m in b && m.name == p[i - 1] && p[i] in m.deps;
      assert m in multiset(b);
      assert m in a;
    }
  }

  lemma SameCycles(a: seq<Module>, b: seq<Module>)
    requires multiset(a) == multiset(b) && Cyclic(b)
    ensures Cyclic(a)
  {
    var p :| IsCycle(b, p);
    CycleTransfers(a, b, p);
  }
}
