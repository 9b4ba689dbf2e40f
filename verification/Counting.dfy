/** Counting and collecting over sequences whose elements are updated one at a time. */
module Counting {
  import opened Common

  function Count<T>(xs: seq<T>, p: T -> bool): nat {
    if xs == [] then 0 else (if p(xs[0]) then 1 else 0) + Count(xs[1..], p)
  }

  lemma {:induction false} CountUpdate<T>(xs: seq<T>, i: nat, x: T, p: T -> bool)
    requires i < |xs|
    ensures Count(xs[i := x], p) == Count(xs, p) - (if p(xs[i]) then 1 else 0) + if p(x) then 1 else 0
  {
    if i == 0 {
      assert xs[i := x][1..] == xs[1..];
    } else {
      assert xs[i := x][1..] == xs[1..][i - 1 := x];
      CountUpdate(xs[1..], i - 1, x, p);
    }
  }

  lemma {:induction false} CountAppend<T>(a: seq<T>, b: seq<T>, p: T -> bool)
    ensures Count(a + b, p) == Count(a, p) + Count(b, p)
  {
    if a == [] {
      assert a + b == b;
    } else {
      assert (a + b)[1..] == a[1..] + b;
      CountAppend(a[1..], b, p);
    }
  }

  lemma {:induction false} CountAll<T>(xs: seq<T>, p: T -> bool, yes: bool)
    requires forall x :: x in xs ==> p(x) == yes
    ensures Count(xs, p) == if yes then |xs| else 0
  {
    if xs != [] {
      CountAll(xs[1..], p, yes);
    }
  }

  lemma {:induction false} CountZero<T>(xs: seq<T>, p: T -> bool)
    ensures Count(xs, p) == 0 <==> forall i :: 0 <= i < |xs| ==> !p(xs[i])
  {
    if xs != [] {
      CountZero(xs[1..], p);
      assert forall i :: 0 < i < |xs| ==> xs[i] == xs[1..][i - 1];
    }
  }

  lemma {:induction false} CountTwo<T>(xs: seq<T>, p: T -> bool)
    ensures Count(xs, p) >= 2 <==> exists i, j :: 0 <= i < j < |xs| && p(xs[i]) && p(xs[j])
  {
    if xs != [] {
      CountTwo(xs[1..], p);
      CountZero(xs[1..], p);
      if i, j :| 0 <= i < j < |xs[1..]| && p(xs[1..][i]) && p(xs[1..][j]) {
        assert p(xs[i + 1]) && p(xs[j + 1]);
      }
      if p(xs[0]) && Count(xs[1..], p) > 0 {
        var j :| 0 <= j < |xs[1..]| && p(xs[1..][j]);
        assert p(xs[0]) && p(xs[j + 1]);
      }
      if i, j :| 0 <= i < j < |xs| && p(xs[i]) && p(xs[j]) {
        assert p(xs[1..][j - 1]);
        if i > 0 {
          assert p(xs[1..][i - 1]);
        }
      }
    }
  }

  // What f picks out of the elements.
  ghost function Collect<T, E>(xs: seq<T>, f: T -> Option<E>): multiset<E> {
    if xs == [] then multiset{} else Picked(f(xs[0])) + Collect(xs[1..], f)
  }

  lemma CollectFirst<T, E>(xs: seq<T>, f: T -> Option<E>)
    requires xs != []
    ensures Collect(xs, f) == Picked(f(xs[0])) + Collect(xs[1..], f)
  {
  }

  ghost function Picked<E>(o: Option<E>): multiset<E> {
    if o.Some? then multiset{o.value} else multiset{}
  }

  // An element that had nothing to pick gains what it now has.
  lemma {:induction false} CollectGain<T, E>(xs: seq<T>, i: nat, x: T, f: T -> Option<E>)
    requires i < |xs| && f(xs[i]).None?
    ensures Collect(xs[i := x], f) == Collect(xs, f) + Picked(f(x))
  {
    if i == 0 {
      assert xs[i := x][1..] == xs[1..];
    } else {
      assert xs[i := x][1..] == xs[1..][i - 1 := x];
      CollectGain(xs[1..], i - 1, x, f);
    }
  }

  lemma {:induction false} CollectKeep<T, E>(xs: seq<T>, i: nat, x: T, f: T -> Option<E>)
    requires i < |xs| && f(xs[i]) == f(x)
    ensures Collect(xs[i := x], f) == Collect(xs, f)
  {
    if i == 0 {
      assert xs[i := x][1..] == xs[1..];
    } else {
      assert xs[i := x][1..] == xs[1..][i - 1 := x];
      CollectKeep(xs[1..], i - 1, x, f);
    }
  }

  lemma {:induction false} CollectNone<T, E>(xs: seq<T>, f: T -> Option<E>)
    requires forall x :: x in xs ==> f(x).None?
    ensures Collect(xs, f) == multiset{}
  {
    if xs != [] {
      CollectNone(xs[1..], f);
    }
  }

  lemma {:induction false} CollectHas<T, E>(xs: seq<T>, f: T -> Option<E>, e: E)
    ensures e in Collect(xs, f) <==> exists x :: x in xs && f(x) == Some(e)
  {
    if xs != [] {
      CollectHas(xs[1..], f, e);
      assert xs == [xs[0]] + xs[1..];
    }
  }

  lemma {:induction false} CollectAppend<T, E>(a: seq<T>, b: seq<T>, f: T -> Option<E>)
    ensures Collect(a + b, f) == Collect(a, f) + Collect(b, f)
  {
    if a == [] {
      assert a + b == b;
    } else {
      assert (a + b)[1..] == a[1..] + b;
      CollectAppend(a[1..], b, f);
    }
  }

  lemma DropAt<T>(xs: seq<T>, k: nat)
    requires k < |xs|
    ensures multiset(xs) == multiset(xs[..k] + xs[k + 1..]) + multiset{xs[k]}
  {
    assert xs == xs[..k] + [xs[k]] + xs[k + 1..];
  }

  lemma DropLast<T>(xs: seq<T>)
    requires xs != []
    ensures multiset(xs) == multiset(xs[..|xs| - 1]) + multiset{xs[|xs| - 1]}
  {
    assert xs == xs[..|xs| - 1] + [xs[|xs| - 1]];
  }

  lemma Cancel<T>(a: multiset<T>, b: multiset<T>, x: T)
    requires a + multiset{x} == b + multiset{x}
    ensures a == b
  {
    forall y ensures a[y] == b[y] {
      assert (a + multiset{x})[y] == (b + multiset{x})[y];
    }
  }

  lemma SameLength<T>(a: seq<T>, b: seq<T>)
    requires multiset(a) == multiset(b)
    ensures |a| == |b|
  {
    assert |multiset(a)| == |a| && |multiset(b)| == |b|;
  }

  lemma SameButLast<T>(a: seq<T>, b: seq<T>)
    requires multiset(a) == multiset(b) && a != [] && b != [] && a[|a| - 1] == b[|b| - 1]
    ensures multiset(a[..|a| - 1]) == multiset(b[..|b| - 1])
  {
    DropLast(a);
    DropLast(b);
    Cancel(multiset(a[..|a| - 1]), multiset(b[..|b| - 1]), a[|a| - 1]);
  }

  lemma CountSnoc<T>(xs: seq<T>, x: T, p: T -> bool)
    ensures Count(xs + [x], p) == Count(xs, p) + if p(x) then 1 else 0
  {
    CountAppend(xs, [x], p);
    assert [x][1..] == [];
  }

  lemma CountDrop<T>(xs: seq<T>, k: nat, p: T -> bool)
    requires k < |xs|
    ensures Count(xs, p) == Count(xs[..k] + xs[k + 1..], p) + if p(xs[k]) then 1 else 0
  {
    CountAppend(xs[..k], xs[k + 1..], p);
    CountSnoc(xs[..k], xs[k], p);
    CountAppend(xs[..k] + [xs[k]], xs[k + 1..], p);
    assert xs == xs[..k] + [xs[k]] + xs[k + 1..];
  }

  // The order does not matter.
  lemma {:induction false} CountOfOrder<T>(a: seq<T>, b: seq<T>, p: T -> bool)
    requires multiset(a) == multiset(b)
    ensures Count(a, p) == Count(b, p)
    decreases |a|
  {
    SameLength(a, b);
    if a != [] {
      var k := FirstIn(a, b);
      hide Count;
      CountDrop(a, 0, p);
      CountDrop(b, k, p);
      CountOfOrder(a[..0] + a[1..], b[..k] + b[k + 1..], p);
    }
  }

  lemma FirstIn<T>(a: seq<T>, b: seq<T>) returns (k: nat)
    requires multiset(a) == multiset(b) && a != []
    ensures k < |b| && b[k] == a[0] && multiset(a[..0] + a[1..]) == multiset(b[..k] + b[k + 1..])
  {
    assert a[0] in multiset(b);
    k :| 0 <= k < |b| && b[k] == a[0];
    DropAt(a, 0);
    DropAt(b, k);
    Cancel(multiset(a[..0] + a[1..]), multiset(b[..k] + b[k + 1..]), a[0]);
  }
}
