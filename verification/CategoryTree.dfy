/** The category graph read downwards (internal/core/catalog/features/core/filter.go) and
    upwards (detectCategoryCycle in service_command.go). */
module CategoryTree {
  import opened Common

  datatype Category = Category(id: string, name: string, slug: string, parent: Option<string>)

  // ----- downwards: the child relation ----------------------------------------------------

  ghost predicate Child(cats: seq<Category>, parent: string, child: string) {
    exists c :: c in cats && c.id == child && c.parent == Some(parent) && parent != ""
  }

  // p leads from its first to its last entry through children.
  ghost predicate IsLine(cats: seq<Category>, p: seq<string>) {
    p != [] && forall i :: 0 < i < |p| ==> Child(cats, p[i - 1], p[i])
  }

  // The reflexive-transitive closure of the child relation.
  ghost predicate Descends(cats: seq<Category>, ancestor: string, id: string) {
    exists p :: IsLine(cats, p) && p[0] == ancestor && p[|p| - 1] == id
  }

  lemma DescendsSelf(cats: seq<Category>, id: string)
    ensures Descends(cats, id, id)
  {
    assert IsLine(cats, [id]);
    assert [id][0] == id;
  }

  lemma DescendsStep(cats: seq<Category>, ancestor: string, id: string, child: string)
    requires Descends(cats, ancestor, id) && Child(cats, id, child)
    ensures Descends(cats, ancestor, child)
  {
    var p :| IsLine(cats, p) && p[0] == ancestor && p[|p| - 1] == id;
    var q := p + [child];
    assert IsLine(cats, q) && q[0] == ancestor && q[|q| - 1] == child;
  }

  // A set holding the first entry of a line and closed under children holds its last one.
  lemma {:induction false} ClosedHoldsLine(cats: seq<Category>, s: set<string>, p: seq<string>)
    requires IsLine(cats, p) && p[0] in s
    requires forall x, y :: x in s && Child(cats, x, y) ==> y in s
    ensures p[|p| - 1] in s
    decreases |p|
  {
    if |p| > 1 {
      assert Child(cats, p[1 - 1], p[1]);
      var q := p[1..];
      forall i | 0 < i < |q| ensures Child(cats, q[i - 1], q[i]) {
        assert q[i - 1] == p[i] && q[i] == p[i + 1];
        assert Child(cats, p[i + 1 - 1], p[i + 1]);
      }
      ClosedHoldsLine(cats, s, q);
    }
  }

  // ----- the traversal --------------------------------------------------------------------

  type Adjacency = map<string, seq<string>>

  function Children(adj: Adjacency, id: string): seq<string> {
    if id in adj then adj[id] else []
  }

  ghost predicate IsAdjacency(cats: seq<Category>, adj: Adjacency) {
    forall p, c :: c in Children(adj, p) <==> Child(cats, p, c)
  }

  method BuildAdjacency(cats: seq<Category>) returns (adj: Adjacency)
    ensures IsAdjacency(cats, adj)
  {
    adj := map[];
    for i := 0 to |cats|
      invariant IsAdjacency(cats[..i], adj)
    {
      var c := cats[i];
      ChildSnoc(cats[..i], c);
      assert cats[..i + 1] == cats[..i] + [c];
      if c.parent.Some? && c.parent.value != "" {
        adj := adj[c.parent.value := Children(adj, c.parent.value) + [c.id]];
      }
    }
    assert cats[..|cats|] == cats;
  }

  lemma ChildSnoc(cats: seq<Category>, c: Category)
    ensures forall p, x :: Child(cats + [c], p, x) <==>
      Child(cats, p, x) || (c.id == x && c.parent == Some(p) && p != "")
  {
    forall p, x | Child(cats + [c], p, x)
      ensures Child(cats, p, x) || (c.id == x && c.parent == Some(p) && p != "")
    {
      var d :| d in cats + [c] && d.id == x && d.parent == Some(p) && p != "";
    }
    forall p, x | Child(cats, p, x) ensures Child(cats + [c], p, x) {
      var d :| d in cats && d.id == x && d.parent == Some(p) && p != "";
      assert d in cats + [c];
    }
    forall p, x | c.id == x && c.parent == Some(p) && p != "" ensures Child(cats + [c], p, x) {
      assert c in cats + [c];
    }
  }

  // The closure variables of getCategoryDescendants.
  class Visitor {
    const adj: Adjacency
    ghost const ids: set<string>
    var descendants: set<string>

    ghost predicate Valid()
    {
      forall p, c :: c in Children(adj, p) ==> c in ids
    }

    constructor (adj: Adjacency, ghost ids: set<string>, targetID: string)
      requires forall p, c :: c in Children(adj, p) ==> c in ids
      ensures Valid() && this.adj == adj && this.ids == ids && descendants == {targetID}
    {
      this.adj, this.ids := adj, ids;
      descendants := {targetID};
    }

    // Everything newly added is reachable from id, and id and everything newly added has all
    // its children in the result.
    method Visit(id: string, ghost cats: seq<Category>, ghost target: string)
      requires Valid() && IsAdjacency(cats, adj)
      requires Descends(cats, target, id)
      modifies this`descendants
      ensures old(descendants) <= descendants
      ensures forall x :: x in descendants - old(descendants) ==> Descends(cats, target, x)
      ensures forall x, y :: ((x == id || x in descendants - old(descendants))
        && y in Children(adj, x)) ==> y in descendants
      decreases ids - descendants
    {
      ghost var before := ids - descendants;
      var children := Children(adj, id);
      for k := 0 to |children|
        invariant old(descendants) <= descendants
        invariant forall x :: x in descendants - old(descendants) ==> Descends(cats, target, x)
        invariant forall x, y :: (x in descendants - old(descendants)
          && y in Children(adj, x)) ==> y in descendants
        invariant forall j :: 0 <= j < k ==> children[j] in descendants
      {
        var child := children[k];
        if child !in descendants {
          assert Child(cats, id, child);
          DescendsStep(cats, target, id, child);
          assert child in before;
          hide Child, Descends, IsAdjacency;
          descendants := descendants + {child};
          Visit(child, cats, target);
        }
      }
    }
  }

  // Terminates on any list of categories, cyclic ones included.
  method GetCategoryDescendants(targetID: string, cats: seq<Category>) returns (r: set<string>)
    ensures forall x :: x in r <==> Descends(cats, targetID, x)
  {
    var adj := BuildAdjacency(cats);
    ghost var ids := set c | c in cats :: c.id;
    forall p, c | c in Children(adj, p) ensures c in ids {
      assert Child(cats, p, c);
    }
    var v := new Visitor(adj, ids, targetID);
    DescendsSelf(cats, targetID);
    v.Visit(targetID, cats, targetID);
    r := v.descendants;
    forall x | Descends(cats, targetID, x) ensures x in r {
      var p :| IsLine(cats, p) && p[0] == targetID && p[|p| - 1] == x;
      forall y, z | y in r && Child(cats, y, z) ensures z in r {
        assert z in Children(adj, y);
      }
      ClosedHoldsLine(cats, r, p);
    }
  }

  // ----- upwards: the parent chain --------------------------------------------------------

  type Repo = map<string, Category>

  // The parent's ID; "" at a root or at an ID that is not stored.
  function ParentOf(repo: Repo, id: string): string {
    if id in repo && repo[id].parent.Some? then repo[id].parent.value else ""
  }

  // The k-th ancestor of id; "" once the chain has ended.
  function Ancestor(repo: Repo, id: string, k: nat): string {
    if k == 0 then id
    else
      var a := Ancestor(repo, id, k - 1);
      if a == "" then "" else ParentOf(repo, a)
  }

  // The chain of id reaches target.
  ghost predicate Hits(repo: Repo, id: string, target: string) {
    exists k :: Ancestor(repo, id, k) == target
  }

  ghost predicate Ends(repo: Repo, id: string) {
    Hits(repo, id, "")
  }

  lemma {:induction false} AncestorAdds(repo: Repo, id: string, a: nat, b: nat)
    ensures Ancestor(repo, id, a + b) == Ancestor(repo, Ancestor(repo, id, a), b)
  {
    if b > 0 {
      AncestorAdds(repo, id, a, b - 1);
      assert a + b - 1 == a + (b - 1);
    }
  }

  lemma {:induction false} EndStays(repo: Repo, id: string, a: nat, b: nat)
    requires Ancestor(repo, id, a) == "" && a <= b
    ensures Ancestor(repo, id, b) == ""
  {
    if a < b {
      EndStays(repo, id, a, b - 1);
    }
  }

  // A chain that comes back to an entry never ends.
  lemma {:induction false} ReturnRepeats(repo: Repo, x: string, p: nat, n: nat)
    requires Ancestor(repo, x, p) == x
    ensures Ancestor(repo, x, n * p) == x
  {
    if n > 0 {
      ReturnRepeats(repo, x, p, n - 1);
      AncestorAdds(repo, x, (n - 1) * p, p);
      assert (n - 1) * p + p == n * p;
    }
  }

  lemma RepeatNeverEnds(repo: Repo, id: string, j: nat, k: nat)
    requires j < k && Ancestor(repo, id, j) == Ancestor(repo, id, k) != ""
    ensures !Ends(repo, id)
  {
    if Ends(repo, id) {
      var e: nat :| Ancestor(repo, id, e) == "";
      hide Ancestor;
      var x, p := Ancestor(repo, id, j), k - j;
      var m := e * p;
      assert m >= e;
      assert j + p == k;
      AncestorAdds(repo, id, j, p);
      ReturnRepeats(repo, x, p, e);
      AncestorAdds(repo, id, j, m);
      EndStays(repo, id, e, j + m);
      assert false;
    }
  }

  // ----- the cycle check ------------------------------------------------------------------

  datatype Verdict = Cyclic | Clear | ReadError

  // What the loop of detectCategoryCycle decides from its two variables; the IDs in failing
  // cannot be read.
  ghost function Walk(repo: Repo, failing: set<string>, visited: set<string>, current: string): Verdict
    decreases repo.Keys - visited
  {
    if current == "" then Clear
    else if current in visited then Cyclic
    else if current in failing then ReadError
    else if current !in repo || repo[current].parent.None? then Clear
    else Walk(repo, failing, visited + {current}, repo[current].parent.value)
  }

  method DetectCategoryCycle(repo: Repo, failing: set<string>, startParentID: string,
                             targetCategoryID: string) returns (r: Verdict)
    ensures r == Walk(repo, failing, {targetCategoryID}, startParentID)
  {
    var visited := {targetCategoryID};
    var current := startParentID;
    while current != ""
      invariant Walk(repo, failing, visited, current)
             == Walk(repo, failing, {targetCategoryID}, startParentID)
      decreases repo.Keys - visited
    {
      if current in visited {
        return Cyclic;
      }
      if current in failing {
        return ReadError;
      }
      if current !in repo {
        return Clear;
      }
      visited := visited + {current};
      if repo[current].parent.None? {
        return Clear;
      }
      current := repo[current].parent.value;
    }
    return Clear;
  }

  // The walk so far: visited holds the target and the first k entries of the chain.
  ghost predicate WalkState(repo: Repo, start: string, target: string, visited: set<string>,
                            current: string, k: nat)
  {
    && Ancestor(repo, start, k) == current
    && (forall j :: 0 <= j < k ==> Ancestor(repo, start, j) in visited - {"", target})
    && (forall x :: x in visited && x != target ==> exists j: nat :: j < k && Ancestor(repo, start, j) == x)
    && target in visited
  }

  lemma {:induction false} WalkMeaning(repo: Repo, failing: set<string>, start: string,
                                       target: string, visited: set<string>, current: string, k: nat)
    requires target != "" && WalkState(repo, start, target, visited, current, k)
    ensures match Walk(repo, failing, visited, current)
      case Cyclic => Hits(repo, start, target) || !Ends(repo, start)
      case Clear => !Hits(repo, start, target) && Ends(repo, start)
      case ReadError => exists j :: Ancestor(repo, start, j) in failing - {""}
    decreases repo.Keys - visited
  {
    if current != "" && current in visited {
      if current != target {
        var j: nat :| j < k && Ancestor(repo, start, j) == current;
        RepeatNeverEnds(repo, start, j, k);
      }
    } else if current != "" && current !in failing {
      var next := ParentOf(repo, current);
      assert Ancestor(repo, start, k + 1) == next;
      if current in repo && repo[current].parent.Some? {
        NextWalkState(repo, start, target, visited, current, k);
        WalkMeaning(repo, failing, start, target, visited + {current}, next, k + 1);
      } else {
        EndMisses(repo, start, target, k + 1);
      }
    } else if current == "" {
      EndMisses(repo, start, target, k);
    }
  }

  lemma NextWalkState(repo: Repo, start: string, target: string, visited: set<string>,
                      current: string, k: nat)
    requires WalkState(repo, start, target, visited, current, k)
    requires current != "" && current !in visited
    ensures WalkState(repo, start, target, visited + {current}, ParentOf(repo, current), k + 1)
  {
    var visited' := visited + {current};
    forall x | x in visited' && x != target
      ensures exists j: nat :: j < k + 1 && Ancestor(repo, start, j) == x
    {
      if x == current {
        assert k < k + 1 && Ancestor(repo, start, k) == x;
      } else {
        var j: nat :| j < k && Ancestor(repo, start, j) == x;
        assert j < k + 1;
      }
    }
  }

  lemma EndMisses(repo: Repo, start: string, target: string, e: nat)
    requires target != "" && Ancestor(repo, start, e) == ""
    requires forall j :: 0 <= j < e ==> Ancestor(repo, start, j) != target
    ensures !Hits(repo, start, target) && Ends(repo, start)
  {
    forall k: nat ensures Ancestor(repo, start, k) != target {
      if k >= e {
        EndStays(repo, start, e, k);
      }
    }
  }

  // With every read succeeding, the check answers "cyclic" exactly when the chain from the new
  // parent reaches the category or never ends.
  lemma CycleCheckMeaning(repo: Repo, start: string, target: string)
    requires target != ""
    ensures var r := Walk(repo, {}, {target}, start);
      && r != ReadError
      && (r == Cyclic <==> Hits(repo, start, target) || !Ends(repo, start))
  {
    assert Ancestor(repo, start, 0) == start;
    WalkMeaning(repo, {}, start, target, {target}, start, 0);
  }

  // ----- the two traversals are duals -----------------------------------------------------

  ghost predicate Lists(repo: Repo, cats: seq<Category>) {
    && (forall c :: c in cats ==> c.id in repo && repo[c.id] == c)
    && (forall id :: id in repo ==> repo[id].id == id && repo[id] in cats)
  }

  lemma {:induction false} LineIsChain(repo: Repo, cats: seq<Category>, p: seq<string>)
    requires Lists(repo, cats) && IsLine(cats, p) && p[|p| - 1] != ""
    ensures Ancestor(repo, p[|p| - 1], |p| - 1) == p[0] && p[0] != ""
    decreases |p|
  {
    if |p| > 1 {
      var q := p[1..];
      forall i | 0 < i < |q| ensures Child(cats, q[i - 1], q[i]) {
        assert q[i - 1] == p[i] && q[i] == p[i + 1];
        assert Child(cats, p[i + 1 - 1], p[i + 1]);
      }
      LineIsChain(repo, cats, q);
      assert Child(cats, p[1 - 1], p[1]);
      var c :| c in cats && c.id == p[1] && c.parent == Some(p[0]) && p[0] != "";
      assert ParentOf(repo, p[1]) == p[0];
    }
  }

  lemma {:induction false} ChainDescends(repo: Repo, cats: seq<Category>, id: string, k: nat)
    requires Lists(repo, cats) && Ancestor(repo, id, k) != ""
    ensures Descends(cats, Ancestor(repo, id, k), id)
  {
    if k == 0 {
      DescendsSelf(cats, id);
    } else {
      var child, parent := Ancestor(repo, id, k - 1), Ancestor(repo, id, k);
      ChainDescends(repo, cats, id, k - 1);
      assert parent == ParentOf(repo, child);
      assert repo[child] in cats;
      assert Child(cats, parent, child);
      var p :| IsLine(cats, p) && p[0] == child && p[|p| - 1] == id;
      var q := [parent] + p;
      forall i | 0 < i < |q| ensures Child(cats, q[i - 1], q[i]) {
        if i > 1 {
          assert Child(cats, p[i - 1 - 1], p[i - 1]);
        }
      }
      assert IsLine(cats, q) && q[0] == parent && q[|q| - 1] == id;
    }
  }

  lemma HitsIsDescends(repo: Repo, cats: seq<Category>, ancestor: string, id: string)
    requires Lists(repo, cats) && ancestor != "" && id != ""
    ensures Hits(repo, id, ancestor) <==> Descends(cats, ancestor, id)
  {
    if Hits(repo, id, ancestor) {
      var k :| Ancestor(repo, id, k) == ancestor;
      ChainDescends(repo, cats, id, k);
    }
    if Descends(cats, ancestor, id) {
      var p :| IsLine(cats, p) && p[0] == ancestor && p[|p| - 1] == id;
      LineIsChain(repo, cats, p);
    }
  }

  // On any category graph the upward check says "cyclic" exactly when the new parent is among
  // the category's descendants or hangs on a parent cycle; with all chains ending, exactly when
  // it is among the descendants.
  lemma TraversalsAreDual(repo: Repo, cats: seq<Category>, parent: string, category: string)
    requires Lists(repo, cats) && parent != "" && category != ""
    ensures Walk(repo, {}, {category}, parent) == Cyclic
      <==> Descends(cats, category, parent) || !Ends(repo, parent)
  {
    CycleCheckMeaning(repo, parent, category);
    HitsIsDescends(repo, cats, category, parent);
  }
}
