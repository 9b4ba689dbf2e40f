/** The category mutators (internal/core/catalog/features/core/service_command.go) keep the
    stored categories a forest with pairwise distinct slugs. */
module CategoryService {
  import opened Common
  import opened CategoryTree

  // How the outside world answers one call: the generated ID, whether ListCategories works,
  // which categories cannot be read, whether the write and the product listing work, and
  // whether a product is assigned to the category.
  datatype Env = Env(genID: Option<string>, listOk: bool, failing: set<string>, writeOk: bool,
                     productsOk: bool, hasProducts: bool)

  datatype Call = Add(c: Category, env: Env) | Update(c: Category, env: Env) | Delete(id: string, env: Env)

  predicate ValidCategory(c: Category) {
    !Blank(c.name) && !Blank(c.slug)
  }

  function WithSlug(slugFor: string -> string, c: Category): Category {
    if c.slug == "" then c.(slug := slugFor(c.name)) else c
  }

  ghost predicate SlugTaken(repo: Repo, c: Category) {
    exists id :: id in repo && repo[id].slug == c.slug && repo[id].id != c.id
  }

  predicate HasParent(c: Category) {
    c.parent.Some? && c.parent.value != ""
  }

  predicate Readable(repo: Repo, env: Env, id: string) {
    id in repo && id !in env.failing
  }

  // ----- what each call answers and leaves behind -----------------------------------------

  ghost function AddStep(slugFor: string -> string, repo: Repo, c0: Category, env: Env): (Status, Repo) {
    if c0.id == "" && env.genID.None? then (Internal, repo)
    else
      var c := WithSlug(slugFor, if c0.id == "" then c0.(id := env.genID.value) else c0);
      if !ValidCategory(c) then (BadRequest, repo)
      else if env.listOk && SlugTaken(repo, c) then (Conflict, repo)
      else if HasParent(c) && !Readable(repo, env, c.parent.value) then (NotFound, repo)
      else if !env.writeOk || c.id in repo then (Internal, repo)
      else (Ok, repo[c.id := c])
  }

  ghost function UpdateStep(slugFor: string -> string, repo: Repo, c0: Category, env: Env): (Status, Repo) {
    var c := WithSlug(slugFor, c0);
    if c.id == "" || !ValidCategory(c) then (BadRequest, repo)
    else if env.listOk && SlugTaken(repo, c) then (Conflict, repo)
    else if c.parent == Some(c.id) then (BadRequest, repo)
    else if HasParent(c) && !Readable(repo, env, c.parent.value) then (NotFound, repo)
    else
      var verdict := if HasParent(c) then Walk(repo, env.failing, {c.id}, c.parent.value) else Clear;
      if verdict == ReadError then (Internal, repo)
      else if verdict == Cyclic then (BadRequest, repo)
      else if !env.writeOk then (Internal, repo)
      else if c.id !in repo then (NotFound, repo)
      else (Ok, repo[c.id := c])
  }

  ghost predicate HasChildren(repo: Repo, id: string) {
    exists x :: x in repo && repo[x].parent == Some(id)
  }

  ghost function DeleteStep(repo: Repo, id: string, env: Env): (Status, Repo) {
    if id == "" then (BadRequest, repo)
    else if !env.productsOk then (Internal, repo)
    else if env.hasProducts then (Conflict, repo)
    else if !env.listOk then (Internal, repo)
    else if HasChildren(repo, id) then (Conflict, repo)
    else if !env.writeOk then (Internal, repo)
    else if id !in repo then (NotFound, repo)
    else (Ok, repo - {id})
  }

  ghost function Step(slugFor: string -> string, repo: Repo, call: Call): (Status, Repo) {
    match call
    case Add(c, env) => AddStep(slugFor, repo, c, env)
    case Update(c, env) => UpdateStep(slugFor, repo, c, env)
    case Delete(id, env) => DeleteStep(repo, id, env)
  }

  ghost function Run(slugFor: string -> string, repo: Repo, calls: seq<Call>): Repo
    decreases |calls|
  {
    if calls == [] then repo else Run(slugFor, Step(slugFor, repo, calls[0]).1, calls[1..])
  }

  // ----- the forest -----------------------------------------------------------------------

  ghost predicate Forest(repo: Repo) {
    && "" !in repo
    && (forall id :: id in repo ==> repo[id].id == id)
    && (forall id :: id in repo && HasParent(repo[id]) ==> repo[id].parent.value in repo)
    && (forall id :: Ends(repo, id))
  }

  ghost predicate SlugsDistinct(repo: Repo) {
    forall a, b :: a in repo && b in repo && a != b ==> repo[a].slug != repo[b].slug
  }

  ghost predicate AgreeOutside(repo: Repo, repo': Repo, id: string) {
    forall x :: x != id ==> ParentOf(repo, x) == ParentOf(repo', x)
  }

  lemma AncestorFront(repo: Repo, x: string, k: nat)
    requires x != ""
    ensures Ancestor(repo, x, k + 1) == Ancestor(repo, ParentOf(repo, x), k)
  {
    AncestorAdds(repo, x, 1, k);
    assert Ancestor(repo, x, 1) == ParentOf(repo, x) by {
      assert Ancestor(repo, x, 0) == x;
    }
    assert 1 + k == k + 1;
  }

  // Changing one category's parent leaves every chain ending if that category's own does.
  lemma {:induction false} EndsElsewhere(repo: Repo, repo': Repo, id: string, x: string, e: nat)
    requires AgreeOutside(repo, repo', id) && Ancestor(repo, x, e) == ""
    requires Hits(repo, x, id) ==> Ends(repo', id)
    ensures Ends(repo', x)
    decreases e
  {
    if x == "" {
      assert Ancestor(repo', x, 0) == "";
    } else if x == id {
      assert Ancestor(repo, x, 0) == id;
    } else {
      var y := ParentOf(repo, x);
      AncestorFront(repo, x, e - 1);
      if Hits(repo, y, id) {
        var k: nat :| Ancestor(repo, y, k) == id;
        AncestorFront(repo, x, k);
      }
      EndsElsewhere(repo, repo', id, y, e - 1);
      var k: nat :| Ancestor(repo', y, k) == "";
      AncestorFront(repo', x, k);
    }
  }

  lemma AllEnd(repo: Repo, repo': Repo, id: string)
    requires AgreeOutside(repo, repo', id) && Ends(repo', id)
    requires forall x :: Ends(repo, x)
    ensures forall x :: Ends(repo', x)
  {
    forall x ensures Ends(repo', x) {
      assert Ends(repo, x);
      var e: nat :| Ancestor(repo, x, e) == "";
      EndsElsewhere(repo, repo', id, x, e);
    }
  }

  // Hanging a category under a parent whose chain misses it keeps the forest.
  lemma PutKeepsForest(repo: Repo, c: Category)
    requires Forest(repo) && c.id != ""
    requires HasParent(c) ==> c.parent.value in repo && !Hits(repo, c.parent.value, c.id)
    ensures Forest(repo[c.id := c])
  {
    var repo' := repo[c.id := c];
    assert Ends(repo', c.id) by {
      var p := ParentOf(repo', c.id);
      if HasParent(c) {
        assert Ends(repo, p);
        var e: nat :| Ancestor(repo, p, e) == "";
        EndsElsewhere(repo, repo', c.id, p, e);
        var k: nat :| Ancestor(repo', p, k) == "";
        AncestorFront(repo', c.id, k);
      } else {
        assert Ancestor(repo', c.id, 1) == p by {
          assert Ancestor(repo', c.id, 0) == c.id;
        }
      }
    }
    AllEnd(repo, repo', c.id);
    hide Ends;
  }

  // In a forest no stored chain leads to an ID that is not stored.
  lemma {:induction false} ChainsStayStored(repo: Repo, x: string, k: nat)
    requires Forest(repo) && x in repo
    ensures var a := Ancestor(repo, x, k); a == "" || a in repo
  {
    if k > 0 {
      ChainsStayStored(repo, x, k - 1);
    }
  }

  lemma NewIsMissed(repo: Repo, x: string, id: string)
    requires Forest(repo) && x in repo && id !in repo && id != ""
    ensures !Hits(repo, x, id)
  {
    forall k: nat ensures Ancestor(repo, x, k) != id {
      ChainsStayStored(repo, x, k);
    }
  }

  lemma RemoveKeepsForest(repo: Repo, id: string)
    requires Forest(repo) && id != "" && !HasChildren(repo, id)
    ensures Forest(repo - {id})
  {
    var repo' := repo - {id};
    assert Ancestor(repo', id, 1) == "" by {
      assert Ancestor(repo', id, 0) == id;
    }
    AllEnd(repo, repo', id);
    hide Ends;
  }

  // What the walk found when some reads may have failed.
  lemma ClearMeansMissed(repo: Repo, failing: set<string>, parent: string, id: string)
    requires id != "" && Walk(repo, failing, {id}, parent) == Clear
    ensures !Hits(repo, parent, id)
  {
    assert Ancestor(repo, parent, 0) == parent;
    WalkMeaning(repo, failing, parent, id, {id}, parent, 0);
  }

  ghost predicate SaneCall(call: Call) {
    call.env.genID != Some("")
  }

  lemma StepKeepsForest(slugFor: string -> string, repo: Repo, call: Call)
    requires Forest(repo) && SaneCall(call)
    ensures Forest(Step(slugFor, repo, call).1)
  {
    hide Forest, SlugTaken;
    var (status, repo') := Step(slugFor, repo, call);
    if status == Ok {
      match call {
        case Add(c0, env) =>
          var c := WithSlug(slugFor, if c0.id == "" then c0.(id := env.genID.value) else c0);
          if HasParent(c) {
            NewIsMissed(repo, c.parent.value, c.id);
          }
          PutKeepsForest(repo, c);
        case Update(c0, env) =>
          var c := WithSlug(slugFor, c0);
          if HasParent(c) {
            ClearMeansMissed(repo, env.failing, c.parent.value, c.id);
          }
          PutKeepsForest(repo, c);
        case Delete(id, _) => RemoveKeepsForest(repo, id);
      }
    }
  }

  // Over every run of calls, whatever fails: the parent relation stays acyclic and every
  // parent exists.
  lemma {:induction false} ForestForever(slugFor: string -> string, repo: Repo, calls: seq<Call>)
    requires Forest(repo) && forall call :: call in calls ==> SaneCall(call)
    ensures Forest(Run(slugFor, repo, calls))
    decreases |calls|
  {
    if calls != [] {
      StepKeepsForest(slugFor, repo, calls[0]);
      ForestForever(slugFor, Step(slugFor, repo, calls[0]).1, calls[1..]);
    }
  }

  // ----- what a call accepts and stores ---------------------------------------------------

  ghost predicate ChainReadable(repo: Repo, failing: set<string>, id: string) {
    forall k :: Ancestor(repo, id, k) !in failing - {""}
  }

  lemma {:induction false} ClearReads(repo: Repo, failing: set<string>, visited: set<string>, current: string, k: nat)
    requires Walk(repo, failing, visited, current) == Clear
    ensures Ancestor(repo, current, k) !in failing - {""}
    decreases k
  {
    if k > 0 && current != "" {
      AncestorFront(repo, current, k - 1);
      if current in repo && repo[current].parent.Some? {
        ClearReads(repo, failing, visited + {current}, repo[current].parent.value, k - 1);
      } else {
        EndStays(repo, "", 0, k - 1);
      }
    } else if k > 0 {
      EndStays(repo, current, 0, k);
    }
  }

  lemma ClearIff(repo: Repo, failing: set<string>, parent: string, id: string)
    requires id != "" && Ends(repo, parent)
    ensures Walk(repo, failing, {id}, parent) == Clear <==>
      !Hits(repo, parent, id) && ChainReadable(repo, failing, parent)
  {
    assert Ancestor(repo, parent, 0) == parent;
    WalkMeaning(repo, failing, parent, id, {id}, parent, 0);
    if Walk(repo, failing, {id}, parent) == Clear {
      forall k: nat ensures Ancestor(repo, parent, k) !in failing - {""} {
        ClearReads(repo, failing, {id}, parent, k);
      }
    }
  }

  // Exactly the updates of a stored category are accepted that are valid, take no slug that the
  // listing shows, and name a parent whose chain can be read and misses the category.
  lemma UpdateIff(slugFor: string -> string, repo: Repo, c0: Category, env: Env)
    requires Forest(repo)
    ensures var c := WithSlug(slugFor, c0);
      UpdateStep(slugFor, repo, c0, env).0 == Ok <==>
        (&& c.id in repo && ValidCategory(c) && env.writeOk && (env.listOk ==> !SlugTaken(repo, c))
         && (HasParent(c) ==> c.parent.value in repo && !Hits(repo, c.parent.value, c.id)
                              && ChainReadable(repo, env.failing, c.parent.value)))
  {
    var c := WithSlug(slugFor, c0);
    if c.id != "" && HasParent(c) {
      var p := c.parent.value;
      assert Ends(repo, p);
      ClearIff(repo, env.failing, p, c.id);
      assert Ancestor(repo, p, 0) == p;
    }
    hide Walk, SlugTaken, ValidCategory;
  }

  // Exactly the new categories are accepted that are valid, take no slug that the listing shows
  // and name a parent that can be read.
  lemma AddIff(slugFor: string -> string, repo: Repo, c0: Category, env: Env)
    requires c0.id != "" || env.genID.Some?
    ensures var c := WithSlug(slugFor, if c0.id == "" then c0.(id := env.genID.value) else c0);
      AddStep(slugFor, repo, c0, env).0 == Ok <==>
        (&& c.id !in repo && ValidCategory(c) && env.writeOk && (env.listOk ==> !SlugTaken(repo, c))
         && (HasParent(c) ==> Readable(repo, env, c.parent.value)))
  {
    hide SlugTaken, ValidCategory;
  }

  // Exactly the stored categories without products and children are deleted.
  lemma DeleteIff(repo: Repo, id: string, env: Env)
    requires Forest(repo)
    ensures DeleteStep(repo, id, env).0 == Ok <==>
      (&& id in repo && env.productsOk && !env.hasProducts && env.listOk && env.writeOk
       && forall x :: x in repo ==> repo[x].parent != Some(id))
  {
  }

  // The ID a call is about: a new category without one gets the generated ID.
  function Target(call: Call): string {
    match call
    case Add(c, env) => if c.id == "" && env.genID.Some? then env.genID.value else c.id
    case Update(c, _) => c.id
    case Delete(id, _) => id
  }

  ghost predicate KeepsOthers(repo: Repo, repo': Repo, id: string) {
    && (forall x :: x in repo && x != id ==> x in repo' && repo'[x] == repo[x])
    && (forall x :: x in repo' && x != id ==> x in repo)
  }

  // What an accepted call leaves: the category as it was given, under its own or the generated
  // ID and slug, or no category under the deleted ID; every other one as before.
  lemma StepStores(slugFor: string -> string, repo: Repo, call: Call)
    ensures var (status, repo') := Step(slugFor, repo, call);
      && (status != Ok ==> repo' == repo)
      && (status == Ok ==> KeepsOthers(repo, repo', Target(call)))
      && (status == Ok && call.Delete? ==> call.id !in repo')
      && (status == Ok && !call.Delete? ==>
            var id := Target(call);
            && id in repo' && repo'[id].id == id
            && repo'[id].name == call.c.name && repo'[id].parent == call.c.parent
            && repo'[id].slug == if call.c.slug != "" then call.c.slug else slugFor(call.c.name))
  {
    hide SlugTaken, ValidCategory, Walk, HasChildren;
  }

  // ... so in any listing of the categories one that was given a parent descends from it and
  // from everything the parent descends from.
  lemma StoredDescends(slugFor: string -> string, repo: Repo, call: Call, cats: seq<Category>, ancestor: string)
    requires Forest(repo) && SaneCall(call) && !call.Delete? && HasParent(call.c)
    requires Step(slugFor, repo, call).0 == Ok && Lists(Step(slugFor, repo, call).1, cats)
    requires Descends(cats, ancestor, call.c.parent.value)
    ensures Descends(cats, ancestor, Target(call))
  {
    StepStores(slugFor, repo, call);
    var id, parent := Target(call), call.c.parent.value;
    var repo' := Step(slugFor, repo, call).1;
    assert repo'[id] in cats && Child(cats, parent, id);
    DescendsStep(cats, ancestor, parent, id);
  }

  // ----- slugs ----------------------------------------------------------------------------

  // The category a successful Add or Update writes.
  function Written(slugFor: string -> string, call: Call): Category
    requires !call.Delete?
  {
    WithSlug(slugFor, if call.Add? && call.c.id == "" && call.env.genID.Some?
                      then call.c.(id := call.env.genID.value) else call.c)
  }

  // The calls that get a taken slug past the check: the listing fails, everything else about the
  // call is in order, and the write works: the database has no unique slug index.
  ghost predicate AdmitsDuplicate(slugFor: string -> string, repo: Repo, call: Call) {
    !call.Delete? &&
    var c, env := Written(slugFor, call), call.env;
    && !env.listOk && SlugTaken(repo, c) && ValidCategory(c) && env.writeOk
    && (HasParent(c) ==> Readable(repo, env, c.parent.value))
    && match call
       case Add(c0, _) => (c0.id != "" || env.genID.Some?) && c.id !in repo
       case _ => c.id in repo && (HasParent(c) ==> Walk(repo, env.failing, {c.id}, c.parent.value) == Clear)
  }

  // Exactly then does a call leave two categories with one slug.
  lemma StepSlugs(slugFor: string -> string, repo: Repo, call: Call)
    requires Forest(repo) && SlugsDistinct(repo)
    ensures SlugsDistinct(Step(slugFor, repo, call).1) <==> !AdmitsDuplicate(slugFor, repo, call)
  {
    hide ValidCategory;
    SlugsOnSuccess(slugFor, repo, call);
    StatusOnTaken(slugFor, repo, call);
    hide Forest, SlugsDistinct, SlugTaken, AdmitsDuplicate, Step;
  }

  lemma StatusOnTaken(slugFor: string -> string, repo: Repo, call: Call)
    requires Forest(repo)
    ensures Step(slugFor, repo, call).0 == Ok && !call.Delete? && SlugTaken(repo, Written(slugFor, call))
      <==> AdmitsDuplicate(slugFor, repo, call)
  {
    hide ValidCategory, SlugTaken;
    if call.Update? {
      var c := WithSlug(slugFor, call.c);
      assert c.parent == Some(c.id) && c.id != "" ==> Walk(repo, call.env.failing, {c.id}, c.id) == Cyclic;
    }
  }

  lemma SlugsOnSuccess(slugFor: string -> string, repo: Repo, call: Call)
    requires Forest(repo) && SlugsDistinct(repo)
    ensures var (status, repo') := Step(slugFor, repo, call);
      SlugsDistinct(repo') <==>
        !(status == Ok && !call.Delete? && SlugTaken(repo, Written(slugFor, call)))
  {
    var (status, repo') := Step(slugFor, repo, call);
    if status == Ok && !call.Delete? {
      var c := Written(slugFor, call);
      assert repo' == repo[c.id := c];
      if SlugTaken(repo, c) {
        var id :| id in repo && repo[id].slug == c.slug && repo[id].id != c.id;
        assert repo'[id].slug == repo'[c.id].slug;
      }
    }
  }

  // Over every run whose category listings succeed, slugs stay pairwise distinct.
  lemma {:induction false} SlugsDistinctForever(slugFor: string -> string, repo: Repo, calls: seq<Call>)
    requires Forest(repo) && SlugsDistinct(repo)
    requires forall call :: call in calls ==> SaneCall(call) && call.env.listOk
    ensures SlugsDistinct(Run(slugFor, repo, calls))
    decreases |calls|
  {
    if calls != [] {
      StepKeepsForest(slugFor, repo, calls[0]);
      assert calls[0] in calls;
      StepSlugs(slugFor, repo, calls[0]);
      SlugsDistinctForever(slugFor, Step(slugFor, repo, calls[0]).1, calls[1..]);
    }
  }

  // The listing's error is not reported: with it, every taken slug is accepted.
  lemma FailedListingAdmitsDuplicate(slugFor: string -> string, repo: Repo, c: Category, env: Env)
    requires Forest(repo) && SlugsDistinct(repo)
    requires ValidCategory(c) && c.id != "" && c.id !in repo && !HasParent(c) && SlugTaken(repo, c)
    requires !env.listOk && env.writeOk
    ensures var (status, repo') := AddStep(slugFor, repo, c, env);
      status == Ok && repo' == repo[c.id := c] && !SlugsDistinct(repo')
  {
    hide Forest;
    assert WithSlug(slugFor, c) == c;
    hide ValidCategory;
    StepSlugs(slugFor, repo, Add(c, env));
  }

  // A unique slug index makes the write of a taken slug fail.
  ghost predicate HasSlugIndex(slugFor: string -> string, repo: Repo, calls: seq<Call>)
    decreases |calls|
  {
    calls == [] ||
    (&& (!calls[0].Delete? && SlugTaken(repo, Written(slugFor, calls[0])) ==> !calls[0].env.writeOk)
     && HasSlugIndex(slugFor, Step(slugFor, repo, calls[0]).1, calls[1..]))
  }

  // With it slugs stay distinct whatever fails.
  lemma {:induction false} SlugIndexKeepsDistinct(slugFor: string -> string, repo: Repo, calls: seq<Call>)
    requires Forest(repo) && SlugsDistinct(repo)
    requires HasSlugIndex(slugFor, repo, calls) && forall call :: call in calls ==> SaneCall(call)
    ensures SlugsDistinct(Run(slugFor, repo, calls))
    decreases |calls|
  {
    if calls != [] {
      StepKeepsForest(slugFor, repo, calls[0]);
      assert calls[0] in calls;
      StepSlugs(slugFor, repo, calls[0]);
      hide Forest, SlugsDistinct, Step, SlugTaken;
      SlugIndexKeepsDistinct(slugFor, Step(slugFor, repo, calls[0]).1, calls[1..]);
    }
  }

  // ----- the service object ---------------------------------------------------------------

  class CatalogCommandService {
    const slugFor: string -> string
    var repo: Repo

    constructor (slugFor: string -> string)
      ensures repo == map[] && this.slugFor == slugFor && Forest(repo) && SlugsDistinct(repo)
    {
      this.slugFor := slugFor;
      repo := map[];
      new;
      forall x ensures Ends(map[], x) {
        assert Ancestor(map[], x, 1) == "" by {
          assert Ancestor(map[], x, 0) == x;
        }
      }
    }

    // The loop over ListCategories.
    method FindSlug(c: Category) returns (taken: bool)
      ensures taken == SlugTaken(repo, c)
    {
      var rest := repo.Keys;
      while rest != {}
        invariant rest <= repo.Keys
        invariant forall id :: id in repo.Keys - rest ==> repo[id].slug != c.slug || repo[id].id == c.id
        decreases rest
      {
        var id :| id in rest;
        if repo[id].slug == c.slug && repo[id].id != c.id {
          return true;
        }
        rest := rest - {id};
      }
      return false;
    }

    method FindChild(parent: string) returns (found: bool)
      ensures found == HasChildren(repo, parent)
    {
      var rest := repo.Keys;
      while rest != {}
        invariant rest <= repo.Keys
        invariant forall id :: id in repo.Keys - rest ==> repo[id].parent != Some(parent)
        decreases rest
      {
        var id :| id in rest;
        if repo[id].parent == Some(parent) {
          return true;
        }
        rest := rest - {id};
      }
      return false;
    }

    method AddCategory(c0: Category, env: Env) returns (status: Status)
      requires Forest(repo) && env.genID != Some("")
      modifies this
      ensures (status, repo) == Step(slugFor, old(repo), Add(c0, env))
      ensures Forest(repo)
    {
      StepKeepsForest(slugFor, repo, Add(c0, env));
      hide Forest, SlugTaken;
      var c := c0;
      if c.id == "" {
        if env.genID.None? {
          return Internal;
        }
        c := c.(id := env.genID.value);
      }
      if c.slug == "" {
        c := c.(slug := slugFor(c.name));
      }
      if !ValidCategory(c) {
        return BadRequest;
      }
      if env.listOk {
        var taken := FindSlug(c);
        if taken {
          return Conflict;
        }
      }
      if c.parent.Some? && c.parent.value != "" {
        if c.parent.value in env.failing || c.parent.value !in repo {
          return NotFound;
        }
      }
      if !env.writeOk || c.id in repo {
        return Internal;
      }
      repo := repo[c.id := c];
      return Ok;
    }

    method UpdateCategory(c0: Category, env: Env) returns (status: Status)
      requires Forest(repo)
      modifies this
      ensures (status, repo) == Step(slugFor, old(repo), Update(c0, env))
      ensures Forest(repo)
    {
      UpdateIgnoresGenID(slugFor, repo, c0, env);
      hide Forest, SlugTaken;
      var c := c0;
      if c.id == "" {
        return BadRequest;
      }
      if c.slug == "" {
        c := c.(slug := slugFor(c.name));
      }
      if !ValidCategory(c) {
        return BadRequest;
      }
      if env.listOk {
        var taken := FindSlug(c);
        if taken {
          return Conflict;
        }
      }
      if c.parent.Some? && c.parent.value == c.id {
        return BadRequest;
      }
      if c.parent.Some? && c.parent.value != "" {
        if c.parent.value in env.failing || c.parent.value !in repo {
          return NotFound;
        }
        var verdict := DetectCategoryCycle(repo, env.failing, c.parent.value, c.id);
        if verdict == ReadError {
          return Internal;
        }
        if verdict == Cyclic {
          return BadRequest;
        }
      }
      if !env.writeOk {
        return Internal;
      }
      if c.id !in repo {
        return NotFound;
      }
      repo := repo[c.id := c];
      return Ok;
    }

    method DeleteCategory(id: string, env: Env) returns (status: Status)
      requires Forest(repo)
      modifies this
      ensures (status, repo) == Step(slugFor, old(repo), Delete(id, env))
      ensures Forest(repo)
    {
      if id != "" && !HasChildren(repo, id) {
        RemoveKeepsForest(repo, id);
      }
      hide Forest, HasChildren;
      if id == "" {
        return BadRequest;
      }
      if !env.productsOk {
        return Internal;
      }
      if env.hasProducts {
        return Conflict;
      }
      if !env.listOk {
        return Internal;
      }
      var child := FindChild(id);
      if child {
        return Conflict;
      }
      if !env.writeOk {
        return Internal;
      }
      if id !in repo {
        return NotFound;
      }
      repo := repo - {id};
      return Ok;
    }
  }

  lemma UpdateIgnoresGenID(slugFor: string -> string, repo: Repo, c: Category, env: Env)
    requires Forest(repo)
    ensures Forest(Step(slugFor, repo, Update(c, env)).1)
  {
    StepKeepsForest(slugFor, repo, Update(c, env.(genID := None)));
  }
}
