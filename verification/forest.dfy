/**
 The branch forest of the demo webapp (webapp/server/src/state.ts) and the cascading delete over it
 (webapp/server/src/provision.ts). The registry is a map by project id; ids only grow, so visiting
 the ids in increasing order is visiting the projects in the order they were registered.
 */
module Forest {

  import opened Wrappers

  datatype Status = Provisioning | Ready | Errored | Deleting

  /** `parent` is the project this one's database branched from. */
  datatype Project = Project(dbId: nat, parent: Option<nat>, status: Status)

  type Projects = map<nat, Project>

  /** Ids are below the allocator's next one, and a branch is younger than its source. */
  predicate Ordered(ps: Projects, next: nat) {
    forall id :: id in ps ==> id < next && (ps[id].parent.Some? ==> ps[id].parent.value < id)
  }

  /** Every registered branch has its source registered. */
  predicate Rooted(ps: Projects) {
    forall id :: id in ps && ps[id].parent.Some? ==> ps[id].parent.value in ps
  }

  /** `id` branched from `root`, directly or through registered projects. */
  predicate Under(ps: Projects, id: nat, root: nat)
    requires id in ps
    decreases id
  {
    match ps[id].parent
    case None => false
    case Some(q) => q == root || (q in ps && q < id && Under(ps, q, root))
  }

  /** `descendants`: the branches of `parent` with ids from `i` on, each after its own branches. */
  function Visit(ps: Projects, next: nat, parent: nat, i: nat): seq<nat>
    requires Ordered(ps, next)
    decreases next - parent, next - i
  {
    if i >= next then []
    else if i in ps && ps[i].parent == Some(parent) then Visit(ps, next, i, 0) + [i] + Visit(ps, next, parent, i + 1)
    else Visit(ps, next, parent, i + 1)
  }

  /** The branch of `root` through which `id` hangs under it. */
  function Top(ps: Projects, id: nat, root: nat): (c: nat)
    requires id in ps && Under(ps, id, root)
    ensures c in ps && ps[c].parent == Some(root)
    decreases id
  {
    if ps[id].parent.value == root then id else Top(ps, ps[id].parent.value, root)
  }

  lemma {:induction false} UnderIsYounger(ps: Projects, next: nat, id: nat, root: nat)
    requires Ordered(ps, next) && id in ps && Under(ps, id, root)
    ensures root < id
    decreases id
  {
    if ps[id].parent.value != root {
      UnderIsYounger(ps, next, ps[id].parent.value, root);
    }
  }

  /** What hangs under a branch `c` of `root` hangs under `root` through `c`, and through nothing else. */
  lemma {:induction false} ThroughTop(ps: Projects, next: nat, id: nat, c: nat, root: nat)
    requires Ordered(ps, next) && id in ps && c in ps && ps[c].parent == Some(root)
    ensures id == c || Under(ps, id, c) <==> Under(ps, id, root) && Top(ps, id, root) == c
    decreases id
  {
    if ps[id].parent.Some? && ps[id].parent.value in ps {
      ThroughTop(ps, next, ps[id].parent.value, c, root);
    }
    if root in ps && Under(ps, root, c) {
      UnderIsYounger(ps, next, root, c);
    }
  }

  /** A project of the visit from `i` on: under `parent` through a branch not before `i`. */
  predicate InVisit(ps: Projects, id: nat, parent: nat, i: nat) {
    id in ps && Under(ps, id, parent) && i <= Top(ps, id, parent)
  }

  predicate Distinct(s: seq<nat>) {
    forall i, j :: 0 <= i < j < |s| ==> s[i] != s[j]
  }

  /** No project comes before one that hangs under it. */
  predicate ChildrenFirst(ps: Projects, s: seq<nat>) {
    forall i, j :: 0 <= i < j < |s| && s[j] in ps ==> !Under(ps, s[j], s[i])
  }

  lemma {:induction false} VisitMembers(ps: Projects, next: nat, parent: nat, i: nat)
    requires Ordered(ps, next)
    ensures forall id :: id in Visit(ps, next, parent, i) <==> InVisit(ps, id, parent, i)
    decreases next - parent, next - i
  {
    var all := Visit(ps, next, parent, i);
    if i >= next {
    } else if i in ps && ps[i].parent == Some(parent) {
      VisitMembers(ps, next, i, 0);
      VisitMembers(ps, next, parent, i + 1);
      forall id | id in ps
        ensures id == i || InVisit(ps, id, i, 0) <==> InVisit(ps, id, parent, i) && !InVisit(ps, id, parent, i + 1)
      {
        ThroughTop(ps, next, id, i, parent);
      }
      assert forall id :: id in all <==> id in Visit(ps, next, i, 0) || id == i || id in Visit(ps, next, parent, i + 1);
    } else {
      VisitMembers(ps, next, parent, i + 1);
    }
  }

  lemma JoinDistinct(a: seq<nat>, x: nat, b: seq<nat>)
    requires Distinct(a) && Distinct(b) && x !in a && x !in b && forall y :: y in a ==> y !in b
    ensures Distinct(a + [x] + b)
  {
    var s := a + [x] + b;
    forall i, j | 0 <= i < j < |s| ensures s[i] != s[j] {
      if i < |a| { assert s[i] in a; }
      if j > |a| { assert s[j] in b; }
    }
  }

  lemma JoinFirst(ps: Projects, a: seq<nat>, x: nat, b: seq<nat>)
    requires ChildrenFirst(ps, a) && ChildrenFirst(ps, b)
    requires x in ps && forall y :: y in a ==> !Under(ps, x, y)
    requires forall y, z :: y in a + [x] && z in b && z in ps ==> !Under(ps, z, y)
    ensures ChildrenFirst(ps, a + [x] + b)
  {
    var s := a + [x] + b;
    forall i, j | 0 <= i < j < |s| && s[j] in ps ensures !Under(ps, s[j], s[i]) {
      if i <= |a| { assert s[i] in a + [x]; }
      if j > |a| { assert s[j] in b; }
    }
  }

  lemma {:induction false} Transitive(ps: Projects, next: nat, id: nat, q: nat, root: nat)
    requires Ordered(ps, next) && id in ps && q in ps && Under(ps, id, q) && Under(ps, q, root)
    ensures Under(ps, id, root)
    decreases id
  {
    if ps[id].parent.value != q {
      Transitive(ps, next, ps[id].parent.value, q, root);
    }
  }

  /** `descendants` lists each transitive branch exactly once, every one before its source. */
  lemma {:induction false} VisitOrder(ps: Projects, next: nat, parent: nat, i: nat)
    requires Ordered(ps, next)
    ensures Distinct(Visit(ps, next, parent, i)) && ChildrenFirst(ps, Visit(ps, next, parent, i))
    decreases next - parent, next - i
  {
    if i >= next {
    } else if i in ps && ps[i].parent == Some(parent) {
      VisitOrder(ps, next, i, 0);
      VisitOrder(ps, next, parent, i + 1);
      VisitMembers(ps, next, i, 0);
      VisitMembers(ps, next, parent, i + 1);
      var inner, rest := Visit(ps, next, i, 0), Visit(ps, next, parent, i + 1);
      forall y | y in inner || y == i
        ensures y !in rest && (y in inner ==> y != i && !Under(ps, i, y))
        ensures forall z :: z in rest ==> !Under(ps, z, y)
      {
        SplitVisit(ps, next, parent, i, y);
        if Under(ps, i, i) { UnderIsYounger(ps, next, i, i); }
      }
      JoinDistinct(inner, i, rest);
      JoinFirst(ps, inner, i, rest);
    } else {
      VisitOrder(ps, next, parent, i + 1);
    }
  }

  /** The subtree of branch `i` of `parent` is apart from, and unrelated to, the later branches' subtrees. */
  lemma SplitVisit(ps: Projects, next: nat, parent: nat, i: nat, y: nat)
    requires Ordered(ps, next) && i in ps && ps[i].parent == Some(parent)
    requires y == i || InVisit(ps, y, i, 0)
    ensures !InVisit(ps, y, parent, i + 1) && (y != i ==> !Under(ps, i, y))
    ensures y == i || y > i
    ensures forall z :: InVisit(ps, z, parent, i + 1) ==> !Under(ps, z, y)
  {
    ThroughTop(ps, next, y, i, parent);
    if y != i { UnderIsYounger(ps, next, y, i); }
    if Under(ps, i, y) { UnderIsYounger(ps, next, i, y); }
    forall z | InVisit(ps, z, parent, i + 1) ensures !Under(ps, z, y) {
      ThroughTop(ps, next, z, i, parent);
      if Under(ps, z, y) && y != i { Transitive(ps, next, z, y, i); }
    }
  }

  // ----- deletion, uninterrupted; `ForestRuns` says what interleaving adds -----

  /** A serial delete of `x` takes `x` and its branches, save those another delete is already taking. */
  predicate Doomed(ps: Projects, id: nat, x: nat)
    requires id in ps
  {
    !ps[id].status.Deleting? && (id == x || Under(ps, id, x))
  }

  function Kept(ps: Projects, x: nat): Projects {
    map id | id in ps && !Doomed(ps, id, x) :: ps[id]
  }

  /** The projects of `s` that no other delete is taking, in order. */
  function Idle(ps: Projects, s: seq<nat>): seq<nat> {
    if s == [] then []
    else (if s[0] in ps && !ps[s[0]].status.Deleting? then [s[0]] else []) + Idle(ps, s[1..])
  }

  function Without(ps: Projects, s: seq<nat>): Projects {
    map id | id in ps && (id !in s || ps[id].status.Deleting?) :: ps[id]
  }

  /** `a` has some of `b`'s projects, with the same sources. */
  predicate Within(a: Projects, b: Projects) {
    forall id :: id in a ==> id in b && a[id].parent == b[id].parent
  }

  lemma {:induction false} UnderWithin(a: Projects, b: Projects, id: nat, root: nat)
    requires Within(a, b) && id in a && Under(a, id, root)
    ensures Under(b, id, root)
    decreases id
  {
    if a[id].parent.value != root {
      UnderWithin(a, b, a[id].parent.value, root);
    }
  }

  /** No project but those being deleted depends on `x`. */
  predicate Free(ps: Projects, x: nat) {
    forall id :: id in ps && Under(ps, id, x) ==> ps[id].status.Deleting?
  }

  lemma {:induction false} IdleNone(ps: Projects, s: seq<nat>)
    requires forall id :: id in s && id in ps ==> ps[id].status.Deleting?
    ensures Idle(ps, s) == []
  {
    if s != [] {
      assert s[0] in s && forall id :: id in s[1..] ==> id in s;
      IdleNone(ps, s[1..]);
    }
  }

  lemma {:induction false} IdleAppend(ps: Projects, s: seq<nat>, x: nat)
    ensures Idle(ps, s + [x]) == Idle(ps, s) + if x in ps && !ps[x].status.Deleting? then [x] else []
  {
    if s == [] {
      assert s + [x] == [x];
    } else {
      IdleAppend(ps, s[1..], x);
      assert (s + [x])[0] == s[0] && (s + [x])[1..] == s[1..] + [x];
      var first := if s[0] in ps && !ps[s[0]].status.Deleting? then [s[0]] else [];
      assert Idle(ps, s + [x]) == first + Idle(ps, s[1..] + [x]) && Idle(ps, s) == first + Idle(ps, s[1..]);
      hide *;
      Regroup(first, Idle(ps, s[1..]), if x in ps && !ps[x].status.Deleting? then [x] else []);
    }
  }

  lemma Regroup(a: seq<nat>, b: seq<nat>, c: seq<nat>)
    ensures a + (b + c) == a + b + c
  {
  }

  /** Deleting a project nothing depends on takes that project alone. */
  lemma FreeDelete(ps: Projects, next: nat, x: nat)
    requires Ordered(ps, next) && x in ps && !ps[x].status.Deleting? && Free(ps, x)
    ensures Kept(ps, x) == ps - {x}
    ensures Idle(ps, Visit(ps, next, x, 0)) == []
  {
    VisitMembers(ps, next, x, 0);
    IdleNone(ps, Visit(ps, next, x, 0));
  }

  /** With the first `k` branches gone, nothing but projects being deleted depends on the next one. */
  lemma NextIsFree(ps: Projects, next: nat, x: nat, kids: seq<nat>, k: nat)
    requires Ordered(ps, next) && kids == Visit(ps, next, x, 0) && k < |kids|
    ensures var cur := Without(ps, kids[..k]);
      Ordered(cur, next) && kids[k] in cur && cur[kids[k]] == ps[kids[k]] && Free(cur, kids[k])
  {
    var cur, c := Without(ps, kids[..k]), kids[k];
    VisitMembers(ps, next, x, 0);
    VisitOrder(ps, next, x, 0);
    assert c in kids;
    forall id | id in cur && Under(cur, id, c) ensures cur[id].status.Deleting? {
      UnderWithin(cur, ps, id, c);
      Transitive(ps, next, id, c, x);
      assert id in kids;
      var j :| 0 <= j < |kids| && kids[j] == id;
      UnderIsYounger(ps, next, id, c);
      assert kids[j] in ps && Under(ps, kids[j], kids[k]) && j != k;
    }
  }

  /** One turn of the cascade's loop: the next branch is removed alone, or left to the delete taking it. */
  lemma CascadeStep(ps: Projects, next: nat, x: nat, kids: seq<nat>, k: nat)
    requires Ordered(ps, next) && kids == Visit(ps, next, x, 0) && k < |kids|
    ensures var cur, c := Without(ps, kids[..k]), kids[k];
      && x < c < next && Ordered(cur, next) && c in cur
      && (cur[c].status.Deleting? ==>
            Without(ps, kids[..k + 1]) == cur && Idle(ps, kids[..k + 1]) == Idle(ps, kids[..k]))
      && (!cur[c].status.Deleting? ==>
            Without(ps, kids[..k + 1]) == Kept(cur, c)
            && Idle(ps, kids[..k + 1]) == Idle(ps, kids[..k]) + Idle(cur, Visit(cur, next, c, 0)) + [c])
  {
    var c := kids[k];
    assert c in kids;
    VisitMembers(ps, next, x, 0);
    UnderIsYounger(ps, next, c, x);
    NextIsFree(ps, next, x, kids, k);
    assert kids[..k + 1] == kids[..k] + [c];
    IdleAppend(ps, kids[..k], c);
    var cur := Without(ps, kids[..k]);
    if !cur[c].status.Deleting? {
      FreeDelete(cur, next, c);
    }
  }

  lemma AfterKids(ps: Projects, next: nat, x: nat, kids: seq<nat>)
    requires Ordered(ps, next) && kids == Visit(ps, next, x, 0) && x in ps && !ps[x].status.Deleting?
    ensures var cur := Without(ps, kids);
      x in cur && cur[x] == ps[x] && Free(cur, x) && Kept(ps, x) == cur - {x}
  {
    var cur := Without(ps, kids);
    VisitMembers(ps, next, x, 0);
    if Under(ps, x, x) { UnderIsYounger(ps, next, x, x); }
    forall id | id in cur && Under(cur, id, x) ensures cur[id].status.Deleting? {
      UnderWithin(cur, ps, id, x);
    }
  }

  /** Every live project has its source registered. */
  predicate LiveRooted(ps: Projects) {
    forall id :: id in ps && !ps[id].status.Deleting? && ps[id].parent.Some? ==> ps[id].parent.value in ps
  }

  /** An uninterrupted delete never takes a live project's source: only a project being deleted itself can lose it. */
  lemma LiveKeepTheirSources(ps: Projects, next: nat, x: nat)
    requires Ordered(ps, next) && LiveRooted(ps) && x in ps && !ps[x].status.Deleting?
    ensures LiveRooted(Kept(ps, x))
  {
    forall id | id in Kept(ps, x) && !ps[id].status.Deleting? && ps[id].parent.Some?
      ensures ps[id].parent.value in Kept(ps, x)
    {
      assert !Under(ps, id, x);
    }
  }

  /**
   An uninterrupted delete leaves every registered branch's source registered, of branches being deleted
   too, exactly when no branch of the deleted project was being deleted elsewhere.
   */
  lemma DeleteKeepsRootedIff(ps: Projects, next: nat, x: nat)
    requires Ordered(ps, next) && Rooted(ps) && x in ps && !ps[x].status.Deleting?
    ensures Rooted(Kept(ps, x)) <==> forall id :: id in ps && Under(ps, id, x) ==> !ps[id].status.Deleting?
  {
    var after := Kept(ps, x);
    if Rooted(after) {
      forall id | id in ps && Under(ps, id, x) ensures !ps[id].status.Deleting? {
        if id in after { ClimbsToDeleted(ps, x, id); }
      }
    } else {
      var id :| id in after && ps[id].parent.Some? && ps[id].parent.value !in after;
      assert Under(ps, id, x);
    }
  }

  /** A kept branch of the deleted project loses its source, or a project on the way up does. */
  lemma {:induction false} ClimbsToDeleted(ps: Projects, x: nat, id: nat)
    requires Rooted(ps) && x in ps && !ps[x].status.Deleting? && id in Kept(ps, x) && Under(ps, id, x)
    ensures !Rooted(Kept(ps, x))
    decreases id
  {
    var q := ps[id].parent.value;
    if q != x && q in Kept(ps, x) {
      ClimbsToDeleted(ps, x, q);
    } else {
      assert id in Kept(ps, x) && q !in Kept(ps, x);
    }
  }

  // ----- what is cleaned, and when -----

  /** A namespace was cleaned while the registry was `registry`. */
  datatype Cleaning = Cleaning(id: nat, registry: Projects)

  function Marked(ps: Projects, id: nat): Projects {
    if id in ps then ps[id := ps[id].(status := Deleting)] else ps
  }

  function Minus(ps: Projects, s: seq<nat>): Projects {
    map id | id in ps && id !in s :: ps[id]
  }

  /** The projects of `s` are cleaned one by one, each marked, with the earlier ones gone. */
  function Cleanings(ps: Projects, s: seq<nat>): seq<Cleaning> {
    if s == [] then []
    else
      var before, id := s[..|s| - 1], s[|s| - 1];
      Cleanings(ps, before) + [Cleaning(id, Marked(Minus(ps, before), id))]
  }

  predicate AllFree(log: seq<Cleaning>) {
    forall e :: e in log ==> Free(e.registry, e.id)
  }

  lemma CleaningsAppend(ps: Projects, s: seq<nat>, id: nat)
    ensures Cleanings(ps, s + [id]) == Cleanings(ps, s) + [Cleaning(id, Marked(Minus(ps, s), id))]
  {
    assert (s + [id])[..|s|] == s;
  }

  lemma {:induction false} IdleMembers(ps: Projects, s: seq<nat>, id: nat)
    ensures id in Idle(ps, s) <==> id in s && id in ps && !ps[id].status.Deleting?
  {
    if s != [] {
      IdleMembers(ps, s[1..], id);
      assert s == [s[0]] + s[1..];
    }
  }

  lemma WithoutIdle(ps: Projects, s: seq<nat>)
    ensures Without(ps, s) == Minus(ps, Idle(ps, s))
  {
    forall id ensures id in Idle(ps, s) <==> id in s && id in ps && !ps[id].status.Deleting? {
      IdleMembers(ps, s, id);
    }
  }

  /** Marking a project leaves what depends on it as it was. */
  lemma MarkedFree(ps: Projects, x: nat)
    requires Free(ps, x)
    ensures Free(Marked(ps, x), x)
  {
    var marked := Marked(ps, x);
    forall id | id in marked && Under(marked, id, x) ensures marked[id].status.Deleting? {
      UnderWithin(marked, ps, id, x);
    }
  }

  /** Each branch of the cascade is cleaned when only projects being deleted depend on it. */
  lemma {:induction false} KidsFree(ps: Projects, next: nat, x: nat, kids: seq<nat>, k: nat)
    requires Ordered(ps, next) && kids == Visit(ps, next, x, 0) && k <= |kids|
    ensures AllFree(Cleanings(ps, Idle(ps, kids[..k])))
    decreases k
  {
    if k > 0 {
      var before, c := kids[..k - 1], kids[k - 1];
      KidsFree(ps, next, x, kids, k - 1);
      assert kids[..k] == before + [c];
      IdleAppend(ps, before, c);
      NextIsFree(ps, next, x, kids, k - 1);
      WithoutIdle(ps, before);
      MarkedFree(Without(ps, before), c);
      CleaningsAppend(ps, Idle(ps, before), c);
      hide Free, Idle, Cleanings, Without, Minus, Visit, Ordered;
      assert Idle(ps, kids[..k]) == Idle(ps, before) || Idle(ps, kids[..k]) == Idle(ps, before) + [c];
    }
  }

  /** So an uninterrupted delete never cleans a namespace that a project not itself being deleted depends on. */
  lemma CleansFreeOnly(ps: Projects, next: nat, x: nat)
    requires Ordered(ps, next) && x in ps && !ps[x].status.Deleting?
    ensures AllFree(Cleanings(ps, Idle(ps, Visit(ps, next, x, 0)) + [x]))
  {
    var kids := Visit(ps, next, x, 0);
    assert kids[..|kids|] == kids;
    KidsFree(ps, next, x, kids, |kids|);
    AfterKids(ps, next, x, kids);
    WithoutIdle(ps, kids);
    MarkedFree(Without(ps, kids), x);
    CleaningsAppend(ps, Idle(ps, kids), x);
  }

  class Registry {

    var projects: Projects
    /** The next id of the allocator, which serves project and database ids alike. */
    var nextId: nat
    /** The namespaces cleaned so far, each with the registry at that moment. */
    ghost var cleaned: seq<Cleaning>

    ghost predicate Valid()
      reads this
    {
      && Ordered(projects, nextId)
      && (forall a :: a in projects ==> projects[a].dbId < nextId && projects[a].dbId !in projects)
      && (forall a, b :: a in projects && b in projects && projects[a].dbId == projects[b].dbId ==> a == b)
    }

    constructor (start: nat)
      ensures Valid() && projects == map[] && nextId == start && cleaned == []
    {
      projects, nextId, cleaned := map[], start, [];
    }

    /** Register a project, or a branch of a registered one: its two ids are new, and differ. */
    method NewProject(parent: Option<nat>) returns (id: nat)
      requires Valid() && (parent.Some? ==> parent.value in projects)
      modifies this
      ensures Valid() && id == old(nextId) && nextId == id + 2
      ensures id !in old(projects) && projects == old(projects)[id := Project(id + 1, parent, Provisioning)]
      ensures old(Rooted(projects)) ==> Rooted(projects)
      ensures old(LiveRooted(projects)) ==> LiveRooted(projects)
      ensures cleaned == old(cleaned)
    {
      id := nextId;
      var dbId := nextId + 1;
      nextId := nextId + 2;
      projects := projects[id := Project(dbId, parent, Provisioning)];
    }

    method Descendants(id: nat) returns (out: seq<nat>)
      requires Ordered(projects, nextId)
      ensures out == Visit(projects, nextId, id, 0)
    {
      out := VisitInto(id, []);
    }

    /** The recursive closure inside `descendants`, pushing onto the shared list. */
    method VisitInto(parent: nat, before: seq<nat>) returns (out: seq<nat>)
      requires Ordered(projects, nextId)
      ensures out == before + Visit(projects, nextId, parent, 0)
      decreases nextId - parent
    {
      out := before;
      var i := 0;
      while i < nextId
        invariant i <= nextId
        invariant out + Visit(projects, nextId, parent, i) == before + Visit(projects, nextId, parent, 0)
      {
        if i in projects && projects[i].parent == Some(parent) {
          out := VisitInto(i, out);
          out := out + [i];
        }
        i := i + 1;
      }
    }

    /**
     `deleteProject` without interruption: nothing for a project that is gone or being deleted; otherwise the branches
     not being deleted elsewhere, children first, and then the project, are cleaned and removed.
     */
    method Delete(id: nat)
      requires Ordered(projects, nextId)
      modifies this
      ensures nextId == old(nextId)
      ensures old(id !in projects || projects[id].status.Deleting?) ==>
        projects == old(projects) && cleaned == old(cleaned)
      ensures !old(id !in projects || projects[id].status.Deleting?) ==>
        var order := Idle(old(projects), Visit(old(projects), nextId, id, 0)) + [id];
        projects == Kept(old(projects), id) && cleaned == old(cleaned) + Cleanings(old(projects), order)
      ensures forall i :: |old(cleaned)| <= i < |cleaned| ==> Free(cleaned[i].registry, cleaned[i].id)
      ensures old(LiveRooted(projects)) ==> LiveRooted(projects)
      decreases nextId - id
    {
      hide Free, Cleanings, Without, Kept, Idle, Visit, LiveRooted;
      if id !in projects || projects[id].status.Deleting? {
        return;
      }
      ghost var ps, done := projects, cleaned;
      var kids := Descendants(id);
      BeforeCascade(ps, nextId, id, kids);
      for k := 0 to |kids|
        invariant nextId == old(nextId)
        invariant projects == Without(ps, kids[..k])
        invariant cleaned == done + Cleanings(ps, Idle(ps, kids[..k]))
      {
        CascadeStep(ps, nextId, id, kids, k);
        CascadeCleans(ps, nextId, id, kids, k);
        Delete(kids[k]);
      }
      assert kids[..|kids|] == kids;
      AfterKids(ps, nextId, id, kids);
      WithoutIdle(ps, kids);
      CleaningsAppend(ps, Idle(ps, kids), id);
      CleansFreeOnly(ps, nextId, id);
      if LiveRooted(ps) { LiveKeepTheirSources(ps, nextId, id); }
      CleanAndRemove(id);
    }

    /** The end of `deleteProject`: mark, clean the namespace and the VMs, unregister. */
    method CleanAndRemove(id: nat)
      requires id in projects
      modifies this
      ensures projects == old(projects) - {id} && nextId == old(nextId)
      ensures cleaned == old(cleaned) + [Cleaning(id, Marked(old(projects), id))]
    {
      projects := projects[id := projects[id].(status := Deleting)];
      CleanNamespace(id);
      projects := projects - {id};
    }

    /** `cleanupTikoNamespace`: a best effort on the guest, noted here with the registry as it is. */
    method CleanNamespace(id: nat)
      modifies this`cleaned
      ensures cleaned == old(cleaned) + [Cleaning(id, projects)]
    {
      cleaned := cleaned + [Cleaning(id, projects)];
    }
  }

  lemma BeforeCascade(ps: Projects, next: nat, x: nat, kids: seq<nat>)
    requires Ordered(ps, next) && x in ps && kids == Visit(ps, next, x, 0)
    ensures Without(ps, kids[..0]) == ps && Cleanings(ps, Idle(ps, kids[..0])) == []
  {
  }

  /** The turn's own delete cleans the one project it removes, as the whole list says. */
  lemma CascadeCleans(ps: Projects, next: nat, x: nat, kids: seq<nat>, k: nat)
    requires Ordered(ps, next) && kids == Visit(ps, next, x, 0) && k < |kids|
    ensures var cur, c := Without(ps, kids[..k]), kids[k];
      c in cur && Ordered(cur, next) && (!cur[c].status.Deleting? ==>
        Cleanings(ps, Idle(ps, kids[..k + 1]))
        == Cleanings(ps, Idle(ps, kids[..k])) + Cleanings(cur, Idle(cur, Visit(cur, next, c, 0)) + [c]))
  {
    var before, c := kids[..k], kids[k];
    var cur := Without(ps, before);
    NextIsFree(ps, next, x, kids, k);
    assert kids[..k + 1] == before + [c];
    IdleAppend(ps, before, c);
    WithoutIdle(ps, before);
    if !cur[c].status.Deleting? {
      FreeDelete(cur, next, c);
      CleaningsAppend(ps, Idle(ps, before), c);
      CleaningsAppend(cur, [], c);
      assert Minus(cur, []) == cur;
    }
  }
}
