/**
 Deletes of the branch forest as they run: `deleteProject` gives way at its awaits, and other deletes,
 branch requests and ends of provisionings then take their turns (webapp/server/src/provision.ts,
 webapp/server/src/routes.ts). A step is a piece of code without an await, or a part of one.
 */
module ForestRuns {

  import opened Forest
  import opened Wrappers

  /** One call of `deleteProject`: going through the branches it listed, or cleaning its own namespace. */
  datatype Frame = Cascade(id: nat, todo: seq<nat>) | Cleans(id: nat)

  /** The calls of one delete, each waiting for the one after it. */
  type Stack = seq<Frame>

  datatype World = World(
    projects: Projects,
    next: nat,
    /** The projects being provisioned. */
    pending: set<nat>,
    deletes: seq<Stack>,
    cleaned: seq<Cleaning>,
    /** The branches registered while a delete of their source was going on. */
    late: set<nat>,
    /** The projects whose mark of being deleted was overwritten when their provisioning ended. */
    revived: set<nat>)

  datatype Action = Register | Branch(source: nat) | EndProvisioning(id: nat, ok: bool) | Start(id: nat) | Turn(t: nat)

  /** A delete of `q` is going on. */
  predicate Busy(w: World, q: nat) {
    exists t, i :: 0 <= t < |w.deletes| && 0 <= i < |w.deletes[t]| && w.deletes[t][i].id == q
  }

  function Registered(w: World, parent: Option<nat>): World {
    w.(projects := w.projects[w.next := Project(w.next + 1, parent, Provisioning)],
       next := w.next + 2,
       pending := w.pending + {w.next})
  }

  /** The call `deleteProject(x)` up to its loop; it is over at once if `x` is gone or marked. */
  function Call(w: World, x: nat): Stack
    requires Ordered(w.projects, w.next)
  {
    if x in w.projects && !w.projects[x].status.Deleting? then [Cascade(x, Visit(w.projects, w.next, x, 0))] else []
  }

  function DoTurn(w: World, t: nat): World
    requires Ordered(w.projects, w.next) && t < |w.deletes| && w.deletes[t] != []
  {
    var s := w.deletes[t];
    var waiting := s[..|s| - 1];
    match s[|s| - 1]
    case Cascade(id, todo) =>
      if todo != [] then
        w.(deletes := w.deletes[t := waiting + [Cascade(id, todo[1..])] + Call(w, todo[0])])
      else
        var marked := Marked(w.projects, id);
        w.(projects := marked,
           cleaned := w.cleaned + [Cleaning(id, marked)],
           deletes := w.deletes[t := waiting + [Cleans(id)]])
    case Cleans(id) =>
      w.(projects := w.projects - {id}, deletes := w.deletes[t := waiting])
  }

  function Do(w: World, a: Action): World
    requires Ordered(w.projects, w.next)
  {
    match a
    case Register => Registered(w, None)
    case Branch(q) =>
      if q in w.projects && w.projects[q].status.Ready? then
        Registered(w, Some(q)).(late := if Busy(w, q) then w.late + {w.next} else w.late)
      else w
    case EndProvisioning(x, ok) =>
      if x in w.pending && x in w.projects then
        w.(pending := w.pending - {x},
           projects := w.projects[x := w.projects[x].(status := if ok then Ready else Errored)],
           revived := if w.projects[x].status.Deleting? then w.revived + {x} else w.revived)
      else w
    case Start(x) => w.(deletes := w.deletes + [Call(w, x)])
    case Turn(t) => if t < |w.deletes| && w.deletes[t] != [] then DoTurn(w, t) else w
  }

  /** A branch is registered exactly of a project that is ready; a failed provisioning leaves one that is not. */
  lemma Requests(w: World, q: nat)
    requires Ordered(w.projects, w.next)
    ensures var w' := Do(w, Branch(q));
      if q in w.projects && w.projects[q].status == Ready
      then w'.projects == w.projects[w.next := Project(w.next + 1, Some(q), Provisioning)] && w'.next == w.next + 2
      else w' == w
    ensures q in w.pending && q in w.projects ==>
      Do(w, EndProvisioning(q, true)).projects == w.projects[q := w.projects[q].(status := Ready)]
      && Do(w, EndProvisioning(q, false)).projects == w.projects[q := w.projects[q].(status := Errored)]
  {
    hide Busy, Visit;
  }

  // ----- what every run keeps -----

  /** `n` is being deleted, or is one of the exceptions. */
  predicate Settled(w: World, n: nat)
    requires n in w.projects
  {
    w.projects[n].status.Deleting? || n in w.late || n in w.revived
  }

  ghost predicate Shut(w: World, q: nat) {
    forall n :: n in w.projects && w.projects[n].parent == Some(q) ==> Settled(w, n)
  }

  /** Every branch of a project being deleted is settled, still to come, or being deleted by the next call. */
  ghost predicate Covered(w: World, s: Stack, i: nat)
    requires i < |s|
  {
    match s[i]
    case Cleans(id) => Shut(w, id)
    case Cascade(id, todo) =>
      forall n :: n in w.projects && w.projects[n].parent == Some(id) ==>
        Settled(w, n) || n in todo || (i + 1 < |s| && s[i + 1].id == n)
  }

  ghost predicate StackOk(w: World, s: Stack) {
    && (forall i :: 0 <= i < |s| ==> s[i].id < w.next && Covered(w, s, i))
    && (forall i, j :: 0 <= i < j < |s| ==> s[i].id < s[j].id)
    && (forall i, c :: 0 <= i < |s| && s[i].Cascade? && c in s[i].todo ==> s[i].id < c < w.next)
    && (forall i :: 0 <= i < |s| - 1 ==> s[i].Cascade?)
  }

  /** On the way from `n` up to `root` there is an exception. */
  predicate Excused(ps: Projects, n: nat, root: nat, exceptions: set<nat>)
    requires n in ps && Under(ps, n, root)
    decreases n
  {
    n in exceptions || (ps[n].parent.value != root && Excused(ps, ps[n].parent.value, root, exceptions))
  }

  /** Every live project that depended on a cleaned one does so through an exception. */
  ghost predicate FreeBut(e: Cleaning, exceptions: set<nat>) {
    forall n :: n in e.registry && Under(e.registry, n, e.id) && !e.registry[n].status.Deleting? ==>
      Excused(e.registry, n, e.id, exceptions)
  }

  ghost predicate StacksOk(w: World) {
    forall t :: 0 <= t < |w.deletes| ==> StackOk(w, w.deletes[t])
  }

  ghost predicate LogOk(w: World) {
    forall e :: e in w.cleaned ==> FreeBut(e, w.late + w.revived)
  }

  ghost predicate Inv(w: World) {
    && Ordered(w.projects, w.next)
    && (forall n :: n in w.late || n in w.revived ==> n < w.next)
    && StacksOk(w)
    && (forall q :: q !in w.projects || w.projects[q].status.Deleting? ==> Shut(w, q))
    && LogOk(w)
  }

  const Start0 := World(map[], 0, {}, [], [], {}, {})

  /** A run from `w` is any sequence of actions. */
  function Onwards(w: World, acts: seq<Action>): (r: World)
    requires Inv(w)
    ensures Inv(r)
  {
    if acts == [] then w
    else
      var before := Onwards(w, acts[..|acts| - 1]);
      DoKeepsInv(before, acts[|acts| - 1]);
      Do(before, acts[|acts| - 1])
  }

  function After(acts: seq<Action>): (w: World)
    ensures Inv(w)
  {
    Onwards(Start0, acts)
  }

  /** The projects of `w'` were there and as settled in `w`, or are new. */
  ghost predicate Grows(w: World, w': World) {
    && w.next <= w'.next && w.late <= w'.late && w.revived <= w'.revived
    && forall n :: n in w'.projects ==>
         if n in w.projects then w'.projects[n].parent == w.projects[n].parent && (Settled(w, n) ==> Settled(w', n))
         else w'.projects[n].parent.Some? && Busy(w, w'.projects[n].parent.value) ==> n in w'.late
  }

  lemma GrowsKeepsStack(w: World, w': World, t: nat)
    requires Grows(w, w') && t < |w.deletes| && StackOk(w, w.deletes[t])
    ensures StackOk(w', w.deletes[t])
  {
    var s := w.deletes[t];
    forall i | 0 <= i < |s| ensures Covered(w', s, i) {
      assert Covered(w, s, i) && Busy(w, s[i].id);
      forall n | n in w'.projects && w'.projects[n].parent == Some(s[i].id)
        ensures Settled(w', n) || (s[i].Cascade? && (n in s[i].todo || (i + 1 < |s| && s[i + 1].id == n)))
      {
      }
    }
  }

  lemma {:induction false} ExcusedMore(ps: Projects, n: nat, root: nat, few: set<nat>, many: set<nat>)
    requires few <= many && n in ps && Under(ps, n, root) && Excused(ps, n, root, few)
    ensures Excused(ps, n, root, many)
    decreases n
  {
    if n !in few { ExcusedMore(ps, ps[n].parent.value, root, few, many); }
  }

  lemma FreeButMore(e: Cleaning, few: set<nat>, many: set<nat>)
    requires few <= many && FreeBut(e, few)
    ensures FreeBut(e, many)
  {
    forall n | n in e.registry && Under(e.registry, n, e.id) && !e.registry[n].status.Deleting?
      ensures Excused(e.registry, n, e.id, many)
    {
      ExcusedMore(e.registry, n, e.id, few, many);
    }
  }

  lemma GrowsKeepsRest(w: World, w': World)
    requires Inv(w) && Grows(w, w') && w'.deletes == w.deletes && w'.cleaned == w.cleaned
    ensures StacksOk(w') && LogOk(w')
  {
    hide StackOk, FreeBut, Grows;
    forall t | 0 <= t < |w.deletes| ensures StackOk(w', w.deletes[t]) {
      GrowsKeepsStack(w, w', t);
    }
    assert w.late + w.revived <= w'.late + w'.revived by { GrowsExceptions(w, w'); }
    forall e | e in w'.cleaned ensures FreeBut(e, w'.late + w'.revived) {
      FreeButMore(e, w.late + w.revived, w'.late + w'.revived);
    }
  }

  lemma GrowsExceptions(w: World, w': World)
    requires Grows(w, w')
    ensures w.late + w.revived <= w'.late + w'.revived
  {
  }

  lemma RegisteredKeeps(w: World, a: Action)
    requires Inv(w) && (a.Register? || a.Branch?)
    ensures Inv(Do(w, a)) && Grows(w, Do(w, a))
  {
    var w' := Do(w, a);
    assert Grows(w, w');
    GrowsKeepsRest(w, w');
    assert Ordered(w'.projects, w'.next) && StacksOk(w') && LogOk(w');
    forall q | q !in w'.projects || w'.projects[q].status.Deleting? ensures Shut(w', q) {
      assert Shut(w, q);
    }
  }

  lemma EndKeeps(w: World, x: nat, ok: bool)
    requires Inv(w)
    ensures Inv(Do(w, EndProvisioning(x, ok))) && Grows(w, Do(w, EndProvisioning(x, ok)))
  {
    var w' := Do(w, EndProvisioning(x, ok));
    assert Grows(w, w');
    GrowsKeepsRest(w, w');
    assert Ordered(w'.projects, w'.next) && StacksOk(w') && LogOk(w');
    forall q | q !in w'.projects || w'.projects[q].status.Deleting? ensures Shut(w', q) {
      assert Shut(w, q);
    }
  }

  /** A new call has all the branches of its project to come. */
  lemma CallOk(w: World, x: nat)
    requires Inv(w)
    ensures StackOk(w, Call(w, x))
  {
    VisitMembers(w.projects, w.next, x, 0);
    forall c | c in w.projects && Under(w.projects, c, x) ensures x < c {
      UnderIsYounger(w.projects, w.next, c, x);
    }
    forall n | n in w.projects && w.projects[n].parent == Some(x) ensures Under(w.projects, n, x) {
    }
  }

  lemma StartKeeps(w: World, x: nat)
    requires Inv(w)
    ensures Inv(Do(w, Start(x)))
  {
    var w' := Do(w, Start(x));
    CallOk(w, x);
    SameProjects(w, w');
  }

  lemma SameProjects(w: World, w': World)
    requires w'.projects == w.projects && w'.next == w.next && w'.late == w.late && w'.revived == w.revived
    ensures forall s :: StackOk(w, s) ==> StackOk(w', s)
    ensures forall q :: Shut(w, q) ==> Shut(w', q)
  {
    forall s | StackOk(w, s) ensures StackOk(w', s) {
      forall i | 0 <= i < |s| ensures Covered(w', s, i) {
        assert Covered(w, s, i);
      }
    }
  }

  /** The next branch is skipped, or its own call begins. */
  lemma NextBranch(w: World, s: Stack, id: nat, todo: seq<nat>)
    requires Inv(w) && StackOk(w, s + [Cascade(id, todo)]) && todo != []
    ensures StackOk(w, s + [Cascade(id, todo[1..])] + Call(w, todo[0]))
  {
    var was, now := s + [Cascade(id, todo)], s + [Cascade(id, todo[1..])] + Call(w, todo[0]);
    var call := Call(w, todo[0]);
    CallOk(w, todo[0]);
    assert was[|s|] == Cascade(id, todo) && now[|s|] == Cascade(id, todo[1..]);
    assert todo[0] in was[|s|].todo;
    forall i | 0 <= i < |now| ensures Covered(w, now, i) {
      if i < |s| {
        assert now[i] == was[i] && Covered(w, was, i);
        assert now[i + 1].id == was[i + 1].id;
      } else if i == |s| {
        assert Covered(w, was, i);
        forall n | n in w.projects && w.projects[n].parent == Some(id)
          ensures Settled(w, n) || n in todo[1..] || (i + 1 < |now| && now[i + 1].id == n)
        {
          assert n in todo ==> n == todo[0] || n in todo[1..];
        }
      } else {
        assert now[i] == call[0] && Covered(w, call, 0);
      }
    }
    forall i, c | 0 <= i < |now| && now[i].Cascade? && c in now[i].todo ensures now[i].id < c < w.next {
      if i < |s| { assert now[i] == was[i]; } else if i == |s| { assert c in was[i].todo; }
    }
    forall i, j | 0 <= i < j < |now| ensures now[i].id < now[j].id {
      assert i < |s| ==> was[i].id < was[|s|].id && (j < |s| ==> was[i].id < was[j].id);
    }
    forall i | 0 <= i < |now| - 1 ensures now[i].Cascade? {
      if i < |s| { assert now[i] == was[i] && was[i].Cascade?; }
    }
  }

  /** Below a project all of whose branches are settled, live projects hang through exceptions. */
  lemma {:induction false} ShutExcuses(w: World, root: nat, n: nat)
    requires Shut(w, root) && forall q :: q in w.projects && w.projects[q].status.Deleting? ==> Shut(w, q)
    requires n in w.projects && Under(w.projects, n, root) && !w.projects[n].status.Deleting?
    ensures Excused(w.projects, n, root, w.late + w.revived)
    decreases n
  {
    var q := w.projects[n].parent.value;
    if n !in w.late + w.revived {
      assert !Settled(w, n);
      ShutExcuses(w, root, q);
    }
  }

  lemma MarkedOk(w: World, s: Stack, id: nat)
    requires StackOk(w, s + [Cascade(id, [])])
    ensures StackOk(w, s + [Cleans(id)]) && Shut(w, id)
  {
    var was, now := s + [Cascade(id, [])], s + [Cleans(id)];
    forall i | 0 <= i < |now| ensures now[i].id < w.next && Covered(w, now, i) {
      assert Covered(w, was, i);
      assert now[i].id == was[i].id;
      assert i < |s| ==> now[i] == was[i] && now[i + 1].id == was[i + 1].id;
    }
    assert Covered(w, was, |s|);
    forall i, j | 0 <= i < j < |now| ensures now[i].id < now[j].id {
      assert was[i].id < was[j].id;
    }
    forall i, c | 0 <= i < |now| && now[i].Cascade? && c in now[i].todo ensures now[i].id < c < w.next {
      assert was[i] == now[i] && c in was[i].todo;
    }
    forall i | 0 <= i < |now| - 1 ensures now[i].Cascade? {
      assert was[i] == now[i] && was[i].Cascade?;
    }
  }

  lemma RemovedOk(w: World, s: Stack, id: nat)
    requires StackOk(w, s + [Cleans(id)]) && id !in w.projects
    ensures StackOk(w, s)
  {
    var was := s + [Cleans(id)];
    forall i | 0 <= i < |s| ensures s[i].id < w.next && Covered(w, s, i) {
      assert Covered(w, was, i);
      assert was[i] == s[i];
    }
    forall i, j | 0 <= i < j < |s| ensures s[i].id < s[j].id {
      assert was[i].id < was[j].id;
    }
    forall i, c | 0 <= i < |s| && s[i].Cascade? && c in s[i].todo ensures s[i].id < c < w.next {
      assert was[i] == s[i] && c in was[i].todo;
    }
    forall i | 0 <= i < |s| - 1 ensures s[i].Cascade? {
      assert was[i] == s[i] && was[i].Cascade?;
    }
  }

  lemma MarkKeeps(w: World, t: nat)
    requires Inv(w) && t < |w.deletes| && w.deletes[t] != []
    requires var top := w.deletes[t][|w.deletes[t]| - 1]; top.Cascade? && top.todo == []
    ensures Inv(DoTurn(w, t))
  {
    var s, w' := w.deletes[t], DoTurn(w, t);
    var waiting, id := s[..|s| - 1], s[|s| - 1].id;
    assert s == waiting + [Cascade(id, [])];
    MarkedOk(w, waiting, id);
    assert Grows(w, w');
    forall q | q !in w'.projects || w'.projects[q].status.Deleting? ensures Shut(w', q) {
      assert Shut(w, q);
    }
    assert Shut(w', id);
    var mid := w'.(cleaned := w.cleaned, deletes := w.deletes);
    GrowsKeepsRest(w, mid);
    assert StackOk(mid, s);
    MarkedOk(mid, waiting, id);
    SameProjects(mid, w');
    var entry := Cleaning(id, w'.projects);
    forall n | n in w'.projects && Under(w'.projects, n, id) && !w'.projects[n].status.Deleting?
      ensures Excused(w'.projects, n, id, w'.late + w'.revived)
    {
      ShutExcuses(w', id, n);
    }
    assert FreeBut(entry, w'.late + w'.revived) && LogOk(mid);
  }

  lemma RemoveKeeps(w: World, t: nat)
    requires Inv(w) && t < |w.deletes| && w.deletes[t] != [] && w.deletes[t][|w.deletes[t]| - 1].Cleans?
    ensures Inv(DoTurn(w, t))
  {
    var s, w' := w.deletes[t], DoTurn(w, t);
    var waiting, id := s[..|s| - 1], s[|s| - 1].id;
    assert s == waiting + [Cleans(id)];
    assert Covered(w, s, |s| - 1);
    assert Grows(w, w');
    var mid := w'.(deletes := w.deletes);
    GrowsKeepsRest(w, mid);
    assert StackOk(mid, s);
    RemovedOk(mid, waiting, id);
    SameProjects(mid, w');
    forall q | q !in w'.projects || w'.projects[q].status.Deleting? ensures Shut(w', q) {
      assert Shut(w, q);
    }
  }

  lemma NextKeeps(w: World, t: nat)
    requires Inv(w) && t < |w.deletes| && w.deletes[t] != []
    requires var top := w.deletes[t][|w.deletes[t]| - 1]; top.Cascade? && top.todo != []
    ensures Inv(DoTurn(w, t))
  {
    var s, w' := w.deletes[t], DoTurn(w, t);
    var waiting, top := s[..|s| - 1], s[|s| - 1];
    assert s == waiting + [Cascade(top.id, top.todo)];
    NextBranch(w, waiting, top.id, top.todo);
    SameProjects(w, w');
  }

  /** Every action of every delete and request keeps the invariant. */
  lemma DoKeepsInv(w: World, a: Action)
    requires Inv(w)
    ensures Inv(Do(w, a))
  {
    hide StacksOk, Shut, LogOk, Ordered;
    match a
    case Register => RegisteredKeeps(w, a);
    case Branch(_) => RegisteredKeeps(w, a);
    case EndProvisioning(x, ok) => EndKeeps(w, x, ok);
    case Start(x) => StartKeeps(w, x);
    case Turn(t) =>
      if t < |w.deletes| && w.deletes[t] != [] {
        match w.deletes[t][|w.deletes[t]| - 1]
        case Cleans(_) => RemoveKeeps(w, t);
        case Cascade(_, todo) => if todo == [] { MarkKeeps(w, t); } else { NextKeeps(w, t); }
      }
  }
}
