/**
 A run in which a live branch loses its source: it is registered while a delete of the source waits
 for the cleaning of an older branch.
 */
module ForestWitness {

  import opened Forest
  import opened ForestRuns
  import opened ForestOrphans
  import opened Wrappers

  const Ready0 := Project(1, None, Ready)
  const Branch2 := Project(3, Some(0), Provisioning)
  const Branch4 := Project(5, Some(0), Provisioning)

  /** The turns of the only delete. */
  lemma OneNext(w: World, waiting: Stack, x: nat, todo: seq<nat>)
    requires Ordered(w.projects, w.next) && w.deletes == [waiting + [Cascade(x, todo)]] && todo != []
    ensures Do(w, Turn(0)) == w.(deletes := [waiting + [Cascade(x, todo[1..])] + Call(w, todo[0])])
  {
    assert w.deletes[0][..|waiting|] == waiting;
  }

  lemma OneMark(w: World, waiting: Stack, x: nat)
    requires Ordered(w.projects, w.next) && w.deletes == [waiting + [Cascade(x, [])]]
    ensures var marked := Marked(w.projects, x);
      Do(w, Turn(0)) == w.(projects := marked, deletes := [waiting + [Cleans(x)]],
                           cleaned := w.cleaned + [Cleaning(x, marked)])
  {
    assert w.deletes[0][..|waiting|] == waiting;
  }

  lemma OneRemove(w: World, waiting: Stack, x: nat)
    requires Ordered(w.projects, w.next) && w.deletes == [waiting + [Cleans(x)]]
    ensures Do(w, Turn(0)) == w.(projects := w.projects - {x}, deletes := [waiting])
  {
    assert w.deletes[0][..|waiting|] == waiting;
  }

  lemma VisitTwo(ps: Projects)
    requires ps == map[0 := Ready0, 2 := Branch2]
    ensures Ordered(ps, 4) && Visit(ps, 4, 0, 0) == [2] && Visit(ps, 4, 2, 0) == []
  {
    assert Visit(ps, 4, 2, 3) == Visit(ps, 4, 2, 4) == [];
    assert Visit(ps, 4, 2, 1) == Visit(ps, 4, 2, 2) == [];
    assert Visit(ps, 4, 0, 3) == Visit(ps, 4, 0, 4) == [];
    assert Visit(ps, 4, 0, 2) == Visit(ps, 4, 2, 0) + [2] + Visit(ps, 4, 0, 3);
    assert Visit(ps, 4, 0, 0) == Visit(ps, 4, 0, 1) == Visit(ps, 4, 0, 2);
  }

  const Before := [Register, EndProvisioning(0, true), Branch(0)]

  lemma TwoProjects()
    ensures After(Before) == World(map[0 := Ready0, 2 := Branch2], 4, {2}, [], [], {}, {})
  {
    hide Inv, Visit;
    AfterMore([], Register);
    AfterMore([Register], EndProvisioning(0, true));
    AfterMore([Register, EndProvisioning(0, true)], Branch(0));
    assert [] + [Register] == [Register];
    assert [Register] + [EndProvisioning(0, true)] == [Register, EndProvisioning(0, true)];
    assert [Register, EndProvisioning(0, true)] + [Branch(0)] == Before;
    var w1 := World(map[0 := Project(1, None, Provisioning)], 2, {0}, [], [], {}, {});
    assert After([Register]) == w1 by { assert Start0.pending + {0} == {0}; }
    var w2 := World(map[0 := Ready0], 2, {}, [], [], {}, {});
    assert Do(w1, EndProvisioning(0, true)) == w2 by {
      assert w1.pending - {0} == {};
    }
    assert w2.pending + {2} == {2};
  }

  /** The delete of project 0 lists its branch 2, and then calls itself for it. */
  lemma ListsTheBranch()
    ensures var ps := map[0 := Ready0, 2 := Branch2];
      && After(Before + [Start(0)]) == World(ps, 4, {2}, [[Cascade(0, [2])]], [], {}, {})
      && After(Before + [Start(0)] + [Turn(0)])
         == World(ps, 4, {2}, [[Cascade(0, []), Cascade(2, [])]], [], {}, {})
  {
    var ps := map[0 := Ready0, 2 := Branch2];
    TwoProjects();
    VisitTwo(ps);
    AfterMore(Before, Start(0));
    AfterMore(Before + [Start(0)], Turn(0));
    var w := After(Before);
    hide Inv, Visit, After, Ordered;
    assert Call(w, 0) == [Cascade(0, [2])];
    var w1 := World(ps, 4, {2}, [[Cascade(0, [2])]], [], {}, {});
    assert Do(w, Start(0)) == w1;
    assert [] + [Cascade(0, [2])] == [Cascade(0, [2])];
    OneNext(w1, [], 0, [2]);
    assert [2][1..] == [] && Call(w1, 2) == [Cascade(2, [])];
    assert [] + [Cascade(0, [])] + [Cascade(2, [])] == [Cascade(0, []), Cascade(2, [])];
  }

  const Halfway := Before + [Start(0)] + [Turn(0)] + [Turn(0)]

  /** It is cleaning the branch. */
  lemma CleansTheBranch()
    ensures var ps := map[0 := Ready0, 2 := Branch2.(status := Deleting)];
      After(Halfway) == World(ps, 4, {2}, [[Cascade(0, []), Cleans(2)]], [Cleaning(2, ps)], {}, {})
  {
    ListsTheBranch();
    var listed := Before + [Start(0)] + [Turn(0)];
    AfterMore(listed, Turn(0));
    var w := After(listed);
    hide Inv, Visit, After, Do;
    assert [Cascade(0, [])] + [Cascade(2, [])] == [Cascade(0, []), Cascade(2, [])];
    OneMark(w, [Cascade(0, [])], 2);
    assert [Cascade(0, [])] + [Cleans(2)] == [Cascade(0, []), Cleans(2)];
    assert Marked(w.projects, 2) == map[0 := Ready0, 2 := Branch2.(status := Deleting)];
  }

  const Late4 := Halfway + [Branch(0)] + [Turn(0)]

  /** A branch is registered, and the delete goes on to project 0 itself. */
  lemma BranchIsAccepted()
    ensures After(Late4) == World(map[0 := Ready0, 4 := Branch4], 6, {2, 4}, [[Cascade(0, [])]],
                                  After(Halfway).cleaned, {4}, {})
  {
    CleansTheBranch();
    AfterMore(Halfway, Branch(0));
    AfterMore(Halfway + [Branch(0)], Turn(0));
    var w := After(Halfway);
    hide Inv, Visit, After, Ordered;
    assert Busy(w, 0) by { assert w.deletes[0][0].id == 0; }
    var w1 := Do(w, Branch(0));
    assert w1.projects == w.projects[4 := Branch4] && w1.pending == {2, 4} && w1.late == {4};
    assert [Cascade(0, [])] + [Cleans(2)] == [Cascade(0, []), Cleans(2)];
    OneRemove(w1, [Cascade(0, [])], 2);
    assert w1.projects - {2} == map[0 := Ready0, 4 := Branch4];
  }

  const Lost := Late4 + [Turn(0)] + [Turn(0)]

  /** The new branch loses its source, whose namespace is cleaned under it. */
  lemma BranchLosesItsSource()
    ensures var w := After(Lost);
      && w.projects == map[4 := Branch4] && Orphan(w, 4)
      && |w.cleaned| == 2 && w.cleaned[1].id == 0 && !Free(w.cleaned[1].registry, 0)
  {
    BranchIsAccepted();
    CleansTheBranch();
    AfterMore(Late4, Turn(0));
    AfterMore(Late4 + [Turn(0)], Turn(0));
    var w := After(Late4);
    hide Inv, Visit, After, Do, Ordered;
    assert [] + [Cascade(0, [])] == [Cascade(0, [])] && [] + [Cleans(0)] == [Cleans(0)];
    OneMark(w, [], 0);
    var ps := map[0 := Ready0.(status := Deleting), 4 := Branch4];
    assert Marked(w.projects, 0) == ps;
    assert 4 in ps && Under(ps, 4, 0);
    OneRemove(Do(w, Turn(0)), [], 0);
    assert ps - {0} == map[4 := Branch4];
  }
}
