/**
 What one delete does when its turns run alone, and so what a branch request in the middle of it
 leads to.
 */
module ForestRaces {

  import opened Forest
  import opened ForestRuns
  import opened ForestOrphans
  import opened Wrappers

  predicate OnlyTurns(acts: seq<Action>) {
    forall k :: 0 <= k < |acts| ==> acts[k].Turn?
  }

  /** Turns of the delete `t` alone. */
  predicate TurnsOf(t: nat, acts: seq<Action>) {
    forall k :: 0 <= k < |acts| ==> acts[k] == Turn(t)
  }

  lemma {:induction false} OnwardsAppend(w: World, a: seq<Action>, b: seq<Action>)
    requires Inv(w)
    ensures Onwards(w, a + b) == Onwards(Onwards(w, a), b)
  {
    hide Inv;
    if b == [] {
      assert a + b == a;
    } else {
      var m := |b| - 1;
      assert (a + b)[..|a + b| - 1] == a + b[..m];
      OnwardsAppend(w, a, b[..m]);
    }
  }

  /** One turn, and then the rest. */
  lemma TurnThen(w: World, t: nat, more: seq<Action>)
    requires Inv(w) && t < |w.deletes| && w.deletes[t] != []
    ensures Inv(DoTurn(w, t)) && Onwards(w, [Turn(t)] + more) == Onwards(DoTurn(w, t), more)
  {
    DoKeepsInv(w, Turn(t));
    OnwardsAppend(w, [Turn(t)], more);
    assert [Turn(t)][..0] == [];
    assert Onwards(w, []) == w && Onwards(w, [Turn(t)]) == DoTurn(w, t);
  }

  // ----- one delete running alone does what the serial one does -----

  /** A turn of a call with a branch to come. */
  lemma NextTurn(w: World, t: nat, waiting: Stack, x: nat, todo: seq<nat>)
    requires Inv(w) && t < |w.deletes| && w.deletes[t] == waiting + [Cascade(x, todo)] && todo != []
    ensures var w1 := DoTurn(w, t);
      && Inv(w1)
      && w1 == w.(deletes := w.deletes[t := waiting + [Cascade(x, todo[1..])] + Call(w, todo[0])])
  {
    DoKeepsInv(w, Turn(t));
    assert w.deletes[t][..|waiting|] == waiting;
  }

  /** What is left of a serial delete of `x` once the calls for the first `k` branches are over. */
  lemma {:induction false} RestAlone(w: World, t: nat, waiting: Stack, ps: Projects, x: nat, kids: seq<nat>, k: nat,
                                     done: seq<Cleaning>)
    returns (more: seq<Action>)
    requires Inv(w) && t < |w.deletes| && Ordered(ps, w.next) && kids == Visit(ps, w.next, x, 0) && k <= |kids|
    requires x in ps && !ps[x].status.Deleting? && w.deletes[t] == waiting + [Cascade(x, kids[k..])]
    requires w.projects == Without(ps, kids[..k]) && w.cleaned == done + Cleanings(ps, Idle(ps, kids[..k]))
    ensures TurnsOf(t, more)
    ensures Onwards(w, more) == w.(projects := Kept(ps, x), cleaned := done + Cleanings(ps, Idle(ps, kids) + [x]),
                                   deletes := w.deletes[t := waiting])
    decreases w.next - x, |kids| - k
  {
    hide Inv, Visit, Without, Kept, Idle, Cleanings, Onwards, DoTurn, Ordered;
    if k == |kids| {
      assert kids[..k] == kids && kids[k..] == [];
      more := LastTwo(w, t, waiting, ps, x, kids, done);
      return;
    }
    var c := kids[k];
    assert kids[k..][0] == c && kids[k..][1..] == kids[k + 1..];
    CascadeStep(ps, w.next, x, kids, k);
    CascadeCleans(ps, w.next, x, kids, k);
    NextTurn(w, t, waiting, x, kids[k..]);
    var cur, w1 := w.projects, DoTurn(w, t);
    var now := waiting + [Cascade(x, kids[k + 1..])];
    if cur[c].status.Deleting? {
      assert now + [] == now;
      more := RestAlone(w1, t, waiting, ps, x, kids, k + 1, done);
    } else {
      var inner := Visit(cur, w.next, c, 0);
      assert inner[0..] == inner;
      BeforeCascade(cur, w.next, c, inner);
      var first := RestAlone(w1, t, now, cur, c, inner, 0, w.cleaned);
      var w2 := Onwards(w1, first);
      var second := RestAlone(w2, t, waiting, ps, x, kids, k + 1, done);
      OnwardsAppend(w1, first, second);
      more := first + second;
    }
    TurnThen(w, t, more);
    more := [Turn(t)] + more;
  }

  /** The mark and cleaning of the project itself, and its removal. */
  lemma LastTwo(w: World, t: nat, waiting: Stack, ps: Projects, x: nat, kids: seq<nat>, done: seq<Cleaning>)
    returns (more: seq<Action>)
    requires Inv(w) && t < |w.deletes| && Ordered(ps, w.next) && kids == Visit(ps, w.next, x, 0)
    requires x in ps && !ps[x].status.Deleting? && w.deletes[t] == waiting + [Cascade(x, [])]
    requires w.projects == Without(ps, kids) && w.cleaned == done + Cleanings(ps, Idle(ps, kids))
    ensures TurnsOf(t, more)
    ensures Onwards(w, more) == w.(projects := Kept(ps, x), cleaned := done + Cleanings(ps, Idle(ps, kids) + [x]),
                                   deletes := w.deletes[t := waiting])
  {
    hide Inv, Visit, Without, Kept, Idle, Cleanings;
    AfterKids(ps, w.next, x, kids);
    WithoutIdle(ps, kids);
    CleaningsAppend(ps, Idle(ps, kids), x);
    more := TwoTurns(w, t, waiting, x);
  }

  lemma TwoTurns(w: World, t: nat, waiting: Stack, x: nat) returns (more: seq<Action>)
    requires Inv(w) && t < |w.deletes| && w.deletes[t] == waiting + [Cascade(x, [])]
    ensures TurnsOf(t, more)
    ensures Onwards(w, more) == w.(projects := w.projects - {x}, deletes := w.deletes[t := waiting],
                                   cleaned := w.cleaned + [Cleaning(x, Marked(w.projects, x))])
  {
    hide StacksOk, LogOk, Shut;
    assert w.deletes[t][..|waiting|] == waiting;
    var w1 := DoTurn(w, t);
    assert w1.deletes[t] == waiting + [Cleans(x)] && w1.deletes[t][..|waiting|] == waiting;
    TurnThen(w, t, [Turn(t)]);
    TurnThen(w1, t, []);
    assert [Turn(t)] + [] == [Turn(t)];
    assert Marked(w.projects, x) - {x} == w.projects - {x};
    more := [Turn(t)] + [Turn(t)];
  }

  /** A delete whose turns run alone ends, and leaves the registry and the cleanings of `Registry.Delete`. */
  lemma AloneIsSerial(acts: seq<Action>, x: nat) returns (turns: seq<Action>)
    ensures TurnsOf(|After(acts).deletes|, turns)
    ensures var w, r := After(acts), After(acts + [Start(x)] + turns);
      r == if x !in w.projects || w.projects[x].status.Deleting? then w.(deletes := w.deletes + [[]])
           else
             var order := Idle(w.projects, Visit(w.projects, w.next, x, 0)) + [x];
             w.(projects := Kept(w.projects, x), deletes := w.deletes + [[]],
                cleaned := w.cleaned + Cleanings(w.projects, order))
  {
    var w := After(acts);
    assert Ordered(w.projects, w.next) && Inv(Start0);
    hide Inv, Visit, Kept, Idle, Cleanings;
    AfterMore(acts, Start(x));
    var w1 := After(acts + [Start(x)]);
    turns := [];
    if x in w.projects && !w.projects[x].status.Deleting? {
      var kids := Visit(w.projects, w.next, x, 0);
      assert kids[0..] == kids;
      BeforeCascade(w.projects, w.next, x, kids);
      assert [] + [Cascade(x, kids)] == [Cascade(x, kids)];
      turns := RestAlone(w1, |w.deletes|, [], w.projects, x, kids, 0, w.cleaned);
      assert w1.deletes[|w.deletes| := []] == w.deletes + [[]];
    }
    OnwardsAppend(Start0, acts + [Start(x)], turns);
  }

  // ----- a branch registered in the middle of a delete -----

  /** `n` is on no list of the frame, and hangs below its project or one above it. */
  predicate Spares(w: World, f: Frame, n: nat, q: nat) {
    && n in w.projects && w.projects[n].parent == Some(q) && q <= f.id && n != f.id
    && (f.Cascade? ==> n !in f.todo)
  }

  /** `x` was cleaned while `n`, as it is now, was registered. */
  predicate CleanedWith(w: World, x: nat, n: nat) {
    exists e :: e in w.cleaned && e.id == x && n in e.registry && n in w.projects && e.registry[n] == w.projects[n]
  }

  /** A call's own branches are younger than a project it hangs under. */
  lemma CallSpares(w: World, c: nat, n: nat, q: nat)
    requires Inv(w) && n in w.projects && w.projects[n].parent == Some(q) && q < c && c != n
    ensures n !in Visit(w.projects, w.next, c, 0)
  {
    VisitMembers(w.projects, w.next, c, 0);
    if Under(w.projects, n, c) && q in w.projects && Under(w.projects, q, c) {
      UnderIsYounger(w.projects, w.next, q, c);
    }
  }

  /** A turn that comes to the next branch: that one and the rest still spare `n`. */
  lemma NextSpares(w: World, t: nat, waiting: Stack, f: Frame, n: nat, q: nat)
    requires Inv(w) && t < |w.deletes| && w.deletes[t] == waiting + [f] && Spares(w, f, n, q)
    requires f.Cascade? && f.todo != []
    ensures var c, rest, w1 := f.todo[0], Cascade(f.id, f.todo[1..]), DoTurn(w, t);
      && f.id < c < w.next && Inv(w1) && Spares(w1, rest, n, q)
      && w1 == w.(deletes := w.deletes[t := waiting + [rest] + Call(w, c)])
      && (Call(w, c) != [] ==> |Call(w, c)| == 1 && Call(w, c)[0].id == c && Spares(w1, Call(w, c)[0], n, q))
  {
    var c := f.todo[0];
    assert f.id < c < w.next by {
      assert StackOk(w, w.deletes[t]) && w.deletes[t][|waiting|] == f && c in f.todo;
    }
    CallSpares(w, c, n, q);
    NextTurn(w, t, waiting, f.id, f.todo);
  }

  /** From `w` to `r` the last call `f` of a delete ran to its end, and `n` stayed as it was. */
  ghost predicate Ended(w: World, t: nat, waiting: Stack, f: Frame, n: nat, r: World)
    requires t < |w.deletes| && n in w.projects
  {
    && Inv(r) && r.deletes == w.deletes[t := waiting] && r.next == w.next && f.id !in r.projects
    && n in r.projects && r.projects[n] == w.projects[n]
    && (f.Cascade? ==> CleanedWith(r, f.id, n))
  }

  /** It does when its turns run alone, and `n` is on none of its lists. */
  lemma {:induction false} CallAlone(w: World, t: nat, waiting: Stack, f: Frame, n: nat, q: nat)
    returns (more: seq<Action>)
    requires Inv(w) && t < |w.deletes| && w.deletes[t] == waiting + [f] && Spares(w, f, n, q)
    ensures OnlyTurns(more) && Ended(w, t, waiting, f, n, Onwards(w, more))
    decreases w.next - f.id, if f.Cascade? then |f.todo| + 1 else 0
  {
    if f.Cascade? && f.todo != [] {
      NextSpares(w, t, waiting, f, n, q);
      var w1, rest, call := DoTurn(w, t), Cascade(f.id, f.todo[1..]), Call(w, f.todo[0]);
      hide Inv, Onwards, DoTurn, Spares, Call, Ordered, Ended;
      if call == [] {
        assert waiting + [rest] + [] == waiting + [rest];
        more := CallAlone(w1, t, waiting, rest, n, q);
        EndedAfterNext(w, t, waiting, f, n, waiting + [rest] + call, w1, Onwards(w1, more));
      } else {
        assert waiting + [rest] + call == (waiting + [rest]) + [call[0]];
        var first := CallAlone(w1, t, waiting + [rest], call[0], n, q);
        var w2 := Onwards(w1, first);
        EndedSpares(w1, t, waiting, rest, call[0], n, q, w2);
        var second := CallAlone(w2, t, waiting, rest, n, q);
        EndedTwice(w1, t, waiting, rest, call[0], n, w2, Onwards(w2, second));
        OnwardsAppend(w1, first, second);
        more := first + second;
        EndedAfterNext(w, t, waiting, f, n, waiting + [rest] + call, w1, Onwards(w1, more));
      }
      TurnThen(w, t, more);
      more := [Turn(t)] + more;
    } else {
      more := LastAlone(w, t, waiting, f, n, q);
    }
  }

  lemma LastAlone(w: World, t: nat, waiting: Stack, f: Frame, n: nat, q: nat) returns (more: seq<Action>)
    requires Inv(w) && t < |w.deletes| && w.deletes[t] == waiting + [f] && Spares(w, f, n, q)
    requires f.Cascade? ==> f.todo == []
    ensures OnlyTurns(more) && Ended(w, t, waiting, f, n, Onwards(w, more))
  {
    if f.Cascade? {
      more := TwoTurns(w, t, waiting, f.id);
      var e := Cleaning(f.id, Marked(w.projects, f.id));
      assert e in Onwards(w, more).cleaned;
    } else {
      assert w.deletes[t][..|waiting|] == waiting;
      TurnThen(w, t, []);
      more := [Turn(t)] + [];
    }
  }

  lemma EndedAfterNext(w: World, t: nat, waiting: Stack, f: Frame, n: nat, s: Stack, w1: World, r: World)
    requires t < |w.deletes| && n in w.projects && f.Cascade? && f.todo != []
    requires w1.projects == w.projects && w1.next == w.next && w1.deletes == w.deletes[t := s]
    requires Ended(w1, t, waiting, Cascade(f.id, f.todo[1..]), n, r)
    ensures Ended(w, t, waiting, f, n, r)
  {
    hide Inv, CleanedWith;
  }

  lemma EndedSpares(w1: World, t: nat, waiting: Stack, rest: Frame, c: Frame, n: nat, q: nat, w2: World)
    requires t < |w1.deletes| && Spares(w1, rest, n, q) && Ended(w1, t, waiting + [rest], c, n, w2)
    ensures Inv(w2) && t < |w2.deletes| && w2.deletes[t] == waiting + [rest] && w2.next == w1.next
    ensures Spares(w2, rest, n, q)
  {
    hide Inv, CleanedWith;
  }

  lemma EndedTwice(w1: World, t: nat, waiting: Stack, rest: Frame, c: Frame, n: nat, w2: World, r: World)
    requires t < |w1.deletes| && n in w1.projects && Ended(w1, t, waiting + [rest], c, n, w2)
    requires t < |w2.deletes| && n in w2.projects && Ended(w2, t, waiting, rest, n, r)
    ensures Ended(w1, t, waiting, rest, n, r)
  {
    hide Inv, CleanedWith;
  }

  /** The calls from the `i`-th on run to their ends. */
  lemma {:induction false} CallsAlone(w: World, t: nat, i: nat, n: nat) returns (more: seq<Action>)
    requires Inv(w) && t < |w.deletes| && i < |w.deletes[t]| && n in w.projects
    requires forall j :: i <= j < |w.deletes[t]| ==> Spares(w, w.deletes[t][j], n, w.deletes[t][i].id)
    ensures OnlyTurns(more)
    ensures var r, q := Onwards(w, more), w.deletes[t][i];
      && q.id !in r.projects && n in r.projects && r.projects[n] == w.projects[n]
      && (q.Cascade? ==> CleanedWith(r, q.id, n))
    decreases |w.deletes[t]|
  {
    var s := w.deletes[t];
    var waiting, f := s[..|s| - 1], s[|s| - 1];
    assert s == waiting + [f];
    more := CallAlone(w, t, waiting, f, n, s[i].id);
    assert Ended(w, t, waiting, f, n, Onwards(w, more));
    if i < |s| - 1 {
      var w1 := Onwards(w, more);
      assert forall j :: i <= j < |waiting| ==> waiting[j] == s[j];
      hide Inv, Onwards, CleanedWith;
      var second := CallsAlone(w1, t, i, n);
      OnwardsAppend(w, more, second);
      more := more + second;
    }
  }

  /** Turns alone register nothing and overwrite no mark. */
  lemma {:induction false} TurnsExcuseNone(w: World, turns: seq<Action>)
    requires Inv(w) && OnlyTurns(turns)
    ensures Onwards(w, turns).late == w.late && Onwards(w, turns).revived == w.revived
  {
    hide Inv;
    if turns != [] {
      TurnsExcuseNone(w, turns[..|turns| - 1]);
    }
  }

  /** A branch registered during a delete of `q` is on no list of that delete. */
  lemma NewIsSpared(w: World, q: nat, t: nat, i: nat)
    requires Inv(w) && Accepted(w, q)
    requires t < |w.deletes| && i < |w.deletes[t]| && w.deletes[t][i].id == q
    ensures forall j :: i <= j < |w.deletes[t]| ==> Spares(Do(w, Branch(q)), w.deletes[t][j], w.next, q)
  {
    var s := w.deletes[t];
    assert StackOk(w, s);
    var r := Do(w, Branch(q)).projects;
    assert w.next in r && r[w.next].parent == Some(q);
    hide Inv, Covered, Busy;
    forall j | i <= j < |s| ensures Spares(Do(w, Branch(q)), s[j], w.next, q) {
      assert i < j ==> s[i].id < s[j].id;
      assert s[j].Cascade? ==> w.next !in s[j].todo;
    }
  }

  /** While a delete of `q` goes on, a branch of `q` can be registered and lose its source. */
  lemma BusyLoses(w: World, q: nat) returns (turns: seq<Action>)
    requires Inv(w) && Accepted(w, q) && Busy(w, q)
    ensures OnlyTurns(turns) && Inv(Do(w, Branch(q))) && Orphan(Onwards(Do(w, Branch(q)), turns), w.next)
  {
    var t, i :| 0 <= t < |w.deletes| && 0 <= i < |w.deletes[t]| && w.deletes[t][i].id == q;
    var w1 := Do(w, Branch(q));
    DoKeepsInv(w, Branch(q));
    NewIsSpared(w, q, t, i);
    assert w1.deletes == w.deletes && w.next in w1.projects;
    var branch := w1.projects[w.next];
    assert branch.parent == Some(q) && branch.status.Provisioning?;
    hide Inv, Onwards, Do, Spares;
    turns := CallsAlone(w1, t, i, w.next);
  }

  lemma IdleKeepsSource(w: World, q: nat, turns: seq<Action>)
    requires Inv(w) && Accepted(w, q) && !Busy(w, q) && OnlyTurns(turns)
    ensures Inv(Do(w, Branch(q))) && !Orphan(Onwards(Do(w, Branch(q)), turns), w.next)
  {
    var w1, n := Do(w, Branch(q)), w.next;
    DoKeepsInv(w, Branch(q));
    assert n !in w1.late && n !in w1.revived by { assert n !in w.late + w.revived; }
    TurnsExcuseNone(w1, turns);
    var r := Onwards(w1, turns);
    if n in r.projects && r.projects[n].parent.Some? && r.projects[n].parent.value !in r.projects {
      assert Shut(r, r.projects[n].parent.value);
      assert Settled(r, n);
    }
  }

  /**
   If a branch of `q` is registered now, the deletes going on can take its source from it if and only
   if one of them is deleting `q`.
   */
  lemma BranchIsLostIff(acts: seq<Action>, q: nat)
    requires Accepted(After(acts), q)
    ensures Busy(After(acts), q) <==>
      exists turns :: OnlyTurns(turns) && Orphan(After(acts + [Branch(q)] + turns), After(acts).next)
  {
    var w := After(acts);
    AfterMore(acts, Branch(q));
    assert Inv(Start0);
    hide Inv, Do, Busy, Accepted, Orphan, OnlyTurns;
    forall turns ensures After(acts + [Branch(q)] + turns) == Onwards(After(acts + [Branch(q)]), turns) {
      OnwardsAppend(Start0, acts + [Branch(q)], turns);
    }
    if Busy(w, q) {
      var turns := BusyLoses(w, q);
      assert Orphan(After(acts + [Branch(q)] + turns), w.next);
    } else {
      forall turns | OnlyTurns(turns) ensures !Orphan(After(acts + [Branch(q)] + turns), w.next) {
        IdleKeepsSource(w, q, turns);
      }
    }
  }

  /** A registered project that is marked has a delete cleaning it. */
  ghost predicate MarksHeld(w: World) {
    forall q :: q in w.projects && w.projects[q].status.Deleting? ==> Held(w, q)
  }

  ghost predicate Held(w: World, q: nat) {
    exists t :: 0 <= t < |w.deletes| && HeldBy(w.deletes[t], q)
  }

  predicate HeldBy(s: Stack, q: nat) {
    s != [] && s[|s| - 1] == Cleans(q)
  }

  /** A step keeps who holds a mark, unless it removes the project. */
  lemma HeldStays(w: World, a: Action, q: nat)
    requires Inv(w) && Held(w, q) && q in Do(w, a).projects
    ensures Held(Do(w, a), q)
  {
    var t :| 0 <= t < |w.deletes| && HeldBy(w.deletes[t], q);
    hide Inv, StacksOk, Visit, Busy;
    assert Do(w, a).deletes[t] == w.deletes[t];
  }

  lemma DoKeepsHeld(w: World, a: Action)
    requires Inv(w) && MarksHeld(w)
    ensures MarksHeld(Do(w, a))
  {
    var w' := Do(w, a);
    forall q | q in w'.projects && w'.projects[q].status.Deleting? ensures Held(w', q) {
      if q in w.projects && w.projects[q].status.Deleting? {
        HeldStays(w, a, q);
      } else {
        var s := w'.deletes[a.t];
        assert HeldBy(s, q);
      }
    }
  }

  lemma {:induction false} MarkedAreHeld(w: World, acts: seq<Action>)
    requires Inv(w) && MarksHeld(w)
    ensures MarksHeld(Onwards(w, acts))
  {
    hide Inv, MarksHeld;
    if acts != [] {
      MarkedAreHeld(w, acts[..|acts| - 1]);
      DoKeepsHeld(Onwards(w, acts[..|acts| - 1]), acts[|acts| - 1]);
    }
  }

  /** A provisioning that ends well while its project is being deleted opens it to branches that are lost. */
  lemma RevivalReopens(acts: seq<Action>, x: nat) returns (turns: seq<Action>)
    requires RevivedAt(After(acts), EndProvisioning(x, true), x)
    ensures OnlyTurns(turns)
    ensures var ended := acts + [EndProvisioning(x, true)];
      Accepted(After(ended), x) && Orphan(After(ended + [Branch(x)] + turns), After(ended).next)
  {
    var w, a := After(acts), EndProvisioning(x, true);
    MarkedAreHeld(Start0, acts);
    assert Held(w, x);
    AfterMore(acts, a);
    var ended := acts + [a];
    var w1 := After(ended);
    assert Busy(w1, x) by {
      var t :| 0 <= t < |w.deletes| && HeldBy(w.deletes[t], x);
      assert w1.deletes[t] == w.deletes[t];
    }
    assert Accepted(w1, x);
    BranchIsLostIff(ended, x);
    turns :| OnlyTurns(turns) && Orphan(After(ended + [Branch(x)] + turns), w1.next);
  }
}
