/**
 Which live projects lose their sources when deletes interleave with branch requests, and which
 namespaces are cleaned under a live branch.
 */
module ForestOrphans {

  import opened Forest
  import opened ForestRuns

  /** A live project whose source is gone. */
  predicate Orphan(w: World, n: nat) {
    && n in w.projects && !w.projects[n].status.Deleting?
    && w.projects[n].parent.Some? && w.projects[n].parent.value !in w.projects
  }

  /** A branch request is accepted. */
  predicate Accepted(w: World, q: nat) {
    q in w.projects && w.projects[q].status.Ready?
  }

  /** `n` was registered as a branch while a delete of its source was going on. */
  predicate Late(acts: seq<Action>, n: nat) {
    exists k :: 0 <= k < |acts| && LateAt(After(acts[..k]), acts[k], n)
  }

  predicate LateAt(w: World, a: Action, n: nat) {
    a.Branch? && Accepted(w, a.source) && Busy(w, a.source) && n == w.next
  }

  /** The provisioning of `n` ended while `n` was marked, and took the mark away. */
  predicate Revived(acts: seq<Action>, n: nat) {
    exists k :: 0 <= k < |acts| && RevivedAt(After(acts[..k]), acts[k], n)
  }

  predicate RevivedAt(w: World, a: Action, n: nat) {
    && a.EndProvisioning? && a.id == n
    && n in w.pending && n in w.projects && w.projects[n].status.Deleting?
  }

  lemma LateMore(acts: seq<Action>, a: Action, n: nat)
    ensures Late(acts + [a], n) <==> Late(acts, n) || LateAt(After(acts), a, n)
  {
    hide After, LateAt;
    var all := acts + [a];
    assert all[..|acts|] == acts && all[|acts|] == a;
    assert forall k :: 0 <= k < |acts| ==> all[..k] == acts[..k] && all[k] == acts[k];
    if Late(acts, n) {
      var k :| 0 <= k < |acts| && LateAt(After(acts[..k]), acts[k], n);
      assert LateAt(After(all[..k]), all[k], n);
    }
  }

  lemma RevivedMore(acts: seq<Action>, a: Action, n: nat)
    ensures Revived(acts + [a], n) <==> Revived(acts, n) || RevivedAt(After(acts), a, n)
  {
    hide After, RevivedAt;
    var all := acts + [a];
    assert all[..|acts|] == acts && all[|acts|] == a;
    assert forall k :: 0 <= k < |acts| ==> all[..k] == acts[..k] && all[k] == acts[k];
    if Revived(acts, n) {
      var k :| 0 <= k < |acts| && RevivedAt(After(acts[..k]), acts[k], n);
      assert RevivedAt(After(all[..k]), all[k], n);
    }
  }

  lemma AfterMore(acts: seq<Action>, a: Action)
    ensures After(acts + [a]) == Do(After(acts), a)
  {
    assert (acts + [a])[..|acts|] == acts;
  }

  lemma {:induction false} ExceptionsAre(acts: seq<Action>, n: nat)
    ensures n in After(acts).late <==> Late(acts, n)
    ensures n in After(acts).revived <==> Revived(acts, n)
  {
    if acts != [] {
      var before, a := acts[..|acts| - 1], acts[|acts| - 1];
      assert acts == before + [a];
      ExceptionsAre(before, n);
      LateMore(before, a, n);
      RevivedMore(before, a, n);
      AfterMore(before, a);
      DoExceptions(After(before), a, n);
      hide *;
    }
  }

  lemma DoExceptions(w: World, a: Action, n: nat)
    requires Inv(w)
    ensures n in Do(w, a).late <==> n in w.late || LateAt(w, a, n)
    ensures n in Do(w, a).revived <==> n in w.revived || RevivedAt(w, a, n)
  {
  }

  /** A live project without its source was registered too late, or its mark was overwritten. */
  lemma OrphansAreExceptions(acts: seq<Action>, n: nat)
    requires Orphan(After(acts), n)
    ensures Late(acts, n) || Revived(acts, n)
  {
    var w := After(acts);
    var q := w.projects[n].parent.value;
    assert Shut(w, q);
    assert Settled(w, n);
    ExceptionsAre(acts, n);
  }

  /** `m` is `n`, or `n` hangs under it; and `m` hangs under `root`. */
  predicate Between(ps: Projects, n: nat, m: nat, root: nat) {
    n in ps && m in ps && (m == n || Under(ps, n, m)) && Under(ps, m, root)
  }

  lemma {:induction false} ExcusedBy(ps: Projects, next: nat, n: nat, root: nat, exceptions: set<nat>) returns (m: nat)
    requires Ordered(ps, next) && n in ps && Under(ps, n, root) && Excused(ps, n, root, exceptions)
    ensures Between(ps, n, m, root) && m in exceptions
    decreases n
  {
    if n in exceptions { return n; }
    m := ExcusedBy(ps, next, ps[n].parent.value, root, exceptions);
  }

  /** No run has a live project depend on a cleaned namespace but through such a project. */
  lemma CleanedUnder(acts: seq<Action>, e: Cleaning, next: nat, n: nat) returns (m: nat)
    requires e in After(acts).cleaned && Ordered(e.registry, next)
    requires n in e.registry && Under(e.registry, n, e.id) && !e.registry[n].status.Deleting?
    ensures Between(e.registry, n, m, e.id) && (Late(acts, m) || Revived(acts, m))
  {
    var w := After(acts);
    assert FreeBut(e, w.late + w.revived);
    m := ExcusedBy(e.registry, next, n, e.id, w.late + w.revived);
    ExceptionsAre(acts, m);
  }

  /** Without such projects, live projects keep their sources and every namespace is cleaned free. */
  lemma QuietRunsAreSafe(acts: seq<Action>)
    requires forall n :: !Late(acts, n) && !Revived(acts, n)
    ensures LiveRooted(After(acts).projects) && AllFree(After(acts).cleaned)
  {
    var w := After(acts);
    forall n ensures !Orphan(w, n) && n !in w.late + w.revived {
      ExceptionsAre(acts, n);
      if Orphan(w, n) { OrphansAreExceptions(acts, n); }
    }
    assert forall n :: n in w.projects ==> !Orphan(w, n);
    forall e | e in w.cleaned ensures Free(e.registry, e.id) {
      assert FreeBut(e, w.late + w.revived);
      forall n | n in e.registry && Under(e.registry, n, e.id) ensures e.registry[n].status.Deleting? {
        if !e.registry[n].status.Deleting? { NeverExcused(e.registry, n, e.id, w.late + w.revived); }
      }
    }
  }

  lemma {:induction false} NeverExcused(ps: Projects, n: nat, root: nat, exceptions: set<nat>)
    requires n in ps && Under(ps, n, root) && forall m :: m !in exceptions
    ensures !Excused(ps, n, root, exceptions)
    decreases n
  {
    if ps[n].parent.value != root { NeverExcused(ps, ps[n].parent.value, root, exceptions); }
  }
}
