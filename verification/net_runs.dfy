/**
 Which devices are on the host after any run of allocations and releases, failures included, and
 after a restart.
 */
module NetRuns {

  import opened HostNets
  import opened NetClaims
  import opened NetLaws
  import opened NetStates
  import opened Wrappers

  datatype Op = Allocate(pid: nat, vm: VmId, net: VmNet) | FailAllocate(pid: nat, vm: VmId) | Refuse | Release(vm: VmId)

  ghost predicate Step(c: Config, s: Net, op: Op, s': Net)
    requires ValidConfig(c)
  {
    && StateOk(c, s.projects) && Named(s.projects)
    && match op
       case Allocate(pid, vm, net) => "vm-" <= vm && Unused(s.projects, pid, vm) && AllocStep(c, s, pid, vm, net, s')
       case FailAllocate(pid, vm) => "vm-" <= vm && Unused(s.projects, pid, vm) && UndoneStep(c, s, pid, vm, s')
       case Refuse => s' == s
       case Release(vm) => ReleaseStep(c, s, vm, s')
  }

  /** A run starts with no project, on a host with any devices and any history. */
  ghost predicate Run(c: Config, states: seq<Net>, ops: seq<Op>)
    requires ValidConfig(c)
  {
    && |states| == |ops| + 1
    && states[0].projects == map[]
    && forall k {:trigger ops[k]} :: 0 <= k < |ops| ==> Step(c, states[k], ops[k], states[k + 1])
  }

  /**
   What is on the host: what the state claims, what a deletion failed to take away, and what was
   found there and never named since; nothing else, and nothing of that is missing.
   */
  ghost predicate Accounted(found: set<Device>, s: Net, calls: seq<Call>) {
    forall d :: d in s.devices <==>
      d in Claimed(s.projects) || Stuck(calls, d) || (LastOn(calls, d).None? && d in found)
  }

  /** `more` sets up exactly the named devices that are claimed afterwards, and deletes the others. */
  ghost predicate Settles(s: Net, more: seq<Call>, s': Net) {
    forall d ::
      match LastOn(more, d)
      case None => d in Claimed(s'.projects) <==> d in Claimed(s.projects)
      case Some(Deleted(_, _)) => d !in Claimed(s'.projects)
      case Some(call) => call.there && d in Claimed(s'.projects)
  }

  lemma StepAccounted(found: set<Device>, s: Net, calls: seq<Call>, more: seq<Call>, s': Net)
    requires Accounted(found, s, calls) && Issued(s, more, s') && Settles(s, more, s')
    ensures Accounted(found, s', calls + more)
  {
    forall d ensures d in s'.devices <==>
      d in Claimed(s'.projects) || Stuck(calls + more, d) || (LastOn(calls + more, d).None? && d in found)
    {
      LastAppend(calls, more, d);
      ReplayLast(s.devices, more, d);
      LastIsInLog(more, d);
    }
  }

  /** The latest commands of the three lists an operation issues. */
  lemma MakeLast(plan: AllocPlan, d: Device)
    ensures var last := LastOn(MakeCalls(plan), d);
      if d == Tap(plan.vmNet.tap) || (plan.setup.Some? && d == Bridge(plan.setup.value.bridge))
      then last.Some? && !last.value.Deleted? && last.value.there
      else last.None?
  {
    var tap := [EnsuredTap(plan.vmNet.tap, plan.bridge, true, true)];
    assert LastOn([], d) == None;
    assert tap[..0] == [];
    if plan.setup.Some? {
      var bridge := [EnsuredBridge(plan.setup.value.bridge, true, true)];
      assert bridge[..0] == [];
      LastAppend(bridge, tap, d);
    } else {
      assert MakeCalls(plan) == tap;
    }
  }

  lemma DeleteLast(tap: string, setup: Option<Setup>, a: bool, b: bool, d: Device)
    ensures var last := LastOn(DeleteCalls(tap, setup, a, b), d);
      if d == Tap(tap) || (setup.Some? && d == Bridge(setup.value.bridge)) then last.Some? && last.value.Deleted?
      else last.None?
  {
    var first := [Deleted(Tap(tap), a)];
    assert LastOn([], d) == None;
    assert first[..0] == [];
    if setup.Some? {
      var second := [Deleted(Bridge(setup.value.bridge), b)];
      assert second[..0] == [];
      LastAppend(first, second, d);
    } else {
      assert DeleteCalls(tap, setup, a, b) == first;
    }
  }

  lemma StoppedLast(plan: AllocPlan, made: seq<Call>, d: Device)
    requires Stopped(plan, made)
    ensures LastOn(made, d).Some? ==>
      d == Tap(plan.vmNet.tap) || (plan.setup.Some? && d == Bridge(plan.setup.value.bridge))
  {
    LastIsInLog(made, d);
  }

  /** The devices a plan sets up, or a release deletes. */
  function DevicesNamed(tap: string, setup: Option<Setup>): set<Device> {
    {Tap(tap)} + if setup.Some? then {Bridge(setup.value.bridge)} else {}
  }

  lemma ClaimsGrow(c: Config, ps: Projects, pid: nat, vm: VmId, plan: AllocPlan, ps': Projects)
    requires ValidConfig(c) && StateOk(c, ps) && Named(ps) && "vm-" <= vm
    requires Allocates(c, ps, pid, vm, TapFor(vm), Ok(plan), ps')
    ensures Named(ps') && plan.vmNet.tap == TapFor(vm)
    ensures Claimed(ps') == Claimed(ps) + DevicesNamed(plan.vmNet.tap, plan.setup)
  {
    hide StateOk, Named, Allocates, Bridges, Taps, TapFor;
    AllocClaims(c, ps, pid, vm, plan, ps');
  }

  lemma AllocSettles(c: Config, s: Net, pid: nat, vm: VmId, plan: AllocPlan, s': Net)
    requires ValidConfig(c) && StateOk(c, s.projects) && Named(s.projects) && "vm-" <= vm && Unused(s.projects, pid, vm)
    requires Allocates(c, s.projects, pid, vm, TapFor(vm), Ok(plan), s'.projects)
    ensures Settles(s, MakeCalls(plan), s') && StateOk(c, s'.projects) && Named(s'.projects)
  {
    hide StateOk, Named, Unused, Allocates, Claimed, TapFor, MakeCalls, LastOn;
    AllocKeepsOk(c, s.projects, pid, vm, TapFor(vm), Ok(plan), s'.projects);
    ClaimsGrow(c, s.projects, pid, vm, plan, s'.projects);
    forall d { MakeLast(plan, d); }
  }

  /** The devices of an allocation to be undone were not claimed before it. */
  lemma NotYetClaimed(c: Config, ps: Projects, pid: nat, vm: VmId, plan: AllocPlan, mid: Projects)
    requires ValidConfig(c) && StateOk(c, ps) && Named(ps) && "vm-" <= vm && Unused(ps, pid, vm)
    requires Allocates(c, ps, pid, vm, TapFor(vm), Ok(plan), mid)
    ensures Tap(TapFor(vm)) !in Claimed(ps) && plan.vmNet.tap == TapFor(vm)
    ensures plan.setup.Some? ==> Bridge(plan.setup.value.bridge) !in Claimed(ps)
  {
    hide StateOk, Named, Unused, Allocates, Bridges, Taps, TapFor, RolledBack, Owns;
    AllocKeepsOk(c, ps, pid, vm, TapFor(vm), Ok(plan), mid);
    AllocClaims(c, ps, pid, vm, plan, mid);
    NewOwner(c, ps, pid, vm, plan, mid);
    RemoveClaims(c, mid, pid, vm);
    RollbackUndoesAlloc(c, ps, pid, vm, TapFor(vm), plan, mid);
  }

  lemma UndoneSettles(c: Config, s: Net, pid: nat, vm: VmId, plan: AllocPlan, mid: Projects, made: seq<Call>,
                      a: bool, b: bool, s': Net)
    requires ValidConfig(c) && StateOk(c, s.projects) && Named(s.projects) && "vm-" <= vm && Unused(s.projects, pid, vm)
    requires Allocates(c, s.projects, pid, vm, TapFor(vm), Ok(plan), mid)
    requires Stopped(plan, made) && s'.projects == s.projects
    ensures Settles(s, made + DeleteCalls(TapFor(vm), plan.setup, a, b), s')
  {
    NotYetClaimed(c, s.projects, pid, vm, plan, mid);
    hide *;
    var deleted := DeleteCalls(TapFor(vm), plan.setup, a, b);
    forall d ensures match LastOn(made + deleted, d)
                     case None => true
                     case Some(Deleted(_, _)) => d !in Claimed(s.projects)
                     case Some(_) => false
    {
      LastAppend(made, deleted, d);
      DeleteLast(TapFor(vm), plan.setup, a, b, d);
      StoppedLast(plan, made, d);
    }
    UnclaimedSettles(s, made + deleted, s');
  }

  lemma UnclaimedSettles(s: Net, more: seq<Call>, s': Net)
    requires s'.projects == s.projects
    requires forall d :: LastOn(more, d).Some? ==> LastOn(more, d).value.Deleted? && d !in Claimed(s.projects)
    ensures Settles(s, more, s')
  {
  }

  lemma ClaimsShrink(c: Config, ps: Projects, vm: VmId, plan: ReleasePlan, ps': Projects)
    requires ValidConfig(c) && StateOk(c, ps) && Named(ps) && Releases(c, ps, vm, Some(plan), ps')
    ensures Claimed(ps') == Claimed(ps) - DevicesNamed(plan.tap, plan.teardown)
  {
    hide *;
    ReleaseClaims(c, ps, vm, Some(plan), ps');
    ClaimedMinus(ps, ps', plan.tap, plan.teardown);
  }

  lemma ClaimedMinus(ps: Projects, ps': Projects, tap: string, setup: Option<Setup>)
    requires Taps(ps') == Taps(ps) - {tap}
    requires Bridges(ps') == if setup.Some? then Bridges(ps) - {setup.value.bridge} else Bridges(ps)
    ensures Claimed(ps') == Claimed(ps) - DevicesNamed(tap, setup)
  {
    hide Taps, Bridges;
  }

  lemma ReleaseSettles(c: Config, s: Net, vm: VmId, plan: Option<ReleasePlan>, a: bool, b: bool, s': Net)
    requires ValidConfig(c) && StateOk(c, s.projects) && Named(s.projects)
    requires Releases(c, s.projects, vm, plan, s'.projects)
    ensures Settles(s, ReleaseCalls(plan, a, b), s') && StateOk(c, s'.projects) && Named(s'.projects)
  {
    hide StateOk, Named, Releases, Claimed, TapFor, DeleteCalls;
    ReleaseClaims(c, s.projects, vm, plan, s'.projects);
    if plan.Some? {
      hide LastOn;
      ClaimsShrink(c, s.projects, vm, plan.value, s'.projects);
      forall d { DeleteLast(plan.value.tap, plan.value.teardown, a, b, d); }
    }
  }

  /** Each operation issues what it takes to settle the claims it changes, and keeps the state sound. */
  lemma StepSettles(c: Config, s: Net, op: Op, s': Net) returns (more: seq<Call>)
    requires ValidConfig(c) && Step(c, s, op, s')
    ensures Issued(s, more, s') && Settles(s, more, s') && StateOk(c, s'.projects) && Named(s'.projects)
  {
    hide StateOk, Named, Unused, Allocates, Releases, Settles, Stopped, TapFor;
    hide Replay, Plausible, DeleteCalls, MakeCalls;
    match op {
      case Allocate(pid, vm, net) =>
        var plan: AllocPlan :|
          plan.vmNet == net && Allocates(c, s.projects, pid, vm, TapFor(vm), Ok(plan), s'.projects)
          && Issued(s, MakeCalls(plan), s');
        AllocSettles(c, s, pid, vm, plan, s');
        more := MakeCalls(plan);
      case FailAllocate(pid, vm) =>
        var plan, mid, made, a, b :|
          Allocates(c, s.projects, pid, vm, TapFor(vm), Ok(plan), mid) && Stopped(plan, made)
          && Issued(s, made + DeleteCalls(TapFor(vm), plan.setup, a, b), s');
        UndoneSettles(c, s, pid, vm, plan, mid, made, a, b, s');
        more := made + DeleteCalls(TapFor(vm), plan.setup, a, b);
      case Refuse =>
        more := [];
        NoCalls(s);
      case Release(vm) =>
        var plan, a, b :| Releases(c, s.projects, vm, plan, s'.projects) && Issued(s, ReleaseCalls(plan, a, b), s');
        ReleaseSettles(c, s, vm, plan, a, b, s');
        more := ReleaseCalls(plan, a, b);
    }
  }

  lemma NoCalls(s: Net)
    ensures Issued(s, [], s) && Settles(s, [], s)
  {
  }

  /** The run theorem: at every step the devices are accounted for by the commands of the run. */
  lemma {:induction false} RunAccounted(c: Config, states: seq<Net>, ops: seq<Op>, k: nat) returns (calls: seq<Call>)
    requires ValidConfig(c) && Run(c, states, ops) && k < |states|
    ensures states[k].log == states[0].log + calls
    ensures Accounted(states[0].devices, states[k], calls)
    ensures StateOk(c, states[k].projects) && Named(states[k].projects)
  {
    if k == 0 {
      calls := [];
      RunStart(c, states, ops);
    } else {
      assert Step(c, states[k - 1], ops[k - 1], states[k]);
      hide *;
      var before := RunAccounted(c, states, ops, k - 1);
      var more := StepSettles(c, states[k - 1], ops[k - 1], states[k]);
      calls := before + more;
      Chained(states[0].devices, states[0].log, states[k - 1], before, more, states[k]);
    }
  }

  lemma RunStart(c: Config, states: seq<Net>, ops: seq<Op>)
    requires ValidConfig(c) && Run(c, states, ops)
    ensures states[0].log == states[0].log + [] && Accounted(states[0].devices, states[0], [])
    ensures StateOk(c, states[0].projects) && Named(states[0].projects)
  {
    assert Claimed(map[]) == {};
  }

  lemma Chained(found: set<Device>, log: seq<Call>, s: Net, calls: seq<Call>, more: seq<Call>, s': Net)
    requires s.log == log + calls && Accounted(found, s, calls) && Issued(s, more, s') && Settles(s, more, s')
    ensures s'.log == log + (calls + more) && Accounted(found, s', calls + more)
  {
    hide Accounted, Settles, Replay, Plausible;
    StepAccounted(found, s, calls, more, s');
    assert log + calls + more == log + (calls + more);
  }

  /**
   On a host that had none of them, if every deletion succeeded, the bridges and TAPs on the host are
   exactly those the state claims.
   */
  lemma DevicesAreClaimed(c: Config, states: seq<Net>, ops: seq<Op>, k: nat)
    requires ValidConfig(c) && Run(c, states, ops) && k < |states|
    requires states[0].devices == {} && states[0].log == [] && AllDeleted(states[k].log)
    ensures states[k].devices == Claimed(states[k].projects)
  {
    var calls := RunAccounted(c, states, ops, k);
    assert calls == states[k].log;
    hide Run, StateOk, Named, Claimed, LastOn;
    forall d ensures d in states[k].devices <==> d in Claimed(states[k].projects) {
      LastIsInLog(calls, d);
    }
  }

  /** With failed deletions, what is on the host besides the claims is exactly what they left. */
  lemma LeftoversAreStuck(c: Config, states: seq<Net>, ops: seq<Op>, k: nat, d: Device)
    requires ValidConfig(c) && Run(c, states, ops) && k < |states|
    requires states[0].devices == {} && states[0].log == []
    ensures d in states[k].devices <==> d in Claimed(states[k].projects) || Stuck(states[k].log, d)
  {
    var calls := RunAccounted(c, states, ops, k);
    assert calls == states[k].log;
  }

  /**
   A restart: afterwards a bridge, or a TAP the loaded state claims, is there only if its last deletion
   failed; a TAP it does not claim is there if it was before.
   */
  lemma ReconcileLeaves(s: Net, s': Net, d: Device)
    requires ReconcileStep(s, s')
    ensures s.log <= s'.log
    ensures d in s'.devices <==>
            d in s.devices && (d.Bridge? || d in Claimed(s.projects) ==> Stuck(s'.log[|s.log|..], d))
  {
    var calls :| Issued(s, calls, s') && DeletesAll(calls, Claimed(s.projects) + BridgesAmong(s.devices));
    assert s'.log[|s.log|..] == calls;
    DeletionsShrink(s.devices, calls);
    ReplayLast(s.devices, calls, d);
    LastIsInLog(calls, d);
  }
}
