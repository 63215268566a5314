/**
 The network manager (hostd/src/net/manager.rs): the allocator's state, the host's devices and the
 persisted copy of the state, kept together. Commands on the host and writes of the state file
 may fail at any time.
 */
module NetManagers {

  import opened Cidr
  import opened HostNets
  import opened NetClaims
  import opened NetLaws
  import opened NetStates
  import opened Wrappers

  datatype NetError = Refused(why: AllocError) | HostFailed | NotPersisted

  datatype Outcome = Allocated(net: VmNet) | Failed(error: NetError)

  /** How a reconciliation ended. */
  datatype Reconciled = Done | NotListed | NotWritten

  class NetworkManager {

    const config: Config
    const state: NetState
    const host: HostNet
    /** `network_state.json`. */
    var disk: Projects
    /** How many writes of it have failed, and how many listings of the host's bridges. */
    ghost var failedWrites: nat
    ghost var failedListings: nat

    ghost predicate Valid()
      reads this, state
    {
      ValidConfig(config) && StateOk(config, state.projects) && Named(state.projects)
    }

    ghost function View(): Net
      reads this, state, host
    {
      Net(state.projects, host.devices, host.log)
    }

    /** `new` takes whatever the state file holds. */
    constructor (config: Config, host: HostNet, disk: Projects)
      requires ValidConfig(config)
      ensures fresh(state) && this.host == host && this.config == config
      ensures state.projects == disk && this.disk == disk
    {
      this.config, this.host, this.disk := config, host, disk;
      failedWrites, failedListings := 0, 0;
      this.state := new NetState();
      new;
      state.projects := disk;
    }

    method Persist() returns (ok: bool)
      modifies this`disk, this`failedWrites
      ensures disk == if ok then state.projects else old(disk)
      ensures failedWrites == old(failedWrites) + if ok then 0 else 1
    {
      ok := *;
      if ok {
        disk := state.projects;
      } else {
        failedWrites := failedWrites + 1;
      }
    }

    /**
     `allocate`: a refusal issues nothing and changes nothing; a host failure deletes the devices and
     undoes the reservation; a failed write of the state file keeps the allocation.
     */
    method Allocate(pid: nat, vm: VmId) returns (r: Outcome)
      requires Valid() && "vm-" <= vm && Unused(state.projects, pid, vm)
      modifies this, state, host
      ensures Valid()
      ensures match r
        case Failed(Refused(why)) =>
          View() == old(View()) && disk == old(disk)
          && Allocates(config, old(state.projects), pid, vm, TapFor(vm), Err(why), state.projects)
        case Failed(HostFailed) => UndoneStep(config, old(View()), pid, vm, View()) && disk == old(disk)
        case Failed(NotPersisted) =>
          (exists net :: AllocStep(config, old(View()), pid, vm, net, View())) && disk == old(disk)
        case Allocated(net) => AllocStep(config, old(View()), pid, vm, net, View()) && disk == state.projects
      ensures failedWrites >= old(failedWrites)
      ensures r == Failed(NotPersisted) <==> failedWrites > old(failedWrites)
    {
      hide StateOk, Named, Unused, Allocates, Taps, TapFor, Stopped;
      hide AllocStep, UndoneStep, Replay, Plausible, DeleteCalls;
      ghost var s := View();
      var res := state.Alloc(config, pid, vm, TapFor(vm));
      AllocKeepsOk(config, s.projects, pid, vm, TapFor(vm), res, state.projects);
      if res.Err? {
        RefusedUnchanged(config, s.projects, pid, vm, res, state.projects);
        return Failed(Refused(res.error));
      }
      var plan := res.value;
      AllocClaims(config, s.projects, pid, vm, plan, state.projects);
      ghost var mid := state.projects;
      var applied, made := Apply(plan);
      if !applied {
        var a, b := DeleteDevices(plan.vmNet.tap, plan.setup);
        state.RollbackAlloc(pid, vm);
        Undone(config, s, pid, vm, plan, mid, made, a, b, View());
        return Failed(HostFailed);
      }
      ghost var s' := View();
      Made(config, s, pid, vm, plan, s');
      var ok := Persist();
      assert View() == s';
      r := if ok then Allocated(plan.vmNet) else Failed(NotPersisted);
    }

    /** `apply_alloc`. */
    method Apply(plan: AllocPlan) returns (ok: bool, ghost calls: seq<Call>)
      modifies host
      ensures host.log == old(host.log) + calls
      ensures host.devices == Replay(old(host.devices), calls) && Plausible(old(host.devices), calls)
      ensures if ok then calls == MakeCalls(plan) else Stopped(plan, calls)
    {
      calls := [];
      if plan.setup.Some? {
        ok := host.EnsureBridge(plan.setup.value.bridge);
        ghost var call := host.log[|host.log| - 1];
        ReplayOne(old(host.devices), [], call);
        calls := [] + [call];
        if !ok {
          return;
        }
      }
      ok := host.EnsureTap(plan.vmNet.tap, plan.bridge);
      ghost var call := host.log[|host.log| - 1];
      ReplayOne(old(host.devices), calls, call);
      calls := calls + [call];
    }

    /** The deletions after a failed allocation, and those of a release. */
    method DeleteDevices(tap: string, setup: Option<Setup>) returns (a: bool, b: bool)
      modifies host
      ensures host.log == old(host.log) + DeleteCalls(tap, setup, a, b)
      ensures host.devices == Replay(old(host.devices), DeleteCalls(tap, setup, a, b))
      ensures Plausible(old(host.devices), DeleteCalls(tap, setup, a, b))
    {
      a := host.Delete(Tap(tap));
      b := true;
      ReplayOne(old(host.devices), [], Deleted(Tap(tap), a));
      assert [] + [Deleted(Tap(tap), a)] == [Deleted(Tap(tap), a)];
      if setup.Some? {
        b := host.Delete(Bridge(setup.value.bridge));
        ReplayOne(old(host.devices), [Deleted(Tap(tap), a)], Deleted(Bridge(setup.value.bridge), b));
      }
    }

    /**
     `release`: an unknown VM changes nothing; otherwise the VM leaves the state whatever the host
     does, its TAP is deleted, and with the project's last VM its bridge.
     */
    method Release(vm: VmId) returns (ok: bool)
      requires Valid()
      modifies this, state, host
      ensures Valid() && ReleaseStep(config, old(View()), vm, View())
      ensures ok ==> disk == state.projects || (disk == old(disk) && View() == old(View()))
      ensures !ok ==> disk == old(disk)
      ensures failedWrites >= old(failedWrites) && (!ok <==> failedWrites > old(failedWrites))
    {
      hide StateOk, Named, Bridges, Taps, TapFor, Releases;
      ghost var s := View();
      var plan := state.Release(config, vm);
      ReleaseClaims(config, s.projects, vm, plan, state.projects);
      if plan.None? {
        assert Issued(s, ReleaseCalls(plan, true, true), View());
        return true;
      }
      var a, b := DeleteDevices(plan.value.tap, plan.value.teardown);
      assert Issued(s, ReleaseCalls(plan, a, b), View());
      ok := Persist();
    }

    /**
     `reconcile_on_startup`, on whatever state was loaded: the devices it claims are deleted, and the
     bridges found on the host; if they cannot be listed, the state stays.
     */
    method ReconcileOnStartup() returns (r: Reconciled)
      requires ValidConfig(config)
      modifies this, state, host
      ensures !r.NotListed? ==> Valid() && ReconcileStep(old(View()), View())
      ensures r.NotListed? ==> state.projects == old(state.projects)
      ensures r.NotListed? ==>
        exists calls :: Issued(old(View()), calls, View()) && DeletesAll(calls, Claimed(state.projects))
      ensures disk == if r.Done? then map[] else old(disk)
      ensures failedListings >= old(failedListings) && (r.NotListed? <==> failedListings > old(failedListings))
      ensures failedWrites >= old(failedWrites) && (r.NotWritten? <==> failedWrites > old(failedWrites))
    {
      ghost var s := View();
      ghost var first := DeleteClaimed();
      ghost var mid := View();
      assert Issued(s, first, mid);
      var listed: bool := *;
      if !listed {
        failedListings := failedListings + 1;
        return NotListed;
      }
      ghost var second := DeleteStray();
      state.projects := map[];
      assert Issued(mid.(projects := map[]), second, View());
      Reconciles(s, first, mid, second, View());
      var ok := Persist();
      r := if ok then Done else NotWritten;
    }

    method DeleteStray() returns (ghost calls: seq<Call>)
      modifies host
      ensures host.log == old(host.log) + calls
      ensures host.devices == Replay(old(host.devices), calls) && Plausible(old(host.devices), calls)
      ensures DeletesAll(calls, BridgesAmong(old(host.devices)))
    {
      calls := [];
      var todo := BridgesAmong(host.devices);
      while todo != {}
        invariant todo <= BridgesAmong(old(host.devices))
        invariant host.log == old(host.log) + calls
        invariant host.devices == Replay(old(host.devices), calls) && Plausible(old(host.devices), calls)
        invariant DeletesAll(calls, BridgesAmong(old(host.devices)) - todo)
        decreases |todo|
      {
        var d :| d in todo;
        var ok := host.Delete(d);
        ReplayOne(old(host.devices), calls, Deleted(d, ok));
        calls := calls + [Deleted(d, ok)];
        todo := todo - {d};
      }
    }

    /** Delete every device the state claims, project by project. */
    method DeleteClaimed() returns (ghost calls: seq<Call>)
      modifies host
      ensures host.log == old(host.log) + calls
      ensures host.devices == Replay(old(host.devices), calls) && Plausible(old(host.devices), calls)
      ensures DeletesAll(calls, Claimed(state.projects))
    {
      hide DeletesAll, Claimed, DevicesOf, Replay, Plausible;
      calls := [];
      NothingDeleted(state.projects);
      var todo := state.projects.Keys;
      while todo != {}
        invariant todo <= state.projects.Keys
        invariant host.log == old(host.log) + calls
        invariant host.devices == Replay(old(host.devices), calls) && Plausible(old(host.devices), calls)
        invariant DeletesAll(calls, Claimed(state.projects - todo))
        decreases |todo|
      {
        var p :| p in todo;
        ghost var more := DeleteProject(p);
        ReplayAppend(old(host.devices), calls, more);
        DeletesBoth(calls, Claimed(state.projects - todo), more, DevicesOf(state.projects[p]));
        ClaimedWith(state.projects, todo, p);
        calls := calls + more;
        todo := todo - {p};
      }
      assert state.projects - {} == state.projects;
    }

    /** One project's TAPs, and then its bridge. */
    method DeleteProject(p: nat) returns (ghost calls: seq<Call>)
      requires p in state.projects
      modifies host
      ensures host.log == old(host.log) + calls
      ensures host.devices == Replay(old(host.devices), calls) && Plausible(old(host.devices), calls)
      ensures DeletesAll(calls, DevicesOf(state.projects[p]))
    {
      hide DeletesAll;
      var project := state.projects[p];
      calls := DeleteTapsOf(p);
      var ok := host.Delete(Bridge(project.bridge));
      ReplayOne(old(host.devices), calls, Deleted(Bridge(project.bridge), ok));
      DeletesOne(Bridge(project.bridge), ok);
      ghost var last := [Deleted(Bridge(project.bridge), ok)];
      DeletesBoth(calls, TapsOf(project.vms, project.vms.Keys), last, {Bridge(project.bridge)});
      calls := calls + last;
    }

    method DeleteTapsOf(p: nat) returns (ghost calls: seq<Call>)
      requires p in state.projects
      modifies host
      ensures host.log == old(host.log) + calls
      ensures host.devices == Replay(old(host.devices), calls) && Plausible(old(host.devices), calls)
      ensures DeletesAll(calls, TapsOf(state.projects[p].vms, state.projects[p].vms.Keys))
    {
      calls := [];
      var vms := state.projects[p].vms;
      var todo := vms.Keys;
      while todo != {}
        invariant todo <= vms.Keys
        invariant host.log == old(host.log) + calls
        invariant host.devices == Replay(old(host.devices), calls) && Plausible(old(host.devices), calls)
        invariant DeletesAll(calls, TapsOf(vms, vms.Keys - todo))
        decreases |todo|
      {
        var ip :| ip in todo;
        var ok := host.Delete(Tap(TapFor(vms[ip])));
        ReplayOne(old(host.devices), calls, Deleted(Tap(TapFor(vms[ip])), ok));
        calls := calls + [Deleted(Tap(TapFor(vms[ip])), ok)];
        todo := todo - {ip};
      }
      assert vms.Keys - {} == vms.Keys;
    }
  }

  lemma Made(c: Config, s: Net, pid: nat, vm: VmId, plan: AllocPlan, s': Net)
    requires ValidConfig(c) && StateOk(c, s.projects)
    requires Allocates(c, s.projects, pid, vm, TapFor(vm), Ok(plan), s'.projects)
    requires s'.log == s.log + MakeCalls(plan)
    requires s'.devices == Replay(s.devices, MakeCalls(plan)) && Plausible(s.devices, MakeCalls(plan))
    ensures AllocStep(c, s, pid, vm, plan.vmNet, s')
  {
    hide StateOk, Allocates, MakeCalls, TapFor;
  }

  lemma Undone(c: Config, s: Net, pid: nat, vm: VmId, plan: AllocPlan, mid: Projects, made: seq<Call>,
               a: bool, b: bool, s': Net)
    requires ValidConfig(c) && StateOk(c, s.projects) && Unused(s.projects, pid, vm)
    requires Allocates(c, s.projects, pid, vm, TapFor(vm), Ok(plan), mid) && Stopped(plan, made)
    requires s'.projects == RolledBack(mid, pid, vm)
    requires s'.log == s.log + made + DeleteCalls(TapFor(vm), plan.setup, a, b)
    requires Plausible(s.devices, made)
    requires Plausible(Replay(s.devices, made), DeleteCalls(TapFor(vm), plan.setup, a, b))
    requires s'.devices == Replay(Replay(s.devices, made), DeleteCalls(TapFor(vm), plan.setup, a, b))
    ensures UndoneStep(c, s, pid, vm, s') && s'.projects == s.projects
  {
    hide StateOk, Allocates, Unused, TapFor, Stopped, DeleteCalls, Replay, Plausible, RolledBack;
    RollbackUndoesAlloc(c, s.projects, pid, vm, TapFor(vm), plan, mid);
    var deleted := DeleteCalls(TapFor(vm), plan.setup, a, b);
    ReplayAppend(s.devices, made, deleted);
    assert s.log + made + deleted == s.log + (made + deleted);
    assert Issued(s, made + deleted, s');
  }

  ghost function TapsOf(vms: map<u32, VmId>, ips: set<u32>): set<Device> {
    set ip | ip in ips && ip in vms :: Tap(TapFor(vms[ip]))
  }

  lemma DeletesBoth(a: seq<Call>, da: set<Device>, b: seq<Call>, db: set<Device>)
    requires DeletesAll(a, da) && DeletesAll(b, db)
    ensures DeletesAll(a + b, da + db)
  {
    forall d { LastAppend(a, b, d); }
  }

  lemma DeletesOne(d: Device, ok: bool)
    ensures DeletesAll([Deleted(d, ok)], {d})
  {
  }

  ghost function DevicesOf(p: Project): set<Device> {
    TapsOf(p.vms, p.vms.Keys) + {Bridge(p.bridge)}
  }

  lemma NothingDeleted(ps: Projects)
    ensures DeletesAll([], Claimed(ps - ps.Keys))
    ensures forall devices :: Replay(devices, []) == devices && Plausible(devices, [])
  {
    assert ps - ps.Keys == map[];
  }

  lemma ClaimedWith(ps: Projects, todo: set<nat>, p: nat)
    requires p in todo && p in ps
    ensures Claimed(ps - (todo - {p})) == Claimed(ps - todo) + DevicesOf(ps[p])
  {
    hide TapFor;
    var a, b := ps - todo, ps - (todo - {p});
    assert forall q :: q in b <==> q in a || q == p;
    assert Bridges(b) == Bridges(a) + {ps[p].bridge};
    assert forall t :: t in Taps(b) <==> t in Taps(a) || Tap(t) in TapsOf(ps[p].vms, ps[p].vms.Keys);
  }

  /** First the claimed devices, then the bridges still on the host. */
  lemma Reconciles(s: Net, first: seq<Call>, mid: Net, second: seq<Call>, s': Net)
    requires Issued(s, first, mid) && DeletesAll(first, Claimed(s.projects))
    requires Issued(mid.(projects := map[]), second, s') && DeletesAll(second, BridgesAmong(mid.devices))
    requires s'.projects == map[]
    ensures ReconcileStep(s, s')
  {
    ReplayAppend(s.devices, first, second);
    assert s.log + first + second == s.log + (first + second);
    assert Issued(s, first + second, s');
    DeletesBoth(first, Claimed(s.projects), second, BridgesAmong(mid.devices));
    DeletionsShrink(s.devices, first);
    forall d ensures d in s.devices && d !in Claimed(s.projects) ==> d in mid.devices {
      ReplayLast(s.devices, first, d);
      LastIsInLog(first, d);
    }
    var all, now := Claimed(s.projects) + BridgesAmong(s.devices), Claimed(s.projects) + BridgesAmong(mid.devices);
    assert all == now;
  }
}
