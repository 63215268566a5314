/**
 What the network manager (hostd/src/net/manager.rs) does to the allocator's state and to the host,
 as relations between the two before and after: which commands it issues, and in which order.
 */
module NetClaims {

  import opened Cidr
  import opened HostNets
  import opened NetLaws
  import opened NetStates
  import opened Wrappers

  // ----- the devices a state claims -----

  ghost function Bridges(ps: Projects): set<string> {
    set p | p in ps :: ps[p].bridge
  }

  ghost function Taps(ps: Projects): set<string> {
    set p, ip | p in ps && ip in ps[p].vms :: TapFor(ps[p].vms[ip])
  }

  /** VM ids as hostd makes them. */
  ghost predicate Named(ps: Projects) {
    forall p, ip :: p in ps && ip in ps[p].vms ==> "vm-" <= ps[p].vms[ip]
  }

  lemma TapInjective(v: VmId, w: VmId)
    requires "vm-" <= v && "vm-" <= w && TapFor(v) == TapFor(w)
    ensures v == w
  {
    assert v == "vm-" + TapFor(v)[4..];
    assert w == "vm-" + TapFor(w)[4..];
  }

  /** Adding one VM to a project, new or not, claims its TAP and the project's bridge. */
  lemma AddClaims(ps: Projects, pid: nat, p: Project, ip: u32, vm: VmId)
    requires ip !in p.vms && (if pid in ps then ps[pid] == p else p.vms == map[])
    ensures var ps' := ps[pid := p.(vms := p.vms[ip := vm])];
      && Taps(ps') == Taps(ps) + {TapFor(vm)}
      && Bridges(ps') == Bridges(ps) + {p.bridge}
      && (Named(ps) && "vm-" <= vm ==> Named(ps'))
  {
    hide TapFor;
    var ps' := ps[pid := p.(vms := p.vms[ip := vm])];
    assert ps'[pid].vms[ip] == vm;
    assert forall q, jp :: q in ps && jp in ps[q].vms ==>
      q in ps' && jp in ps'[q].vms && ps'[q].vms[jp] == ps[q].vms[jp];
    assert forall q, jp :: q in ps' && jp in ps'[q].vms ==>
      (q == pid && jp == ip) || (q in ps && jp in ps[q].vms && ps'[q].vms[jp] == ps[q].vms[jp]);
    assert forall q :: q in ps ==> ps'[q].bridge == ps[q].bridge;
  }

  lemma AllocClaims(c: Config, ps: Projects, pid: nat, vm: VmId, plan: AllocPlan, ps': Projects)
    requires ValidConfig(c) && StateOk(c, ps) && Allocates(c, ps, pid, vm, TapFor(vm), Ok(plan), ps')
    requires Named(ps) && "vm-" <= vm
    ensures Named(ps')
    ensures Taps(ps') == Taps(ps) + {TapFor(vm)}
    ensures Bridges(ps') == Bridges(ps) + {plan.bridge}
    ensures plan.vmNet.tap == TapFor(vm)
    ensures plan.setup.Some? <==> pid !in ps
    ensures plan.setup.Some? ==> plan.setup.value.bridge == plan.bridge
    ensures plan.setup.None? ==> plan.bridge in Bridges(ps)
  {
    hide TapFor, Taps, Named, Owns, StateOk, SubnetOf, BridgeName;
    if pid in ps {
      AddClaims(ps, pid, ps[pid], plan.vmNet.guestIp, vm);
    } else {
      var p := ps'[pid].(vms := map[]);
      AddClaims(ps, pid, p, plan.vmNet.guestIp, vm);
      assert ps' == ps[pid := p.(vms := p.vms[plan.vmNet.guestIp := vm])];
    }
  }

  lemma BridgesDiffer(c: Config, ps: Projects, p: nat, q: nat)
    requires ValidConfig(c) && StateOk(c, ps) && p in ps && q in ps && p != q
    ensures ps[p].bridge != ps[q].bridge
  {
    hide Owns, SubnetOf;
    if ps[p].bridge == ps[q].bridge {
      NumberedInjective(BRIDGE_PREFIX, p, q);
    }
  }

  predicate Has(ps: Projects, p: nat, ip: u32, vm: VmId) {
    p in ps && ip in ps[p].vms && ps[p].vms[ip] == vm
  }

  lemma RolledBackHas(ps: Projects, pid: nat, vm: VmId, q: nat, ip: u32, w: VmId)
    ensures Has(RolledBack(ps, pid, vm), q, ip, w) <==> Has(ps, q, ip, w) && (q != pid || w != vm)
  {
    if pid in ps {
      assert ip in WithoutVm(ps[pid].vms, vm) <==> ip in ps[pid].vms && ps[pid].vms[ip] != vm;
    }
  }

  lemma TapClaimed(ps: Projects, t: string)
    ensures t in Taps(ps) <==> exists p, ip, vm :: Has(ps, p, ip, vm) && TapFor(vm) == t
  {
    hide TapFor;
    if t in Taps(ps) {
      var p, ip :| p in ps && ip in ps[p].vms && TapFor(ps[p].vms[ip]) == t;
      assert Has(ps, p, ip, ps[p].vms[ip]);
    }
  }

  /** In a sound state with proper names, a VM has one project, and a TAP one VM. */
  lemma TapOwner(c: Config, ps: Projects, pid: nat, vm: VmId, q: nat, ip: u32, w: VmId)
    requires ValidConfig(c) && StateOk(c, ps) && Named(ps) && pid in ps && Owns(ps[pid].vms, vm) && Has(ps, q, ip, w)
    ensures w == vm ==> q == pid
    ensures TapFor(w) == TapFor(vm) <==> w == vm
  {
    assert Owns(ps[q].vms, w);
    assert "vm-" <= w && "vm-" <= vm;
    hide Owns, TapFor, Named;
    if TapFor(w) == TapFor(vm) { TapInjective(w, vm); }
  }

  lemma RemoveTaps(c: Config, ps: Projects, pid: nat, vm: VmId)
    requires ValidConfig(c) && StateOk(c, ps) && Named(ps) && pid in ps && Owns(ps[pid].vms, vm)
    ensures Named(RolledBack(ps, pid, vm))
    ensures Taps(RolledBack(ps, pid, vm)) == Taps(ps) - {TapFor(vm)}
  {
    var ps' := RolledBack(ps, pid, vm);
    forall q, ip | q in ps' && ip in ps'[q].vms ensures "vm-" <= ps'[q].vms[ip] {
      RolledBackHas(ps, pid, vm, q, ip, ps'[q].vms[ip]);
    }
    hide StateOk, Owns, TapFor, Taps, Has, RolledBack, Named;
    forall t ensures t in Taps(ps') <==> t in Taps(ps) && t != TapFor(vm) {
      TapClaimed(ps, t);
      TapClaimed(ps', t);
      forall q, ip, w | Has(ps, q, ip, w) || Has(ps', q, ip, w)
        ensures Has(ps', q, ip, w) <==> Has(ps, q, ip, w) && TapFor(w) != TapFor(vm)
      {
        RolledBackHas(ps, pid, vm, q, ip, w);
        TapOwner(c, ps, pid, vm, q, ip, w);
      }
    }
  }

  lemma RemoveBridges(ps: Projects, pid: nat, vm: VmId)
    requires pid in ps && forall q :: q in ps && q != pid ==> ps[q].bridge != ps[pid].bridge
    ensures var ps' := RolledBack(ps, pid, vm);
      Bridges(ps') == if pid in ps' then Bridges(ps) else Bridges(ps) - {ps[pid].bridge}
  {
    hide WithoutVm;
    var ps' := RolledBack(ps, pid, vm);
    assert forall q :: q in ps' ==> q in ps && ps'[q].bridge == ps[q].bridge;
    assert forall q :: q in ps && (q != pid || pid in ps') ==> q in ps';
  }

  /** Taking a VM away unclaims its TAP, and the bridge when the project goes. */
  lemma RemoveClaims(c: Config, ps: Projects, pid: nat, vm: VmId)
    requires ValidConfig(c) && StateOk(c, ps) && Named(ps) && pid in ps && Owns(ps[pid].vms, vm)
    ensures var ps' := RolledBack(ps, pid, vm);
      && Named(ps') && Taps(ps') == Taps(ps) - {TapFor(vm)}
      && Bridges(ps') == if pid in ps' then Bridges(ps) else Bridges(ps) - {ps[pid].bridge}
  {
    hide StateOk, Owns, TapFor, Taps, Bridges, RolledBack, Named;
    forall q | q in ps && q != pid ensures ps[q].bridge != ps[pid].bridge {
      BridgesDiffer(c, ps, pid, q);
    }
    RemoveTaps(c, ps, pid, vm);
    RemoveBridges(ps, pid, vm);
  }

  /** What a release gives up is what it deletes on the host. */
  lemma ReleaseClaims(c: Config, ps: Projects, vm: VmId, r: Option<ReleasePlan>, ps': Projects)
    requires ValidConfig(c) && StateOk(c, ps) && Named(ps) && Releases(c, ps, vm, r, ps')
    ensures StateOk(c, ps') && Named(ps')
    ensures r.None? ==> ps' == ps
    ensures r.Some? ==> r.value.tap == TapFor(vm) && Taps(ps') == Taps(ps) - {TapFor(vm)}
    ensures r.Some? ==>
      Bridges(ps') == if r.value.teardown.Some? then Bridges(ps) - {r.value.teardown.value.bridge} else Bridges(ps)
  {
    if r.Some? {
      var pid :| ReleasesFrom(c, ps, pid, vm, r.value, ps');
      hide StateOk, Named, Bridges, Taps, TapFor, Owns, RolledBack;
      RemoveClaims(c, ps, pid, vm);
      RollbackKeepsOk(c, ps, pid, vm);
    }
  }

  lemma RefusedUnchanged(c: Config, ps: Projects, pid: nat, vm: VmId, r: Result<AllocPlan>, ps': Projects)
    requires ValidConfig(c) && StateOk(c, ps) && Allocates(c, ps, pid, vm, TapFor(vm), r, ps') && r.Err?
    ensures ps' == ps
  {
  }

  lemma NewOwner(c: Config, ps: Projects, pid: nat, vm: VmId, plan: AllocPlan, ps': Projects)
    requires ValidConfig(c) && StateOk(c, ps) && Allocates(c, ps, pid, vm, TapFor(vm), Ok(plan), ps')
    ensures pid in ps' && Owns(ps'[pid].vms, vm) && (plan.setup.Some? ==> ps'[pid].bridge == plan.bridge)
  {
    hide StateOk;
    assert ps'[pid].vms[plan.vmNet.guestIp] == vm;
  }

  /** The devices a state claims. */
  ghost function Claimed(ps: Projects): set<Device> {
    (set b | b in Bridges(ps) :: Bridge(b)) + (set t | t in Taps(ps) :: Tap(t))
  }

  function BridgesAmong(devices: set<Device>): set<Device> {
    set d | d in devices && d.Bridge?
  }

  // ----- the manager's operations -----

  /** The allocator's state, the devices on the host, and every command so far. */
  datatype Net = Net(projects: Projects, devices: set<Device>, log: seq<Call>)

  /** `calls` were issued, and the host went along with them. */
  predicate Issued(s: Net, calls: seq<Call>, s': Net) {
    s'.log == s.log + calls && s'.devices == Replay(s.devices, calls) && Plausible(s.devices, calls)
  }

  /** The project's bridge if this is its first VM, then the VM's TAP on it. */
  function MakeCalls(plan: AllocPlan): seq<Call> {
    (if plan.setup.Some? then [EnsuredBridge(plan.setup.value.bridge, true, true)] else [])
    + [EnsuredTap(plan.vmNet.tap, plan.bridge, true, true)]
  }

  /** The same, stopped at the command that failed. */
  predicate Stopped(plan: AllocPlan, calls: seq<Call>) {
    || (plan.setup.Some? && exists there :: calls == [EnsuredBridge(plan.setup.value.bridge, false, there)])
    || (exists there :: calls == MakeCalls(plan)[..|MakeCalls(plan)| - 1]
                                 + [EnsuredTap(plan.vmNet.tap, plan.bridge, false, there)])
  }

  /** The TAP, then the bridge if it was to be set up, or torn down; `a` and `b` are the outcomes. */
  function DeleteCalls(tap: string, setup: Option<Setup>, a: bool, b: bool): seq<Call> {
    [Deleted(Tap(tap), a)] + if setup.Some? then [Deleted(Bridge(setup.value.bridge), b)] else []
  }

  function ReleaseCalls(plan: Option<ReleasePlan>, a: bool, b: bool): seq<Call> {
    if plan.None? then [] else DeleteCalls(plan.value.tap, plan.value.teardown, a, b)
  }

  /** An allocation that went through on the host. */
  ghost predicate AllocStep(c: Config, s: Net, pid: nat, vm: VmId, net: VmNet, s': Net)
    requires ValidConfig(c) && StateOk(c, s.projects)
  {
    exists plan: AllocPlan ::
      && plan.vmNet == net
      && Allocates(c, s.projects, pid, vm, TapFor(vm), Ok(plan), s'.projects)
      && Issued(s, MakeCalls(plan), s')
  }

  /** An allocation that failed on the host: its devices are deleted, and the state is as before. */
  ghost predicate UndoneStep(c: Config, s: Net, pid: nat, vm: VmId, s': Net)
    requires ValidConfig(c) && StateOk(c, s.projects)
  {
    && s'.projects == s.projects
    && exists plan, mid, made, a, b ::
         && Allocates(c, s.projects, pid, vm, TapFor(vm), Ok(plan), mid)
         && Stopped(plan, made)
         && Issued(s, made + DeleteCalls(TapFor(vm), plan.setup, a, b), s')
  }

  /** A release: the VM leaves the state, and its devices are deleted as far as the host lets them. */
  ghost predicate ReleaseStep(c: Config, s: Net, vm: VmId, s': Net)
    requires ValidConfig(c) && StateOk(c, s.projects)
  {
    exists plan, a, b ::
      && Releases(c, s.projects, vm, plan, s'.projects)
      && Issued(s, ReleaseCalls(plan, a, b), s')
  }

  /** Nothing but deletions, of all the devices in `devices` and of no other. */
  predicate DeletesAll(calls: seq<Call>, devices: set<Device>) {
    && (forall call: Call :: call in calls ==> call.Deleted? && call.dev in devices)
    && (forall d :: d in devices ==> LastOn(calls, d).Some?)
  }

  /** A reconciliation: every device the loaded state claims is deleted, and every bridge on the host. */
  ghost predicate ReconcileStep(s: Net, s': Net) {
    && s'.projects == map[]
    && exists calls :: Issued(s, calls, s') && DeletesAll(calls, Claimed(s.projects) + BridgesAmong(s.devices))
  }

  lemma ReplayOne(devices: set<Device>, calls: seq<Call>, call: Call)
    requires Plausible(devices, calls) && Honest(Replay(devices, calls), call)
    ensures Replay(devices, calls + [call]) == Effect(Replay(devices, calls), call)
    ensures Plausible(devices, calls + [call])
    ensures forall d :: LastOn(calls + [call], d) == if On(call) == d then Some(call) else LastOn(calls, d)
  {
    assert (calls + [call])[..|calls|] == calls;
  }
}
