/**
 What the allocator promises: exclusive addresses, completeness, and exact undo.
 */
module NetLaws {

  import opened Cidr
  import opened NetStates
  import opened Wrappers

  /** The id of the VM to be added is used by no other project. */
  ghost predicate Unused(ps: Projects, pid: nat, vm: VmId) {
    forall q :: q in ps && Owns(ps[q].vms, vm) ==> q == pid
  }

  lemma OwnsAdded(vms: map<u32, VmId>, ip: u32, vm: VmId)
    requires ip !in vms
    ensures forall w :: Owns(vms[ip := vm], w) <==> Owns(vms, w) || w == vm
  {
    var added := vms[ip := vm];
    assert added[ip] == vm;
    forall w ensures Owns(added, w) <==> Owns(vms, w) || w == vm {
      if Owns(vms, w) {
        var a :| a in vms && vms[a] == w;
        assert added[a] == w;
      }
    }
  }

  lemma OwnsRest(vms: map<u32, VmId>, vm: VmId)
    ensures forall w :: Owns(WithoutVm(vms, vm), w) ==> Owns(vms, w) && w != vm
  {
  }

  /** Setting one project to a sound value with an index and owners of its own keeps the state sound. */
  lemma PutKeepsOk(c: Config, ps: Projects, pid: nat, p: Project)
    requires ValidConfig(c) && StateOk(c, ps) && ProjectOk(c, pid, p)
    requires forall q :: q in ps && q != pid ==> ps[q].subnetIndex != p.subnetIndex
    requires forall q, w :: q in ps && q != pid && Owns(p.vms, w) ==> !Owns(ps[q].vms, w)
    ensures StateOk(c, ps[pid := p])
  {
    hide ProjectOk, Owns;
  }

  lemma JoinKeepsOk(c: Config, ps: Projects, pid: nat, vm: VmId, tap: string, plan: AllocPlan, ps': Projects)
    requires ValidConfig(c) && StateOk(c, ps) && Unused(ps, pid, vm) && pid in ps
    requires Joins(c, ps, pid, vm, tap, plan, ps')
    ensures StateOk(c, ps')
  {
    var p, ip := ps[pid], plan.vmNet.guestIp;
    OwnsAdded(p.vms, ip, vm);
    assert forall a :: a in p.vms ==> p.vms[a] != vm;
    hide Owns;
    PutKeepsOk(c, ps, pid, p.(vms := p.vms[ip := vm]));
  }

  /** A project as `alloc` founds it. */
  function Founded(c: Config, pid: nat, index: u32, vm: VmId): Project
    requires ValidConfig(c) && index < Count(c)
  {
    var sub := SubnetOf(c, index);
    Project(index, BridgeName(pid), Host(sub, 1), map[Host(sub, 2) := vm])
  }

  lemma FoundedOk(c: Config, pid: nat, index: u32, vm: VmId)
    requires ValidConfig(c) && index < Count(c) && |BridgeName(pid)| <= IFNAMSIZ_MAX
    ensures ProjectOk(c, pid, Founded(c, pid, index, vm))
    ensures forall w :: Owns(Founded(c, pid, index, vm).vms, w) ==> w == vm
  {
    var ip := Host(SubnetOf(c, index), 2);
    assert ip in Founded(c, pid, index, vm).vms;
  }

  lemma FoundKeepsOk(c: Config, ps: Projects, pid: nat, vm: VmId, tap: string, plan: AllocPlan, ps': Projects)
    requires ValidConfig(c) && StateOk(c, ps) && Unused(ps, pid, vm) && pid !in ps
    requires Founds(c, ps, pid, vm, tap, plan, ps')
    ensures StateOk(c, ps')
  {
    var index := ps'[pid].subnetIndex;
    var p := Founded(c, pid, index, vm);
    assert forall q :: q in ps ==> ps[q].subnetIndex in Indices(ps);
    assert ps' == ps[pid := p];
    FoundedOk(c, pid, index, vm);
    hide Owns, ProjectOk, Founded, StateOk, Founds, SubnetOf;
    PutKeepsOk(c, ps, pid, p);
  }

  lemma AllocKeepsOk(c: Config, ps: Projects, pid: nat, vm: VmId, tap: string, r: Result<AllocPlan>, ps': Projects)
    requires ValidConfig(c) && StateOk(c, ps) && Unused(ps, pid, vm)
    requires Allocates(c, ps, pid, vm, tap, r, ps')
    ensures StateOk(c, ps')
  {
    hide StateOk, Unused, Joins, Founds;
    if r.Ok? && pid in ps {
      JoinKeepsOk(c, ps, pid, vm, tap, r.value, ps');
    } else if r.Ok? {
      FoundKeepsOk(c, ps, pid, vm, tap, r.value, ps');
    }
  }

  lemma RollbackKeepsOk(c: Config, ps: Projects, pid: nat, vm: VmId)
    requires ValidConfig(c) && StateOk(c, ps)
    ensures StateOk(c, RolledBack(ps, pid, vm))
  {
    if pid in ps {
      var vms := WithoutVm(ps[pid].vms, vm);
      OwnsRest(ps[pid].vms, vm);
      if vms != map[] {
        assert ProjectOk(c, pid, ps[pid].(vms := vms));
        hide Owns;
        PutKeepsOk(c, ps, pid, ps[pid].(vms := vms));
      }
    }
  }

  /**
   Completeness: an allocation fails exactly when the project already has the VM or holds
   `size - 3` VMs, or, for a new project, when every subnet is held or the bridge name is too long.
   */
  lemma AllocFailsIff(c: Config, ps: Projects, pid: nat, vm: VmId, tap: string, r: Result<AllocPlan>, ps': Projects)
    requires ValidConfig(c) && StateOk(c, ps) && Allocates(c, ps, pid, vm, tap, r, ps')
    ensures r.Err? <==> if pid in ps then Owns(ps[pid].vms, vm) || |ps[pid].vms| == SubnetSize(c) - 3
                        else |ps| == Count(c) || |BridgeName(pid)| > IFNAMSIZ_MAX
    ensures r.Err? ==> ps' == ps
  {
    if r.Ok? && pid in ps {
      var sub := SubnetOf(c, ps[pid].subnetIndex);
      FullIff(ps[pid].vms.Keys, sub.addr + 2, sub.addr + Size(sub) - 1);
      assert |ps[pid].vms.Keys| == |ps[pid].vms|;
    } else if r.Ok? {
      FullIff(Indices(ps), 0, Count(c));
      IndicesCount(ps);
    }
  }

  lemma UndoAdd(ps: Projects, pid: nat, ip: u32, vm: VmId)
    requires pid in ps && ip !in ps[pid].vms && !Owns(ps[pid].vms, vm) && ps[pid].vms != map[]
    ensures RolledBack(ps[pid := ps[pid].(vms := ps[pid].vms[ip := vm])], pid, vm) == ps
  {
    var vms := ps[pid].vms;
    assert forall a :: a in vms ==> vms[a] != vm;
    assert WithoutVm(vms[ip := vm], vm) == vms;
  }

  lemma JoinUndone(c: Config, ps: Projects, pid: nat, vm: VmId, tap: string, plan: AllocPlan, ps': Projects)
    requires ValidConfig(c) && StateOk(c, ps) && pid in ps && Joins(c, ps, pid, vm, tap, plan, ps')
    ensures RolledBack(ps', pid, vm) == ps
  {
    assert ProjectOk(c, pid, ps[pid]) && ps[pid].vms != map[];
    hide StateOk, ProjectOk, Owns, SubnetOf, RolledBack;
    UndoAdd(ps, pid, plan.vmNet.guestIp, vm);
  }

  /** A rollback or a release right after an allocation restores the exact state before it. */
  lemma RollbackUndoesAlloc(c: Config, ps: Projects, pid: nat, vm: VmId, tap: string, plan: AllocPlan, ps': Projects)
    requires ValidConfig(c) && StateOk(c, ps) && Unused(ps, pid, vm)
    requires Allocates(c, ps, pid, vm, tap, Ok(plan), ps')
    ensures RolledBack(ps', pid, vm) == ps
  {
    if pid in ps {
      hide RolledBack, Joins, StateOk;
      JoinUndone(c, ps, pid, vm, tap, plan, ps');
    } else {
      hide StateOk;
      assert WithoutVm(ps'[pid].vms, vm) == map[];
    }
  }

  lemma ReleaseUndoesAlloc(c: Config, ps: Projects, pid: nat, vm: VmId, tap: string, plan: AllocPlan, ps': Projects,
                           r: Option<ReleasePlan>, ps'': Projects)
    requires ValidConfig(c) && StateOk(c, ps) && StateOk(c, ps') && Unused(ps, pid, vm)
    requires Allocates(c, ps, pid, vm, tap, Ok(plan), ps') && Releases(c, ps', vm, r, ps'')
    ensures ps'' == ps
    ensures r.Some? && r.value.tap == TapFor(vm) && r.value.teardown == plan.setup
  {
    RollbackUndoesAlloc(c, ps, pid, vm, tap, plan, ps');
    var ip := plan.vmNet.guestIp;
    assert ps'[pid].vms[ip] == vm;
    assert Owns(ps'[pid].vms, vm);
  }

  /** The answer and the new state depend on the old state alone, so a freed address is handed out again. */
  lemma AllocDetermined(c: Config, ps: Projects, pid: nat, v: VmId, w: VmId, t: string, u: string,
                        p: AllocPlan, q: AllocPlan, a: Projects, b: Projects)
    requires ValidConfig(c) && StateOk(c, ps)
    requires Allocates(c, ps, pid, v, t, Ok(p), a) && Allocates(c, ps, pid, w, u, Ok(q), b)
    ensures p.(vmNet := p.vmNet.(tap := u)) == q
    ensures v == w ==> a == b
  {
    hide StateOk, Owns;
    if pid in ps {
      assert p.vmNet.guestIp == q.vmNet.guestIp;
    } else {
      assert a[pid].subnetIndex == b[pid].subnetIndex;
    }
  }

  /**
   No two VMs share an address or a MAC, whatever their projects, and no VM has the network,
   gateway or broadcast address of any project's subnet; all lie inside the supernet.
   */
  lemma AddressesExclusive(c: Config, ps: Projects, p: nat, ip: u32, q: nat, jp: u32)
    requires ValidConfig(c) && StateOk(c, ps)
    requires p in ps && ip in ps[p].vms && q in ps && jp in ps[q].vms
    ensures Contains(c.supernet, ip)
    ensures p != q || ps[p].vms[ip] != ps[q].vms[jp] ==> ip != jp && MacFromIp(ip) != MacFromIp(jp)
    ensures var sub := SubnetOf(c, ps[q].subnetIndex);
      ip != sub.addr && ip != ps[q].gateway && ip != sub.addr + SubnetSize(c) - 1
  {
    if p != q {
      SubnetsApart(c, ps[p].subnetIndex, ps[q].subnetIndex);
    }
    if MacFromIp(ip) == MacFromIp(jp) {
      MacInjective(ip, jp);
    }
  }

  lemma SubnetsApart(c: Config, i: u32, j: u32)
    requires ValidConfig(c) && i < Count(c) && j < Count(c) && i != j
    ensures SubnetOf(c, i).addr + SubnetSize(c) <= SubnetOf(c, j).addr
            || SubnetOf(c, j).addr + SubnetSize(c) <= SubnetOf(c, i).addr
  {
    if i < j {
      SubnetsDisjoint(c.supernet, c.subnetPrefix, i, j);
    } else {
      SubnetsDisjoint(c.supernet, c.subnetPrefix, j, i);
    }
  }

  /** Projects' subnets are disjoint ranges inside the supernet. */
  lemma ProjectSubnetsDisjoint(c: Config, ps: Projects, p: nat, q: nat, ip: u32)
    requires ValidConfig(c) && StateOk(c, ps) && p in ps && q in ps && p != q
    requires Contains(SubnetOf(c, ps[p].subnetIndex), ip)
    ensures Contains(c.supernet, ip) && !Contains(SubnetOf(c, ps[q].subnetIndex), ip)
  {
    SubnetsApart(c, ps[p].subnetIndex, ps[q].subnetIndex);
  }

  /** Bridges of different projects have different names. */
  lemma {:induction false} NumberedInjective(prefix: string, a: nat, b: nat)
    requires Numbered(prefix, a) == Numbered(prefix, b)
    ensures a == b
  {
    LastDigit(prefix, a);
    LastDigit(prefix, b);
    if a >= 10 && b >= 10 {
      var s := Numbered(prefix, a);
      assert s[..|s| - 1] == Numbered(prefix, a / 10) && s[..|s| - 1] == Numbered(prefix, b / 10);
      NumberedInjective(prefix, a / 10, b / 10);
    }
  }

  lemma {:induction false} LastDigit(prefix: string, n: nat)
    ensures var s := Numbered(prefix, n);
      && |s| > |prefix| && (|s| == |prefix| + 1 <==> n < 10)
      && forall d: nat :: d < 10 && s[|s| - 1] == Digit(d) ==> d == n % 10
  {
    if n >= 10 {
      LastDigit(prefix, n / 10);
    }
  }

  /** The names are what they should be: a prefix and the number in decimal, and the VM's own suffix. */
  lemma NameExamples()
    ensures BridgeName(120) == BRIDGE_PREFIX + "120" && TapFor("vm-7f") == "tap-7f"
  {
    assert Numbered(BRIDGE_PREFIX, 1) == BRIDGE_PREFIX + ['1'];
    assert Numbered(BRIDGE_PREFIX, 12) == BRIDGE_PREFIX + ['1'] + ['2'];
    assert Numbered(BRIDGE_PREFIX, 120) == BRIDGE_PREFIX + ['1'] + ['2'] + ['0'];
    assert "vm-7f"[..3] == "vm-" && "vm-7f"[3..] == "7f";
  }

  /** The name is too long exactly for ids of more than eleven digits. */
  lemma BridgeNameTooLongIff(pid: nat)
    ensures |BridgeName(pid)| > IFNAMSIZ_MAX <==> pid >= 100_000_000_000
  {
    NumberedLength(BRIDGE_PREFIX, pid, 11, 100_000_000_000);
  }

  lemma {:induction false} NumberedLength(prefix: string, n: nat, digits: nat, bound: nat)
    requires digits > 0 && bound == Pow10(digits)
    ensures |Numbered(prefix, n)| <= |prefix| + digits <==> n < bound
  {
    LastDigit(prefix, n);
    if digits > 1 && n >= 10 {
      NumberedLength(prefix, n / 10, digits - 1, Pow10(digits - 1));
    }
  }

  function Pow10(n: nat): (r: nat)
    ensures r > 0
  {
    if n == 0 then 1 else 10 * Pow10(n - 1)
  }
}
