/**
 The address allocator (hostd/src/net/state.rs): which project owns which subnet of the supernet,
 and which VM owns which address of its project's subnet.
 */
module NetStates {

  import opened Arith
  import opened Cidr
  import opened Wrappers

  type VmId = string

  datatype Result<T> = Ok(value: T) | Err(error: AllocError)

  datatype AllocError = AlreadyAllocated | SubnetExhausted | NoFreeSubnet | BridgeNameTooLong

  const BRIDGE_PREFIX := "tbr-"
  const IFNAMSIZ_MAX := 15

  datatype Config = Config(supernet: Ipv4Net, subnetPrefix: nat)

  /** What `NetworkManager::new` accepts. */
  predicate ValidConfig(c: Config) {
    Valid(c.supernet) && c.supernet.prefix < c.subnetPrefix <= 30
  }

  datatype Project = Project(subnetIndex: u32, bridge: string, gateway: u32, vms: map<u32, VmId>)

  type Projects = map<nat, Project>

  datatype Setup = Setup(bridge: string, gateway: u32, subnet: Ipv4Net, supernet: Ipv4Net)

  datatype VmNet = VmNet(tap: string, guestIp: u32, gatewayIp: u32, subnet: Ipv4Net, mac: string)

  datatype AllocPlan = AllocPlan(bridge: string, setup: Option<Setup>, vmNet: VmNet)

  datatype ReleasePlan = ReleasePlan(tap: string, teardown: Option<Setup>)

  function Digit(d: nat): char
    requires d < 10
  {
    "0123456789"[d]
  }

  /** A prefix followed by a number in decimal. */
  function Numbered(prefix: string, n: nat): string {
    if n < 10 then prefix + [Digit(n)] else Numbered(prefix, n / 10) + [Digit(n % 10)]
  }

  function BridgeName(pid: nat): string {
    Numbered(BRIDGE_PREFIX, pid)
  }

  function TapFor(vm: VmId): string {
    "tap-" + if "vm-" <= vm then vm[3..] else vm
  }

  function Count(c: Config): u32
    requires ValidConfig(c)
  {
    SubnetCount(c.supernet, c.subnetPrefix)
  }

  function SubnetOf(c: Config, index: u32): (n: Ipv4Net)
    requires ValidConfig(c) && index < Count(c)
    ensures Valid(n) && Size(n) == SubnetSize(c)
  {
    Subnet(c.supernet, index, c.subnetPrefix)
  }

  function SubnetSize(c: Config): (n: u32)
    requires ValidConfig(c)
    ensures n >= 4
  {
    Pow2Mono(2, 32 - c.subnetPrefix);
    Pow2Mono(32 - c.subnetPrefix, 31);
    Word();
    assert Pow2(32) == 2 * Pow2(31);
    Pow2(32 - c.subnetPrefix)
  }

  predicate Owns(vms: map<u32, VmId>, vm: VmId) {
    exists ip :: ip in vms && vms[ip] == vm
  }

  function WithoutVm(vms: map<u32, VmId>, vm: VmId): map<u32, VmId> {
    map ip | ip in vms && vms[ip] != vm :: vms[ip]
  }

  /** Every address in use is a host address, neither network, gateway nor broadcast, with one owner. */
  ghost predicate ProjectOk(c: Config, pid: nat, p: Project)
    requires ValidConfig(c)
  {
    && p.subnetIndex < Count(c)
    && p.bridge == BridgeName(pid) && |p.bridge| <= IFNAMSIZ_MAX
    && p.gateway == SubnetOf(c, p.subnetIndex).addr + 1
    && p.vms != map[]
    && (forall ip :: ip in p.vms ==>
          SubnetOf(c, p.subnetIndex).addr + 2 <= ip < SubnetOf(c, p.subnetIndex).addr + SubnetSize(c) - 1)
    && (forall ip, jp :: ip in p.vms && jp in p.vms && p.vms[ip] == p.vms[jp] ==> ip == jp)
  }

  ghost predicate StateOk(c: Config, ps: Projects)
    requires ValidConfig(c)
  {
    && (forall pid :: pid in ps ==> ProjectOk(c, pid, ps[pid]))
    && (forall p, q :: p in ps && q in ps && ps[p].subnetIndex == ps[q].subnetIndex ==> p == q)
    && (forall p, q, vm :: p in ps && q in ps && Owns(ps[p].vms, vm) && Owns(ps[q].vms, vm) ==> p == q)
  }

  ghost predicate LowestFree(used: set<u32>, lo: int, hi: int, x: u32) {
    lo <= x < hi && x !in used && forall y: u32 :: lo <= y < x ==> y in used
  }

  function Indices(ps: Projects): set<u32> {
    set p | p in ps :: ps[p].subnetIndex
  }

  /** `alloc` as a relation between the state before, the answer and the state after. */
  ghost predicate Allocates(c: Config, before: Projects, pid: nat, vm: VmId, tap: string,
                            r: Result<AllocPlan>, after: Projects)
    requires ValidConfig(c) && StateOk(c, before)
  {
    match r
    case Err(e) =>
      after == before &&
      (match e
       case AlreadyAllocated => pid in before && Owns(before[pid].vms, vm)
       case SubnetExhausted =>
         pid in before && !Owns(before[pid].vms, vm) && |before[pid].vms| == SubnetSize(c) - 3
       case NoFreeSubnet => pid !in before && |before| == Count(c)
       case BridgeNameTooLong => pid !in before && |before| < Count(c) && |BridgeName(pid)| > IFNAMSIZ_MAX)
    case Ok(plan) =>
      if pid in before then Joins(c, before, pid, vm, tap, plan, after)
      else Founds(c, before, pid, vm, tap, plan, after)
  }

  /** A further VM of a project gets the lowest free host address of the project's subnet. */
  ghost predicate Joins(c: Config, before: Projects, pid: nat, vm: VmId, tap: string, plan: AllocPlan, after: Projects)
    requires ValidConfig(c) && StateOk(c, before) && pid in before
  {
    var p, ip := before[pid], plan.vmNet.guestIp;
    var sub := SubnetOf(c, p.subnetIndex);
    && !Owns(p.vms, vm)
    && LowestFree(p.vms.Keys, sub.addr + 2, sub.addr + SubnetSize(c) - 1, ip)
    && plan == AllocPlan(p.bridge, None, VmNet(tap, ip, p.gateway, sub, MacFromIp(ip)))
    && after == before[pid := p.(vms := p.vms[ip := vm])]
  }

  /** The first VM of a project gets the second host address of the lowest free subnet. */
  ghost predicate Founds(c: Config, before: Projects, pid: nat, vm: VmId, tap: string, plan: AllocPlan, after: Projects)
    requires ValidConfig(c) && StateOk(c, before)
  {
    && plan.setup.Some? && pid in after && |BridgeName(pid)| <= IFNAMSIZ_MAX
    && LowestFree(Indices(before), 0, Count(c), after[pid].subnetIndex)
    && var sub := SubnetOf(c, after[pid].subnetIndex);
    && after == before[pid := Project(after[pid].subnetIndex, BridgeName(pid), Host(sub, 1), map[Host(sub, 2) := vm])]
    && plan == AllocPlan(BridgeName(pid), Some(Setup(BridgeName(pid), Host(sub, 1), sub, c.supernet)),
                         VmNet(tap, Host(sub, 2), Host(sub, 1), sub, MacFromIp(Host(sub, 2))))
  }

  function RolledBack(ps: Projects, pid: nat, vm: VmId): Projects {
    if pid !in ps then ps
    else
      var vms := WithoutVm(ps[pid].vms, vm);
      if vms == map[] then ps - {pid} else ps[pid := ps[pid].(vms := vms)]
  }

  // ----- pigeonhole -----

  function Range(lo: nat, hi: nat): (s: set<u32>)
    requires lo <= hi <= 0x1_0000_0000
    ensures |s| == hi - lo && forall x: u32 :: x in s <==> lo <= x < hi
    decreases hi - lo
  {
    if lo == hi then {} else Range(lo, hi - 1) + {hi - 1}
  }

  /** A set of numbers from a range is the whole range exactly when it is as large. */
  lemma FullIff(used: set<u32>, lo: nat, hi: nat)
    requires lo <= hi <= 0x1_0000_0000 && forall x :: x in used ==> lo <= x < hi
    ensures |used| <= hi - lo
    ensures |used| == hi - lo <==> forall x: u32 :: lo <= x < hi ==> x in used
  {
    SubsetSize(used, Range(lo, hi));
  }

  lemma {:induction false} ValuesCount(m: map<nat, u32>)
    requires forall p, q :: p in m && q in m && m[p] == m[q] ==> p == q
    ensures |m.Values| == |m|
  {
    if m != map[] {
      var p :| p in m;
      var rest := m - {p};
      ValuesCount(rest);
      assert m.Keys == rest.Keys + {p};
      assert forall x :: x in m.Values <==> x in rest.Values || x == m[p];
      assert m.Values == rest.Values + {m[p]};
      assert m[p] !in rest.Values;
    }
  }

  /** Projects hold distinct subnets, so they are counted by their indices. */
  lemma IndicesCount(ps: Projects)
    requires forall p, q :: p in ps && q in ps && ps[p].subnetIndex == ps[q].subnetIndex ==> p == q
    ensures |Indices(ps)| == |ps|
  {
    var m := map p | p in ps :: ps[p].subnetIndex;
    ValuesCount(m);
    assert m.Keys == ps.Keys;
    assert m.Values == Indices(ps);
  }

  lemma IndicesFit(c: Config, ps: Projects)
    requires ValidConfig(c) && StateOk(c, ps)
    ensures |Indices(ps)| == |ps| && forall x :: x in Indices(ps) ==> x < Count(c)
  {
    IndicesCount(ps);
  }

  class NetState {

    var projects: Projects

    constructor ()
      ensures projects == map[]
    {
      projects := map[];
    }

    /** Reserve a guest IP for `vm`, whose id no other project uses. */
    method Alloc(c: Config, pid: nat, vm: VmId, tap: string) returns (r: Result<AllocPlan>)
      requires ValidConfig(c) && StateOk(c, projects)
      modifies this
      ensures Allocates(c, old(projects), pid, vm, tap, r, projects)
    {
      if pid in projects {
        r := AllocInProject(c, pid, vm, tap);
        return;
      }
      var index := FreeSubnet(c);
      if index.None? {
        return Err(NoFreeSubnet);
      }
      if |BridgeName(pid)| > IFNAMSIZ_MAX {
        return Err(BridgeNameTooLong);
      }
      var sub := SubnetOf(c, index.value);
      var gateway, guest := Host(sub, 1), Host(sub, 2);
      projects := projects[pid := Project(index.value, BridgeName(pid), gateway, map[guest := vm])];
      r := Ok(AllocPlan(BridgeName(pid), Some(Setup(BridgeName(pid), gateway, sub, c.supernet)),
                        VmNet(tap, guest, gateway, sub, MacFromIp(guest))));
    }

    /** The first branch of `alloc`: the project exists. */
    method AllocInProject(c: Config, pid: nat, vm: VmId, tap: string) returns (r: Result<AllocPlan>)
      requires ValidConfig(c) && StateOk(c, projects) && pid in projects
      modifies this
      ensures Allocates(c, old(projects), pid, vm, tap, r, projects)
    {
      var p := projects[pid];
      if Owns(p.vms, vm) {
        return Err(AlreadyAllocated);
      }
      var sub := SubnetOf(c, p.subnetIndex);
      var ip := LowestFreeIp(sub, p.vms);
      FullIff(p.vms.Keys, sub.addr + 2, sub.addr + Size(sub) - 1);
      if ip.None? {
        return Err(SubnetExhausted);
      }
      projects := projects[pid := p.(vms := p.vms[ip.value := vm])];
      r := Ok(AllocPlan(p.bridge, None, VmNet(tap, ip.value, p.gateway, sub, MacFromIp(ip.value))));
    }

    /** Lowest subnet index no project uses. */
    method FreeSubnet(c: Config) returns (r: Option<u32>)
      requires ValidConfig(c) && StateOk(c, projects)
      ensures r.Some? ==> LowestFree(Indices(projects), 0, Count(c), r.value)
      ensures r.None? <==> |projects| == Count(c)
      ensures |projects| <= Count(c)
    {
      IndicesFit(c, projects);
      r := LowestFreeIndex(Indices(projects), Count(c));
    }

    method RollbackAlloc(pid: nat, vm: VmId)
      modifies this
      ensures projects == RolledBack(old(projects), pid, vm)
    {
      if pid in projects {
        var p := projects[pid].(vms := WithoutVm(projects[pid].vms, vm));
        projects := projects[pid := p];
        if p.vms == map[] {
          projects := projects - {pid};
        }
      }
    }

    /** Give `vm`'s address back, and the project's subnet with its last VM. */
    method Release(c: Config, vm: VmId) returns (r: Option<ReleasePlan>)
      requires ValidConfig(c) && StateOk(c, projects)
      modifies this
      ensures Releases(c, old(projects), vm, r, projects)
    {
      if !exists q :: q in projects && Owns(projects[q].vms, vm) {
        return None;
      }
      var pid :| pid in projects && Owns(projects[pid].vms, vm);
      var teardown := RemoveFrom(c, pid, vm);
      r := Some(ReleasePlan(TapFor(vm), teardown));
      assert ReleasesFrom(c, old(projects), pid, vm, r.value, projects);
    }

    /** The part of `release` that changes the owning project. */
    method RemoveFrom(c: Config, pid: nat, vm: VmId) returns (teardown: Option<Setup>)
      requires ValidConfig(c) && pid in projects && projects[pid].subnetIndex < Count(c)
      modifies this
      ensures projects == RolledBack(old(projects), pid, vm)
      ensures teardown == if pid in projects then None else Some(SetupOf(c, old(projects)[pid]))
    {
      var p := projects[pid].(vms := WithoutVm(projects[pid].vms, vm));
      if p.vms == map[] {
        projects := projects - {pid};
        return Some(SetupOf(c, p));
      }
      projects := projects[pid := p];
      teardown := None;
    }
  }

  /** `release` as a relation: the one project owning `vm` loses it, and goes with its last VM. */
  ghost predicate Releases(c: Config, before: Projects, vm: VmId, r: Option<ReleasePlan>, after: Projects)
    requires ValidConfig(c) && StateOk(c, before)
  {
    match r
    case None => after == before && forall q :: q in before ==> !Owns(before[q].vms, vm)
    case Some(plan) => exists pid :: ReleasesFrom(c, before, pid, vm, plan, after)
  }

  ghost predicate ReleasesFrom(c: Config, before: Projects, pid: nat, vm: VmId, plan: ReleasePlan, after: Projects)
    requires ValidConfig(c) && StateOk(c, before)
  {
    && pid in before && Owns(before[pid].vms, vm)
    && after == RolledBack(before, pid, vm)
    && plan == ReleasePlan(TapFor(vm), if pid in after then None else Some(SetupOf(c, before[pid])))
  }

  /** The bridge, gateway and subnet a project holds on the host. */
  function SetupOf(c: Config, p: Project): Setup
    requires ValidConfig(c) && p.subnetIndex < Count(c)
  {
    Setup(p.bridge, p.gateway, SubnetOf(c, p.subnetIndex), c.supernet)
  }

  /** Lowest number below `count` not in `used`. */
  method LowestFreeIndex(used: set<u32>, count: u32) returns (r: Option<u32>)
    requires forall x :: x in used ==> x < count
    ensures r.Some? ==> LowestFree(used, 0, count, r.value)
    ensures |used| <= count && (r.None? <==> |used| == count)
  {
    FullIff(used, 0, count);
    var index: int := 0;
    while index < count && index in used
      invariant 0 <= index <= count
      invariant forall y: u32 :: y < index ==> y in used
    {
      index := index + 1;
    }
    r := if index < count then Some(index) else None;
  }

  /** Lowest host address not in use, skipping network, gateway and broadcast. */
  method LowestFreeIp(sub: Ipv4Net, used: map<u32, VmId>) returns (r: Option<u32>)
    requires Valid(sub) && Size(sub) >= 4
    ensures r.Some? ==> LowestFree(used.Keys, sub.addr + 2, sub.addr + Size(sub) - 1, r.value)
    ensures r.None? ==> forall y: u32 :: sub.addr + 2 <= y < sub.addr + Size(sub) - 1 ==> y in used
  {
    var idx: int := 2;
    while idx < Size(sub) - 1
      invariant 2 <= idx <= Size(sub) - 1
      invariant forall y: u32 :: sub.addr + 2 <= y < sub.addr + idx ==> y in used
    {
      if Host(sub, idx) !in used {
        return Some(Host(sub, idx));
      }
      idx := idx + 1;
    }
    r := None;
  }
}
