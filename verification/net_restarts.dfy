/**
 The TAPs on the host over any number of lives of hostd: each life loads `network_state.json`, deletes
 what it claims, serves, and may be cut off anywhere (hostd/src/net/manager.rs, hostd/src/main.rs).
 */
module NetRestarts {

  import opened Cidr
  import opened HostNets
  import opened NetClaims
  import opened NetLaws
  import opened NetRuns
  import opened NetStates
  import opened Wrappers

  /** `up` once a start went through; a start that fails or is cut off ends the process. */
  datatype Life = Life(net: Net, disk: Projects, up: bool)

  /** `cut` is the state a life ends in: the host may be half way through an operation. */
  datatype Act = Serve(op: Op, written: bool) | Restart(cut: Net)

  ghost predicate ServeStep(c: Config, s: Life, op: Op, written: bool, s': Life)
    requires ValidConfig(c)
  {
    && s.up && s'.up && Step(c, s.net, op, s'.net)
    && s'.disk == if written && (op.Allocate? || op.Release?) then s'.net.projects else s.disk
  }

  /** The process ends between two operations, or after some of the commands of one. */
  ghost predicate CutOff(c: Config, s: Life, cut: Net)
    requires ValidConfig(c)
  {
    exists part :: Issued(s.net, part, cut) && (part == [] || Interrupted(c, s, part))
  }

  ghost predicate Interrupted(c: Config, s: Life, part: seq<Call>)
    requires ValidConfig(c)
  {
    s.up && exists op, done, all :: Step(c, s.net, op, done) && Issued(s.net, all, done) && part <= all
  }

  /**
   A start on the loaded state. It fails if the bridges cannot be listed or the state not written, and it
   may be cut off after any of its deletions.
   */
  ghost predicate StartStep(disk: Projects, cut: Net, s': Life) {
    && (exists calls :: Issued(cut, calls, s'.net) && Starts(disk, cut, calls, s'.up))
    && s'.net.projects == (if s'.up then map[] else disk)
    && s'.disk == (if s'.up then map[] else disk)
  }

  ghost predicate Starts(disk: Projects, cut: Net, calls: seq<Call>, up: bool) {
    var claimed := Claimed(disk) + BridgesAmong(cut.devices);
    if up then DeletesAll(calls, claimed) else DeletesSome(calls, claimed)
  }

  predicate DeletesSome(calls: seq<Call>, devices: set<Device>) {
    forall call: Call :: call in calls ==> call.Deleted? && call.dev in devices
  }

  /** A run begins with any state file, on a host with any devices. */
  ghost predicate LivesRun(c: Config, states: seq<Life>, acts: seq<Act>)
    requires ValidConfig(c)
  {
    && |states| == |acts| + 1
    && states[0].net.log == [] && states[0].net.projects == map[] && !states[0].up
    && forall k {:trigger acts[k]} :: 0 <= k < |acts| ==> LifeStep(c, states[k], acts[k], states[k + 1])
  }

  ghost predicate LifeStep(c: Config, s: Life, a: Act, s': Life)
    requires ValidConfig(c)
  {
    match a
    case Serve(op, written) => ServeStep(c, s, op, written, s')
    case Restart(cut) => CutOff(c, s, cut) && StartStep(s.disk, cut, s')
  }

  /** The latest command about `d` set it up. */
  predicate LastMade(log: seq<Call>, d: Device) {
    var last := LastOn(log, d);
    last.Some? && !last.value.Deleted? && Leaves(last.value)
  }

  /**
   Some start found `d` set up by an earlier life, with a state file that does not claim it, and no
   command named it since.
   */
  ghost predicate Forgotten(states: seq<Life>, acts: seq<Act>, k: nat, d: Device)
    requires k < |states| && k <= |acts|
  {
    exists i :: 0 <= i < k && ForgottenAt(states[i].disk, acts[i], states[k].net.log, d)
  }

  ghost predicate ForgottenAt(disk: Projects, a: Act, log: seq<Call>, d: Device) {
    && a.Restart? && d !in Claimed(disk)
    && LastMade(a.cut.log, d) && a.cut.log <= log && LastOn(log[|a.cut.log|..], d).None?
  }

  /** The devices follow from the log and the devices found at first. */
  lemma {:induction false} LivesReplay(c: Config, states: seq<Life>, acts: seq<Act>, k: nat)
    requires ValidConfig(c) && LivesRun(c, states, acts) && k < |states|
    ensures states[k].net.devices == Replay(states[0].net.devices, states[k].net.log)
  {
    if k > 0 {
      LivesReplay(c, states, acts, k - 1);
      assert LifeStep(c, states[k - 1], acts[k - 1], states[k]);
      hide *;
      var more := LifeStepIssues(c, states[k - 1], acts[k - 1], states[k]);
      ReplayOn(states[0].net.devices, states[k - 1].net, more, states[k].net);
    }
  }

  lemma ReplayOn(found: set<Device>, s: Net, more: seq<Call>, s': Net)
    requires s.devices == Replay(found, s.log) && Issued(s, more, s')
    ensures s'.devices == Replay(found, s'.log)
  {
    ReplayAppend(found, s.log, more);
  }

  lemma IssuedTwice(s: Net, a: seq<Call>, mid: Net, b: seq<Call>, r: Net)
    requires Issued(s, a, mid) && Issued(mid, b, r)
    ensures Issued(s, a + b, r)
  {
    hide Replay, Plausible;
    ReplayAppend(s.devices, a, b);
    Regroup(s.log, a, b);
  }

  lemma Regroup(a: seq<Call>, b: seq<Call>, c: seq<Call>)
    ensures a + b + c == a + (b + c)
  {
  }

  lemma LifeStepIssues(c: Config, s: Life, a: Act, s': Life) returns (more: seq<Call>)
    requires ValidConfig(c) && LifeStep(c, s, a, s')
    ensures Issued(s.net, more, s'.net)
  {
    hide Step, Starts, Interrupted, Issued, ValidConfig;
    match a {
      case Serve(op, _) =>
        more := StepSettles(c, s.net, op, s'.net);
      case Restart(cut) =>
        var part :| Issued(s.net, part, cut) && (part == [] || Interrupted(c, s, part));
        var calls :| Issued(cut, calls, s'.net) && Starts(s.disk, cut, calls, s'.up);
        IssuedTwice(s.net, part, cut, calls, s'.net);
        more := part + calls;
    }
  }

  /** A start names no TAP that its state file does not claim. */
  lemma StartLeaves(disk: Projects, cut: Net, s': Life, d: Device)
    requires StartStep(disk, cut, s') && d.Tap? && d !in Claimed(disk)
    ensures cut.log <= s'.net.log && LastOn(s'.net.log[|cut.log|..], d).None?
  {
    var calls :| Issued(cut, calls, s'.net) && Starts(disk, cut, calls, s'.up);
    assert s'.net.log[|cut.log|..] == calls;
    hide Claimed, LastOn, Replay, Plausible;
    LastIsInLog(calls, d);
  }

  /** A start that named `d` would have deleted it; so its last command is from an earlier life. */
  lemma StartForgets(c: Config, s: Life, a: Act, s': Life, d: Device)
    requires ValidConfig(c) && a.Restart? && LifeStep(c, s, a, s') && d.Tap? && LastMade(s'.net.log, d)
    requires d !in Claimed(s'.net.projects)
    ensures ForgottenAt(s.disk, a, s'.net.log, d)
  {
    var cut := a.cut;
    var calls :| Issued(cut, calls, s'.net) && Starts(s.disk, cut, calls, s'.up);
    assert s'.net.log[|cut.log|..] == calls;
    hide CutOff, Claimed, LastOn, Replay, Plausible;
    LastAppend(cut.log, calls, d);
    LastIsInLog(calls, d);
  }

  /** A step that names `d` or not, after which it is unclaimed and its last command set it up, did not name it. */
  lemma ServeForgets(c: Config, s: Life, op: Op, written: bool, s': Life, d: Device) returns (more: seq<Call>)
    requires ValidConfig(c) && ServeStep(c, s, op, written, s')
    requires d !in Claimed(s'.net.projects) && LastMade(s'.net.log, d)
    ensures s'.net.log == s.net.log + more && LastOn(more, d).None?
    ensures d !in Claimed(s.net.projects) && LastMade(s.net.log, d)
  {
    hide Step, Claimed;
    more := StepSettles(c, s.net, op, s'.net);
    LastAppend(s.net.log, more, d);
  }

  lemma ForgottenMore(disk: Projects, a: Act, log: seq<Call>, more: seq<Call>, d: Device)
    requires ForgottenAt(disk, a, log, d) && LastOn(more, d).None?
    ensures ForgottenAt(disk, a, log + more, d)
  {
    hide LastMade, Claimed, LastOn;
    var n := |a.cut.log|;
    assert (log + more)[n..] == log[n..] + more;
    LastAppend(log[n..], more, d);
  }

  lemma StillForgotten(states: seq<Life>, acts: seq<Act>, k: nat, d: Device, more: seq<Call>)
    requires 0 < k < |states| && k <= |acts| && Forgotten(states, acts, k - 1, d)
    requires states[k].net.log == states[k - 1].net.log + more && LastOn(more, d).None?
    ensures Forgotten(states, acts, k, d)
  {
    var log := states[k - 1].net.log;
    var i :| 0 <= i < k - 1 && ForgottenAt(states[i].disk, acts[i], log, d);
    ForgottenMore(states[i].disk, acts[i], log, more, d);
    hide ForgottenAt, LastOn;
    assert ForgottenAt(states[i].disk, acts[i], states[k].net.log, d);
  }

  lemma {:induction false} MadeIsForgotten(c: Config, states: seq<Life>, acts: seq<Act>, k: nat, d: Device)
    requires ValidConfig(c) && LivesRun(c, states, acts) && k < |states| && d.Tap?
    requires d !in Claimed(states[k].net.projects) && LastMade(states[k].net.log, d)
    ensures Forgotten(states, acts, k, d)
  {
    if k > 0 {
      var s, a, s' := states[k - 1], acts[k - 1], states[k];
      assert LifeStep(c, s, a, s') && |states| == |acts| + 1;
      assert a.Serve? ==> ServeStep(c, s, a.op, a.written, s');
      hide *;
      match a {
        case Serve(op, written) =>
          var more := ServeForgets(c, s, op, written, s', d);
          MadeIsForgotten(c, states, acts, k - 1, d);
          StillForgotten(states, acts, k, d, more);
        case Restart(_) =>
          StartForgets(c, s, a, s', d);
          ForgottenNow(states, acts, k, d);
      }
    }
  }

  lemma ForgottenNow(states: seq<Life>, acts: seq<Act>, k: nat, d: Device)
    requires 0 < k < |states| && k <= |acts|
    requires ForgottenAt(states[k - 1].disk, acts[k - 1], states[k].net.log, d)
    ensures Forgotten(states, acts, k, d)
  {
    hide ForgottenAt;
  }

  /**
   At any point of any number of lives, a TAP the state does not claim is on the host if and only if its
   latest deletion failed, no command ever named it and it was found there at first, or it was forgotten:
   some start met it with a state file that did not claim it.
   */
  lemma UnclaimedTaps(c: Config, states: seq<Life>, acts: seq<Act>, k: nat, d: Device)
    requires ValidConfig(c) && LivesRun(c, states, acts) && k < |states|
    requires d.Tap? && d !in Claimed(states[k].net.projects)
    ensures var log := states[k].net.log;
      d in states[k].net.devices <==>
      Stuck(log, d) || (LastOn(log, d).None? && d in states[0].net.devices) || Forgotten(states, acts, k, d)
  {
    var log := states[k].net.log;
    LivesReplay(c, states, acts, k);
    ReplayLast(states[0].net.devices, log, d);
    if LastMade(log, d) {
      MadeIsForgotten(c, states, acts, k, d);
    }
    if Forgotten(states, acts, k, d) {
      ForgottenIsMade(states, acts, k, d);
    }
    hide Claimed, LivesRun, Replay, LastOn, Forgotten;
  }

  lemma ForgottenIsMade(states: seq<Life>, acts: seq<Act>, k: nat, d: Device)
    requires k < |states| && k <= |acts| && Forgotten(states, acts, k, d)
    ensures LastMade(states[k].net.log, d)
  {
    hide Claimed, LastOn;
    var log := states[k].net.log;
    var i :| 0 <= i < k && ForgottenAt(states[i].disk, acts[i], log, d);
    var n := |acts[i].cut.log|;
    assert log == acts[i].cut.log + log[n..];
    LastAppend(acts[i].cut.log, log[n..], d);
  }

  // ----- an allocation that was never written -----

  lemma AllocMakes(c: Config, s: Net, pid: nat, vm: VmId, net: VmNet, s1: Net)
    requires ValidConfig(c) && StateOk(c, s.projects) && AllocStep(c, s, pid, vm, net, s1)
    ensures LastMade(s1.log, Tap(net.tap))
  {
    hide StateOk, Allocates, MakeCalls, Replay, Plausible, LastOn;
    var plan: AllocPlan :|
      plan.vmNet == net && Allocates(c, s.projects, pid, vm, TapFor(vm), Ok(plan), s1.projects)
      && Issued(s, MakeCalls(plan), s1);
    MakeLast(plan, Tap(net.tap));
    LastAppend(s.log, MakeCalls(plan), Tap(net.tap));
  }

  /** The TAP of an allocation whose write fails or never comes is forgotten by the next start. */
  lemma UnwrittenIsForgotten(c: Config, s: Life, pid: nat, vm: VmId, net: VmNet, s1: Life, s2: Life)
    requires ValidConfig(c) && ServeStep(c, s, Allocate(pid, vm, net), false, s1)
    requires StartStep(s1.disk, s1.net, s2) && Tap(net.tap) !in Claimed(s.disk)
    ensures ForgottenAt(s1.disk, Restart(s1.net), s2.net.log, Tap(net.tap))
  {
    hide StateOk, Named, Unused, AllocStep, StartStep, Claimed, LastMade, LastOn;
    AllocMakes(c, s.net, pid, vm, net, s1.net);
    StartLeaves(s1.disk, s1.net, s2, Tap(net.tap));
  }

  /** The first allocation on any supernet that hostd accepts. */
  lemma FirstPlan(c: Config, vm: VmId) returns (plan: AllocPlan, after: Projects)
    requires ValidConfig(c)
    ensures StateOk(c, map[]) && Allocates(c, map[], 1, vm, TapFor(vm), Ok(plan), after)
    ensures plan.setup.Some? && plan.setup.value.bridge == plan.bridge && plan.vmNet.tap == TapFor(vm)
  {
    var sub, name := SubnetOf(c, 0), BridgeName(1);
    assert name == BRIDGE_PREFIX + [Digit(1)];
    var gateway, guest := Host(sub, 1), Host(sub, 2);
    after := map[1 := Project(0, name, gateway, map[guest := vm])];
    plan := AllocPlan(name, Some(Setup(name, gateway, sub, c.supernet)),
                      VmNet(TapFor(vm), guest, gateway, sub, MacFromIp(guest)));
    assert Indices(map[]) == {};
    assert Founds(c, map[], 1, vm, TapFor(vm), plan, after);
  }

  /** hostd starts, allocates, cannot write its state, and starts again: the TAP stays, and is forgotten. */
  lemma ForgottenWitness(c: Config, vm: VmId) returns (states: seq<Life>, acts: seq<Act>)
    requires ValidConfig(c) && "vm-" <= vm
    ensures LivesRun(c, states, acts) && |acts| == 3 && states[3].up && states[3].net.projects == map[]
    ensures Forgotten(states, acts, 3, Tap(TapFor(vm))) && Tap(TapFor(vm)) in states[3].net.devices
  {
    var plan, after := FirstPlan(c, vm);
    var calls, bridge, tap := MakeCalls(plan), Bridge(plan.bridge), Tap(TapFor(vm));
    var empty := Net(map[], {}, []);
    var made := Net(after, {bridge, tap}, calls);
    var left := Net(map[], {tap}, calls + [Deleted(bridge, true)]);
    var s0, s1 := Life(empty, map[], false), Life(empty, map[], true);
    var s2, s3 := Life(made, map[], true), Life(left, map[], true);
    MadeFirst(c, vm, plan, after, made);
    StartsEmpty(empty, s1);
    StartsAgain(made, bridge, tap, s3);
    Uncut(c, s0);
    Uncut(c, s2);
    assert Claimed(map[]) == {};
    hide *;
    UnwrittenIsForgotten(c, s1, 1, vm, plan.vmNet, s2, s3);
    var serve := Serve(Allocate(1, vm, plan.vmNet), false);
    states, acts := ThreeSteps(c, s0, s1, serve, s2, s3);
    ForgottenNow(states, acts, 3, tap);
  }

  lemma ThreeSteps(c: Config, s0: Life, s1: Life, a: Act, s2: Life, s3: Life)
    returns (states: seq<Life>, acts: seq<Act>)
    requires ValidConfig(c) && s0.net.log == [] && s0.net.projects == map[] && !s0.up
    requires CutOff(c, s0, s0.net) && StartStep(s0.disk, s0.net, s1)
    requires LifeStep(c, s1, a, s2) && CutOff(c, s2, s2.net) && StartStep(s2.disk, s2.net, s3)
    ensures LivesRun(c, states, acts)
    ensures states == [s0, s1, s2, s3] && acts == [Restart(s0.net), a, Restart(s2.net)]
  {
    hide CutOff, StartStep, ServeStep;
    states, acts := [s0, s1, s2, s3], [Restart(s0.net), a, Restart(s2.net)];
  }

  lemma Uncut(c: Config, s: Life)
    requires ValidConfig(c)
    ensures CutOff(c, s, s.net)
  {
    assert Issued(s.net, [], s.net);
  }

  lemma MadeFirst(c: Config, vm: VmId, plan: AllocPlan, after: Projects, made: Net)
    requires ValidConfig(c) && "vm-" <= vm && StateOk(c, map[])
    requires Allocates(c, map[], 1, vm, TapFor(vm), Ok(plan), after) && plan.setup.Some?
    requires plan.setup.value.bridge == plan.bridge && plan.vmNet.tap == TapFor(vm)
    requires made == Net(after, {Bridge(plan.bridge), Tap(TapFor(vm))}, MakeCalls(plan))
    ensures var s := Life(Net(map[], {}, []), map[], true);
      ServeStep(c, s, Allocate(1, vm, plan.vmNet), false, Life(made, map[], true))
  {
    hide StateOk, Allocates, TapFor;
    TwoCalls(plan.bridge, plan.vmNet.tap);
    assert MakeCalls(plan)
           == [EnsuredBridge(plan.bridge, true, true), EnsuredTap(plan.vmNet.tap, plan.bridge, true, true)];
    hide MakeCalls, Replay, Plausible;
    assert [] + MakeCalls(plan) == MakeCalls(plan);
    assert Issued(Net(map[], {}, []), MakeCalls(plan), made);
    assert Named(map[]) && Unused(map[], 1, vm);
  }

  lemma TwoCalls(bridge: string, tap: string)
    ensures var calls := [EnsuredBridge(bridge, true, true), EnsuredTap(tap, bridge, true, true)];
      Replay({}, calls) == {Bridge(bridge), Tap(tap)} && Plausible({}, calls)
  {
    var first, second := EnsuredBridge(bridge, true, true), EnsuredTap(tap, bridge, true, true);
    ReplayOne({}, [], first);
    ReplayOne({}, [] + [first], second);
    assert [] + [first] + [second] == [first, second];
  }

  lemma StartsEmpty(empty: Net, s1: Life)
    requires empty == Net(map[], {}, []) && s1 == Life(empty, map[], true)
    ensures StartStep(map[], empty, s1)
  {
    assert Claimed(map[]) == {};
    assert Issued(empty, [], empty) && DeletesAll([], {});
  }

  lemma StartsAgain(made: Net, bridge: Device, tap: Device, s3: Life)
    requires made.devices == {bridge, tap} && bridge.Bridge? && tap.Tap?
    requires s3 == Life(Net(map[], {tap}, made.log + [Deleted(bridge, true)]), map[], true)
    ensures StartStep(map[], made, s3)
  {
    var calls := [Deleted(bridge, true)];
    assert Claimed(map[]) == {} && BridgesAmong(made.devices) == {bridge};
    ReplayOne(made.devices, [], calls[0]);
    assert [] + calls == calls && Issued(made, calls, s3.net);
    assert calls[..0] == [];
    LastIsInLog(calls, bridge);
  }
}
