/**
 The bridges and TAP devices on the host (hostd/src/net/host.rs), behind commands that may fail.
 A ghost log keeps every command with its outcome, so that contracts can say which were issued.
 */
module HostNets {

  import opened Wrappers

  datatype Device = Bridge(name: string) | Tap(name: string)

  /** A command and how it ended; `there` says whether the device was on the host afterwards. */
  datatype Call =
    | EnsuredBridge(bridge: string, ok: bool, there: bool)
    | EnsuredTap(tap: string, master: string, ok: bool, there: bool)
    | Deleted(dev: Device, ok: bool)

  function On(call: Call): Device {
    match call
    case EnsuredBridge(b, _, _) => Bridge(b)
    case EnsuredTap(t, _, _, _) => Tap(t)
    case Deleted(d, _) => d
  }

  function Leaves(call: Call): bool {
    if call.Deleted? then !call.ok else call.there
  }

  /**
   Setting up never removes a device, and is complete only with it there; a TAP needs its bridge.
   Deleting looks first whether the device is there, so it fails only on one that is.
   */
  predicate Honest(devices: set<Device>, call: Call) {
    match call
    case Deleted(d, ok) => !ok ==> d in devices
    case EnsuredBridge(b, ok, there) => ok || Bridge(b) in devices ==> there
    case EnsuredTap(t, b, ok, there) => (ok || Tap(t) in devices ==> there) && (ok ==> Bridge(b) in devices)
  }

  function Effect(devices: set<Device>, call: Call): set<Device> {
    if Leaves(call) then devices + {On(call)} else devices - {On(call)}
  }

  function Replay(devices: set<Device>, log: seq<Call>): set<Device> {
    if log == [] then devices else Effect(Replay(devices, log[..|log| - 1]), log[|log| - 1])
  }

  predicate Plausible(devices: set<Device>, log: seq<Call>) {
    log == [] ||
    (Plausible(devices, log[..|log| - 1]) && Honest(Replay(devices, log[..|log| - 1]), log[|log| - 1]))
  }

  /** The latest command about a device. */
  function LastOn(log: seq<Call>, d: Device): Option<Call> {
    if log == [] then None
    else if On(log[|log| - 1]) == d then Some(log[|log| - 1])
    else LastOn(log[..|log| - 1], d)
  }

  /** The latest command about the device was a deletion, and failed. */
  predicate Stuck(log: seq<Call>, d: Device) {
    var last := LastOn(log, d);
    last.Some? && last.value.Deleted? && !last.value.ok
  }

  predicate AllDeleted(log: seq<Call>) {
    forall call :: call in log && call.Deleted? ==> call.ok
  }

  lemma {:induction false} LastAppend(a: seq<Call>, b: seq<Call>, d: Device)
    ensures LastOn(a + b, d) == if LastOn(b, d).Some? then LastOn(b, d) else LastOn(a, d)
  {
    if b == [] {
      assert a + b == a;
    } else {
      LastAppend(a, b[..|b| - 1], d);
      assert (a + b)[..|a + b| - 1] == a + b[..|b| - 1];
    }
  }

  lemma {:induction false} ReplayAppend(devices: set<Device>, a: seq<Call>, b: seq<Call>)
    ensures Replay(devices, a + b) == Replay(Replay(devices, a), b)
    ensures Plausible(devices, a + b) <==> Plausible(devices, a) && Plausible(Replay(devices, a), b)
  {
    if b == [] {
      assert a + b == a;
    } else {
      ReplayAppend(devices, a, b[..|b| - 1]);
      assert (a + b)[..|a + b| - 1] == a + b[..|b| - 1];
    }
  }

  /** A device is on the host as its latest command left it, or as it was found. */
  lemma {:induction false} ReplayLast(devices: set<Device>, log: seq<Call>, d: Device)
    ensures d in Replay(devices, log) <==>
            if LastOn(log, d).Some? then Leaves(LastOn(log, d).value) else d in devices
  {
    if log != [] {
      ReplayLast(devices, log[..|log| - 1], d);
    }
  }

  lemma {:induction false} LastIsInLog(log: seq<Call>, d: Device)
    ensures LastOn(log, d).Some? ==> LastOn(log, d).value in log && On(LastOn(log, d).value) == d
    ensures LastOn(log, d).Some? <==> exists call :: call in log && On(call) == d
  {
    if log != [] {
      LastIsInLog(log[..|log| - 1], d);
      assert log == log[..|log| - 1] + [log[|log| - 1]];
    }
  }

  /** Deletions, failed ones included, bring no device. */
  lemma {:induction false} DeletionsShrink(devices: set<Device>, log: seq<Call>)
    requires Plausible(devices, log) && forall call: Call :: call in log ==> call.Deleted?
    ensures Replay(devices, log) <= devices
  {
    if log != [] {
      assert log[|log| - 1] in log && forall call :: call in log[..|log| - 1] ==> call in log;
      DeletionsShrink(devices, log[..|log| - 1]);
    }
  }

  class HostNet {

    var devices: set<Device>
    ghost var log: seq<Call>

    constructor (devices: set<Device>)
      ensures this.devices == devices && log == []
    {
      this.devices, this.log := devices, [];
    }

    /** Create the bridge unless it is there, then address it and add its rules; a late step may fail. */
    method EnsureBridge(name: string) returns (ok: bool)
      modifies this
      ensures exists there ::
        var call := EnsuredBridge(name, ok, there);
        log == old(log) + [call] && devices == Effect(old(devices), call) && Honest(old(devices), call)
    {
      ok := *;
      var there: bool := *;
      there := there || ok || Bridge(name) in devices;
      ghost var call := EnsuredBridge(name, ok, there);
      log := log + [call];
      if there {
        devices := devices + {Bridge(name)};
      }
    }

    /** Create the TAP unless it is there, then enslave it to its bridge. */
    method EnsureTap(name: string, bridge: string) returns (ok: bool)
      modifies this
      ensures exists there ::
        var call := EnsuredTap(name, bridge, ok, there);
        log == old(log) + [call] && devices == Effect(old(devices), call) && Honest(old(devices), call)
    {
      ok := *;
      var there: bool := *;
      ok := ok && Bridge(bridge) in devices;
      there := there || ok || Tap(name) in devices;
      ghost var call := EnsuredTap(name, bridge, ok, there);
      log := log + [call];
      if there {
        devices := devices + {Tap(name)};
      }
    }

    /** Delete a bridge or a TAP if it is there. */
    method Delete(d: Device) returns (ok: bool)
      modifies this
      ensures log == old(log) + [Deleted(d, ok)]
      ensures devices == Effect(old(devices), Deleted(d, ok)) && Honest(old(devices), Deleted(d, ok))
    {
      ok := *;
      ok := ok || d !in devices;
      log := log + [Deleted(d, ok)];
      if ok {
        devices := devices - {d};
      }
    }
  }
}
