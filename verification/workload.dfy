/**
 Workload records: hostd's view of a process in a guest (hostd/src/vmm/workload.rs), guestd's own
 table (guestd/src/agent.rs), and the events that carry one to the other
 (hostd/src/vmm/firecracker/guest.rs). Times are left out.
 */
module Workloads {

  import opened Wrappers

  type Id = string

  datatype State = Starting | Running | Exited | Stopped | Failed

  /** hostd's record. */
  datatype Record = Record(
    state: State, pid: Option<nat>, exitCode: Option<int>, signal: Option<int>, stopRequested: bool)

  function NewRecord(): Record {
    Record(Starting, None, None, None, false)
  }

  predicate Active(r: Record) {
    r.state.Starting? || r.state.Running?
  }

  function Rank(st: State): nat {
    match st
    case Starting => 0
    case Running => 1
    case _ => 2
  }

  function MarkedRunning(r: Record, pid: Option<nat>): Record {
    var r1 := if r.state.Starting? then r.(state := Running) else r;
    if pid.Some? then r1.(pid := pid) else r1
  }

  function MarkedFinished(r: Record, exitCode: Option<int>, signal: Option<int>): Record {
    if !Active(r) then r
    else r.(state := if r.stopRequested then Stopped else Exited, exitCode := exitCode, signal := signal)
  }

  function MarkedFailed(r: Record): Record {
    if Active(r) then r.(state := Failed) else r
  }

  /** One line of guestd's answer to `list`. */
  datatype Info = Info(id: Id, running: bool, exitCode: Option<int>, signal: Option<int>)

  datatype Event =
    | StartedEvent(id: Id, pid: nat)
    | ExitedEvent(id: Id, exitCode: Option<int>, signal: Option<int>)
    | ErrorEvent(id: Id)
    | ListResult(infos: seq<Info>)

  type Records = map<Id, Record>

  function ApplyInfo(r: Record, info: Info): Record {
    if info.running then MarkedRunning(r, None) else MarkedFinished(r, info.exitCode, info.signal)
  }

  function ApplyInfos(rs: Records, infos: seq<Info>): Records {
    if infos == [] then rs
    else
      var info := infos[0];
      ApplyInfos(if info.id in rs then rs[info.id := ApplyInfo(rs[info.id], info)] else rs, infos[1..])
  }

  /** What one event does to hostd's records. */
  function Apply(rs: Records, e: Event): Records {
    match e
    case ListResult(infos) => ApplyInfos(rs, infos)
    case StartedEvent(id, pid) => if id in rs then rs[id := MarkedRunning(rs[id], Some(pid))] else rs
    case ExitedEvent(id, code, sig) => if id in rs then rs[id := MarkedFinished(rs[id], code, sig)] else rs
    case ErrorEvent(id) => if id in rs then rs[id := MarkedFailed(rs[id])] else rs
  }

  // ----- the imperative form -----

  class Workload {

    var state: State
    var pid: Option<nat>
    var exitCode: Option<int>
    var signal: Option<int>
    var stopRequested: bool

    function Value(): Record
      reads this
    {
      Record(state, pid, exitCode, signal, stopRequested)
    }

    constructor ()
      ensures Value() == NewRecord()
    {
      state, pid, exitCode, signal, stopRequested := Starting, None, None, None, false;
    }

    predicate IsActive()
      reads this
    {
      state.Starting? || state.Running?
    }

    method MarkRunning(pid: Option<nat>)
      modifies this
      ensures Value() == MarkedRunning(old(Value()), pid)
    {
      if state == Starting {
        state := Running;
      }
      if pid.Some? {
        this.pid := pid;
      }
    }

    method MarkFinished(exitCode: Option<int>, signal: Option<int>)
      modifies this
      ensures Value() == MarkedFinished(old(Value()), exitCode, signal)
    {
      if !IsActive() {
        return;
      }
      state := if stopRequested then Stopped else Exited;
      this.exitCode := exitCode;
      this.signal := signal;
    }

    method MarkFailed()
      modifies this
      ensures Value() == MarkedFailed(old(Value()))
    {
      if IsActive() {
        state := Failed;
      }
    }
  }

  /** hostd's table of a VM's workloads. */
  class GuestView {

    var workloads: map<Id, Workload>

    /** Every id has a record of its own. */
    ghost predicate Valid()
      reads this
    {
      forall a, b :: a in workloads && b in workloads && workloads[a] == workloads[b] ==> a == b
    }

    ghost function Value(): Records
      reads this, workloads.Values
    {
      map id | id in workloads :: workloads[id].Value()
    }

    method HandleGuestEvent(e: Event)
      requires Valid()
      modifies workloads.Values
      ensures Valid() && workloads == old(workloads)
      ensures Value() == Apply(old(Value()), e)
    {
      match e {
        case StartedEvent(id, pid) =>
          if id in workloads { workloads[id].MarkRunning(Some(pid)); }
        case ExitedEvent(id, exitCode, signal) =>
          if id in workloads { workloads[id].MarkFinished(exitCode, signal); }
        case ErrorEvent(id) =>
          if id in workloads { workloads[id].MarkFailed(); }
        case ListResult(infos) =>
          for i := 0 to |infos|
            invariant Valid() && workloads == old(workloads)
            invariant ApplyInfos(Value(), infos[i..]) == ApplyInfos(old(Value()), infos)
          {
            assert infos[i..][0] == infos[i] && infos[i..][1..] == infos[i + 1..];
            ApplyOne(infos[i]);
          }
      }
    }

    /** One line of a `list` answer. */
    method ApplyOne(info: Info)
      requires Valid()
      modifies workloads.Values
      ensures Valid() && workloads == old(workloads)
      ensures var rs := old(Value());
        Value() == if info.id in rs then rs[info.id := ApplyInfo(rs[info.id], info)] else rs
    {
      if info.id in workloads {
        if info.running {
          workloads[info.id].MarkRunning(None);
        } else {
          workloads[info.id].MarkFinished(info.exitCode, info.signal);
        }
      }
    }
  }
}
