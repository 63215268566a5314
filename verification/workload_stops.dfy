/**
 Stop requests: which records carry one, and which finished workloads are shown as stopped
 (hostd/src/vmm/firecracker/vmm.rs:548-585, hostd/src/vmm/workload.rs:133-145).
 */
module WorkloadStops {

  import opened Workloads
  import opened WorkloadSync
  import opened Wrappers

  /** A stop request meets the record while it is active. */
  predicate Asks(s: Sys, a: Action, id: Id) {
    a == RequestStop(id) && id in s.host && (s.host[id].state.Starting? || s.host[id].state.Running?)
  }

  /** A stop was asked for before step `k`, and no such request has failed to be queued since. */
  ghost predicate StopStands(states: seq<Sys>, acts: seq<Action>, k: nat, id: Id)
    requires k <= |acts| && k < |states|
  {
    exists j :: 0 <= j < k && Asks(states[j], acts[j], id) && forall m :: j < m < k ==> acts[m] != StopNotQueued(id)
  }

  lemma StopStandsMore(states: seq<Sys>, acts: seq<Action>, k: nat, id: Id)
    requires k < |acts| && k + 1 < |states|
    ensures StopStands(states, acts, k + 1, id)
            <==> Asks(states[k], acts[k], id) || (StopStands(states, acts, k, id) && acts[k] != StopNotQueued(id))
  {
    hide Asks;
    if StopStands(states, acts, k, id) && acts[k] != StopNotQueued(id) {
      var j :| 0 <= j < k && Asks(states[j], acts[j], id) && forall m :: j < m < k ==> acts[m] != StopNotQueued(id);
      assert forall m :: j < m < k + 1 ==> acts[m] != StopNotQueued(id);
    }
    if StopStands(states, acts, k + 1, id) && !Asks(states[k], acts[k], id) {
      var j :| 0 <= j < k + 1 && Asks(states[j], acts[j], id)
               && forall m :: j < m < k + 1 ==> acts[m] != StopNotQueued(id);
      assert j < k && forall m :: j < m < k ==> acts[m] != StopNotQueued(id);
    }
  }

  /** What one step does to a record's flag. */
  lemma FlagStep(s: Sys, a: Action, id: Id)
    requires Inv(s) && id in Do(s, a).host
    ensures Do(s, a).host[id].stopRequested <==>
      Asks(s, a, id) || (id in s.host && s.host[id].stopRequested && a != StopNotQueued(id))
  {
    hide Lists, ApplyInfos;
    if a.Deliver? && a.e in s.sent {
      EventKeeps(s, a.e);
    }
  }

  /** Over every run, a record carries the flag if and only if a stop stands. */
  lemma {:induction false} FlagIffStopStands(states: seq<Sys>, acts: seq<Action>, k: nat, id: Id)
    requires Run(states, acts) && k < |states| && id in states[k].host
    ensures states[k].host[id].stopRequested <==> StopStands(states, acts, k, id)
    decreases k
  {
    if k > 0 {
      var s, a := states[k - 1], acts[k - 1];
      assert states[k] == Do(s, a);
      RunKeepsInv(states, acts, k - 1);
      FlagStep(s, a, id);
      StopStandsMore(states, acts, k - 1, id);
      if id in s.host {
        FlagIffStopStands(states, acts, k - 1, id);
      } else {
        NoStopBefore(states, acts, k - 1, id);
      }
      hide *;
    }
  }

  /** Nobody asks to stop a workload before it has a record. */
  lemma NoStopBefore(states: seq<Sys>, acts: seq<Action>, k: nat, id: Id)
    requires Run(states, acts) && k < |states| && id !in states[k].host
    ensures !StopStands(states, acts, k, id)
  {
    hide Do;
    forall j | 0 <= j < k ensures !Asks(states[j], acts[j], id) {
      if id in states[j].host { RecordsMoveForward(states, acts, j, k, id); }
    }
  }

  /** A record that is over and did not fail. */
  predicate Ended(r: Record) {
    r.state.Exited? || r.state.Stopped?
  }

  lemma EndStep(s: Sys, a: Action, id: Id)
    requires Inv(s) && id in Do(s, a).host && Ended(Do(s, a).host[id])
    ensures id in s.host
    ensures if Active(s.host[id]) then Do(s, a).host[id].state.Stopped? <==> s.host[id].stopRequested
            else Do(s, a).host[id].state == s.host[id].state
  {
    hide Lists, ApplyInfos;
    if a.Deliver? && a.e in s.sent {
      EventKeeps(s, a.e);
    }
  }

  /** A finished workload is shown as stopped if and only if a stop stood when its end was applied. */
  lemma {:induction false} StoppedIff(states: seq<Sys>, acts: seq<Action>, k: nat, id: Id) returns (i: nat)
    requires Run(states, acts) && k < |states| && id in states[k].host && Ended(states[k].host[id])
    ensures i < k && id in states[i].host && Active(states[i].host[id])
    ensures id in states[i + 1].host && !Active(states[i + 1].host[id])
    ensures states[k].host[id].state.Stopped? <==> StopStands(states, acts, i, id)
    decreases k
  {
    var s, a := states[k - 1], acts[k - 1];
    assert states[k] == Do(s, a);
    RunKeepsInv(states, acts, k - 1);
    EndStep(s, a, id);
    hide Do, Inv, StopStands;
    if Active(s.host[id]) {
      i := k - 1;
      FlagIffStopStands(states, acts, i, id);
    } else {
      i := StoppedIff(states, acts, k - 1, id);
    }
  }

  /** So a workload that nobody asked to stop is never shown as stopped. */
  lemma NeverAskedNeverStopped(states: seq<Sys>, acts: seq<Action>, k: nat, id: Id)
    requires Run(states, acts) && k < |states| && id in states[k].host
    requires forall j :: 0 <= j < k ==> acts[j] != RequestStop(id)
    ensures !states[k].host[id].state.Stopped?
  {
    hide Run;
    if states[k].host[id].state.Stopped? {
      var i := StoppedIff(states, acts, k, id);
    }
  }

  // ----- what guestd's reports come to -----

  /** A start that guestd reports shows the record running, with the process id. */
  lemma StartIsShown(s: Sys, id: Id, pid: nat)
    requires Inv(s) && id in s.asked && id !in s.handled && id in s.host && s.host[id].state.Starting?
    ensures var s' := Do(Do(s, GuestStart(id, pid, true)), Deliver(StartedEvent(id, pid)));
      id in s'.host && s'.host[id].state.Running? && s'.host[id].pid == Some(pid)
  {
    hide Lists, ApplyInfos, Inv;
  }

  /** An exit that guestd reports ends an active record with exactly its result. */
  lemma ExitIsShown(s: Sys, id: Id)
    requires Inv(s) && id in s.guest && s.guest[id].result.Some? && id in s.host && Active(s.host[id])
    ensures var r := s.guest[id].result.value;
      var s' := Do(Do(s, ReportExit(id)), Deliver(ExitedEvent(id, r.exitCode, r.signal)));
      && id in s'.host && s'.host[id].state == (if s.host[id].stopRequested then Stopped else Exited)
      && s'.host[id].exitCode == r.exitCode && s'.host[id].signal == r.signal
  {
    hide Lists, ApplyInfos, Inv;
  }

  /** A workload, asked to stop while it runs, that then dies of signal 15: it is shown as stopped. */
  lemma StoppedWitness(id: Id) returns (states: seq<Sys>, acts: seq<Action>)
    ensures Run(states, acts) && |acts| == 7 && id in states[7].host
    ensures states[7].host[id] == Record(Stopped, Some(1), None, Some(15), true)
  {
    acts := [Register(id), GuestStart(id, 1, true), Deliver(StartedEvent(id, 1)), RequestStop(id),
             Reap(id, Result(None, Some(15))), ReportExit(id), Deliver(ExitedEvent(id, None, Some(15)))];
    var s1 := Do(Initial(), acts[0]);
    var s2 := Do(s1, acts[1]);
    var s3 := Do(s2, acts[2]);
    var s4 := Do(s3, acts[3]);
    var s5 := Do(s4, acts[4]);
    var s6 := Do(s5, acts[5]);
    states := [Initial(), s1, s2, s3, s4, s5, s6, Do(s6, acts[6])];
    hide Lists, ApplyInfos;
  }
}
