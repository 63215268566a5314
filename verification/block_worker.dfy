/**
 Supervision of one VM's block worker (hostd/src/storage/manager.rs): the monitor task, which owns
 and respawns the worker process, races `detach` through the shared map entry. A step is one lock
 scope, one process event or one await; workers may die and spawns may fail at any time.
 */
module BlockWorkers {

  import opened Wrappers

  const MAX_RESPAWNS := 3

  datatype Entry = Entry(pid: nat, respawns: nat)

  /** Where `attach` stands: before its spawn, then before the insertion, then before the monitor starts. */
  datatype Attach = NotCalled | Spawned(pid: nat) | Inserted(pid: nat) | Attached

  datatype Monitor =
    | NotStarted
    | Waiting(child: nat)
    | Exited(child: nat)
    | Backoff(child: nat)
    | Recovered(pid: nat)
    | SpawnFailed(child: nat)
    | Stopping(pid: nat)
    | Ended

  /**
   `live` are the worker processes alive, `next` the first process id not used so far, `kills`
   the ids `detach` has taken from the map and is about to signal, `attempts` the respawns tried,
   `reaped` the ids whose exit the monitor has collected, which the system may give out again.
   */
  datatype Sys = Sys(
    attach: Attach, entry: Option<Entry>, monitor: Monitor, live: set<nat>, kills: set<nat>,
    next: nat, attempts: nat, reaped: set<nat>)

  datatype Action = AttachStep(good: bool) | MonitorStep(good: bool) | Detach | Kill(pid: nat) | Crash(pid: nat)

  function Initial(): Sys {
    Sys(NotCalled, None, NotStarted, {}, {}, 0, 0, {})
  }

  function StepAttach(s: Sys, good: bool): Sys {
    match s.attach
    case NotCalled =>
      if good then s.(attach := Spawned(s.next), live := s.live + {s.next}, next := s.next + 1) else s
    case Spawned(pid) => s.(attach := Inserted(pid), entry := Some(Entry(pid, 0)))
    case Inserted(pid) => s.(attach := Attached, monitor := Waiting(pid))
    case Attached => s
  }

  function StepMonitor(s: Sys, good: bool): Sys {
    match s.monitor
    case NotStarted => s
    case Waiting(child) => if child in s.live then s else s.(monitor := Exited(child), reaped := s.reaped + {child})
    case Exited(child) =>
      if s.entry.None? || s.entry.value.respawns >= MAX_RESPAWNS then s.(monitor := Ended)
      else s.(monitor := Backoff(child))
    case Backoff(child) =>
      if good then
        s.(monitor := Recovered(s.next), live := s.live + {s.next}, next := s.next + 1, attempts := s.attempts + 1)
      else s.(monitor := SpawnFailed(child), attempts := s.attempts + 1)
    case Recovered(pid) =>
      if s.entry.None? then s.(monitor := Stopping(pid))
      else s.(monitor := Waiting(pid), entry := Some(Entry(pid, s.entry.value.respawns + 1)))
    case SpawnFailed(child) =>
      if s.entry.None? then s.(monitor := Ended)
      else
        var n := s.entry.value.respawns + 1;
        s.(entry := Some(s.entry.value.(respawns := n)),
           monitor := if n >= MAX_RESPAWNS then Ended else Waiting(child))
    case Stopping(pid) => s.(live := s.live - {pid}, monitor := Ended, reaped := s.reaped + {pid})
    case Ended => s
  }

  function Do(s: Sys, a: Action): Sys {
    match a
    case AttachStep(good) => StepAttach(s, good)
    case MonitorStep(good) => StepMonitor(s, good)
    case Detach => if s.entry.Some? then s.(entry := None, kills := s.kills + {s.entry.value.pid}) else s
    case Kill(pid) => if pid in s.kills then s.(live := s.live - {pid}, kills := s.kills - {pid}) else s
    case Crash(pid) => s.(live := s.live - {pid})
  }

  ghost predicate Run(states: seq<Sys>, acts: seq<Action>) {
    && |states| == |acts| + 1
    && states[0] == Initial()
    && forall k {:trigger acts[k]} :: 0 <= k < |acts| ==> states[k + 1] == Do(states[k], acts[k])
  }

  /** The process that may be alive, according to where `attach` and the monitor stand. */
  function Current(s: Sys): set<nat> {
    match s.monitor
    case NotStarted =>
      (match s.attach
       case Spawned(pid) => {pid}
       case Inserted(pid) => {pid}
       case _ => {})
    case Waiting(child) => {child}
    case Recovered(pid) => {pid}
    case Stopping(pid) => {pid}
    case _ => {}
  }

  /** A live worker that is known to the map, or was when `detach` took it. */
  predicate Tracked(s: Sys, pid: nat) {
    if s.entry.Some? then s.entry.value.pid == pid else pid in s.kills
  }

  ghost predicate Inv(s: Sys) {
    && s.live <= Current(s)
    && (forall p :: p in Current(s) || p in s.kills ==> p < s.next)
    && (s.entry.Some? ==> s.entry.value.pid < s.next)
    && (s.monitor.Exited? || s.monitor.Backoff? || s.monitor.SpawnFailed? ==> s.monitor.child < s.next)
    && (s.monitor.NotStarted? <==> !s.attach.Attached?)
    && (s.attach.NotCalled? || s.attach.Spawned? ==> s.entry.None? && s.kills == {})
    && (s.monitor.NotStarted? ==> s.attempts == 0 && (s.entry.Some? ==> s.entry.value.respawns == 0))
    && (s.monitor.NotStarted? && s.attach.Inserted? && s.attach.pid in s.live ==> Tracked(s, s.attach.pid))
    && (s.monitor.Waiting? && s.monitor.child in s.live ==> Tracked(s, s.monitor.child))
    && s.attempts <= MAX_RESPAWNS
    && (s.entry.Some? ==>
          s.attempts == s.entry.value.respawns + if s.monitor.Recovered? || s.monitor.SpawnFailed? then 1 else 0)
    && (s.monitor.Backoff? ==> s.attempts < MAX_RESPAWNS)
    && (s.monitor.Ended? && s.entry.Some? ==> s.attempts == MAX_RESPAWNS)
    && (s.monitor.Stopping? ==> s.entry.None?)
    && (forall p :: p in s.reaped ==> p < s.next && p !in s.live)
    && (s.monitor.Exited? || s.monitor.Backoff? || s.monitor.SpawnFailed? ==> s.monitor.child in s.reaped)
    && (s.monitor.NotStarted? ==> s.reaped == {})
    && (s.entry.Some? ==>
          match s.monitor
          case NotStarted => s.attach.Inserted? && s.entry.value.pid == s.attach.pid
          case Waiting(child) => s.entry.value.pid == child
          case Exited(child) => s.entry.value.pid == child
          case Backoff(child) => s.entry.value.pid == child
          case SpawnFailed(child) => s.entry.value.pid == child
          case _ => s.entry.value.pid in s.reaped)
  }

  lemma DoKeepsInv(s: Sys, a: Action)
    requires Inv(s)
    ensures Inv(Do(s, a))
  {
  }

  lemma {:induction false} RunKeepsInv(states: seq<Sys>, acts: seq<Action>, k: nat)
    requires Run(states, acts) && k < |states|
    ensures Inv(states[k])
  {
    if k > 0 {
      hide Do, Inv;
      RunKeepsInv(states, acts, k - 1);
      DoKeepsInv(states[k - 1], acts[k - 1]);
    }
  }

  /** A VM never has two live workers. */
  lemma OneLiveWorker(states: seq<Sys>, acts: seq<Action>, k: nat, p: nat, q: nat)
    requires Run(states, acts) && k < |states| && p in states[k].live && q in states[k].live
    ensures p == q
  {
    RunKeepsInv(states, acts, k);
  }

  /** When the monitor has ended and every `detach` has signalled, no worker is left. */
  lemma NoneLeft(states: seq<Sys>, acts: seq<Action>, k: nat)
    requires Run(states, acts) && k < |states| && states[k].monitor.Ended?
    ensures states[k].live == {}
  {
    RunKeepsInv(states, acts, k);
  }

  /**
   While the monitor waits on a live worker, a `detach` that starts now signals that worker, and
   one that has taken the entry is about to: the signal never misses.
   */
  lemma DetachFindsWorker(states: seq<Sys>, acts: seq<Action>, k: nat, p: nat)
    requires Run(states, acts) && k < |states| && states[k].monitor.Waiting? && p in states[k].live
    ensures p in Do(states[k], Detach).kills
  {
    RunKeepsInv(states, acts, k);
  }

  /** An attach ends with a live worker in the map and a monitor waiting on it. */
  lemma AttachWorks()
    ensures var s := Do(Do(Do(Initial(), AttachStep(true)), AttachStep(true)), AttachStep(true));
      s.attach.Attached? && s.live == {0} && s.entry == Some(Entry(0, 0)) && s.monitor == Waiting(0)
  {
  }

  /** A worker that dies while the VM is attached is replaced, until the limit: four steps, the spawn succeeding. */
  lemma RespawnReplaces(states: seq<Sys>, acts: seq<Action>, k: nat)
    requires Run(states, acts) && k < |states|
    requires states[k].monitor.Waiting? && states[k].monitor.child !in states[k].live
    requires states[k].entry.Some? && states[k].entry.value.respawns < MAX_RESPAWNS
    ensures var s, a := states[k], MonitorStep(true);
      var s' := Do(Do(Do(Do(s, a), a), a), a);
      && s'.live == {s.next} && s'.monitor == Waiting(s.next)
      && s'.entry == Some(Entry(s.next, s.entry.value.respawns + 1))
  {
    RunKeepsInv(states, acts, k);
  }

  /** A detach takes the entry, and its signal ends the worker the monitor waits on. */
  lemma DetachKills(states: seq<Sys>, acts: seq<Action>, k: nat, p: nat)
    requires Run(states, acts) && k < |states| && states[k].entry.Some?
    requires states[k].monitor.Waiting? && p in states[k].live
    ensures var s' := Do(Do(states[k], Detach), Kill(p));
      s'.entry.None? && s'.live == {} && p !in s'.kills
  {
    RunKeepsInv(states, acts, k);
  }

  /**
   Outside the wait for a live worker the entry keeps an id already collected: through the back-off,
   while a respawn is being noted, after a failed one, and for ever once the limit is reached. A
   `detach` then signals that id, and so whatever process the system has given it to.
   */
  lemma DetachTakesReapedIff(states: seq<Sys>, acts: seq<Action>, k: nat)
    requires Run(states, acts) && k < |states| && states[k].attach.Attached? && states[k].entry.Some?
    ensures var s := states[k];
      && (s.entry.value.pid in s.reaped <==> !s.monitor.Waiting? || s.monitor.child in s.reaped)
      && (s.monitor.Waiting? ==> s.entry.value.pid == s.monitor.child)
      && (s.entry.value.pid in s.reaped ==> Do(Do(s, Detach), Kill(s.entry.value.pid)).live == s.live)
  {
    RunKeepsInv(states, acts, k);
  }

  /** A worker dies, the monitor collects it, and a detach takes its id. */
  lemma ReapedWitness() returns (states: seq<Sys>, acts: seq<Action>)
    ensures Run(states, acts) && |acts| == 6
    ensures var s := states[5];
      s.attach.Attached? && s.entry == Some(Entry(0, 0)) && s.reaped == {0} && s.live == {}
    ensures states[6].kills == {0}
  {
    acts := [AttachStep(true), AttachStep(true), AttachStep(true), Crash(0), MonitorStep(true), Detach];
    var s1 := Do(Initial(), acts[0]);
    var s2 := Do(s1, acts[1]);
    var s3 := Do(s2, acts[2]);
    var s4 := Do(s3, acts[3]);
    var s5 := Do(s4, acts[4]);
    states := [Initial(), s1, s2, s3, s4, s5, Do(s5, acts[5])];
    assert s4.live == {};
  }

  lemma BoundedAttempts(states: seq<Sys>, acts: seq<Action>, k: nat)
    requires Run(states, acts) && k < |states|
    ensures states[k].attempts <= MAX_RESPAWNS
    ensures states[k].entry.Some? ==> states[k].entry.value.respawns <= states[k].attempts
  {
    RunKeepsInv(states, acts, k);
  }

  /** While the VM is attached, the monitor gives up only after `MAX_RESPAWNS` attempts. */
  lemma GivesUpAtLimit(states: seq<Sys>, acts: seq<Action>, k: nat)
    requires Run(states, acts) && k < |states| && states[k].monitor.Ended? && states[k].entry.Some?
    ensures states[k].attempts == MAX_RESPAWNS
  {
    RunKeepsInv(states, acts, k);
  }

  /** Steps the monitor can still take: it falls with every step, and never rises. */
  function Fuel(s: Sys): nat
    requires s.attempts <= MAX_RESPAWNS
  {
    var rounds := 5 * (MAX_RESPAWNS - s.attempts);
    match s.monitor
    case NotStarted => rounds + 4
    case Waiting(_) => rounds + 3
    case Exited(_) => rounds + 2
    case Backoff(_) => rounds + 1
    case Recovered(_) => rounds + 4
    case SpawnFailed(_) => rounds + 4
    case Stopping(_) => 1
    case Ended => 0
  }

  lemma MonitorTerminates(states: seq<Sys>, acts: seq<Action>, k: nat)
    requires Run(states, acts) && k < |acts|
    ensures states[k].attempts <= MAX_RESPAWNS && states[k + 1].attempts <= MAX_RESPAWNS
    ensures Fuel(states[k + 1]) <= Fuel(states[k])
    ensures acts[k].MonitorStep? && states[k + 1] != states[k] ==> Fuel(states[k + 1]) < Fuel(states[k])
  {
    RunKeepsInv(states, acts, k);
    RunKeepsInv(states, acts, k + 1);
    assert states[k + 1] == Do(states[k], acts[k]);
  }

  /** Once `detach` has taken the entry and signalled, three steps of the monitor end it and leave no worker. */
  lemma DetachedMonitorEnds(states: seq<Sys>, acts: seq<Action>, k: nat, good: bool)
    requires Run(states, acts) && k < |states|
    requires states[k].attach.Attached? && states[k].entry.None? && states[k].kills == {}
    ensures var s1 := Do(states[k], MonitorStep(good));
      var s2 := Do(s1, MonitorStep(good));
      var s3 := Do(s2, MonitorStep(good));
      s3.monitor.Ended? && s3.live == {}
  {
    RunKeepsInv(states, acts, k);
  }
}
