/**
 What a request handler leaves behind when it is dropped at an await, as it is when its client goes
 away (the handlers of hostd/src/proxy/http.rs and of the management API run inside the connection's
 task). The theorems of `Lifecycle` and `LifecycleRuns` are about runs without such drops.
 */
module LifecycleDrops {

  import opened Lifecycle
  import opened LifecycleRuns

  /** The awaits of a handler: a call to Firecracker, the wake lock, a pause in the wake loop, the guest. */
  predicate AtAwait(pc: Pc) {
    match pc
    case Running(phase, op, _, caller) =>
      !caller.Auto? && (phase.Calling? || (op.Snapshot? && (phase.Handed? || phase.CallErr?)))
    case WaitLock(_) => true
    case WakeLoop(_) => true
    case Forwarding => true
    case _ => false
  }

  /** Dropping a handler runs its guards' destructors and nothing else. */
  function Drop(s: Sys, t: nat): Sys
    requires t in s.tasks
  {
    var pc := s.tasks[t];
    if pc.Running? then Return(s, t, pc.caller, false)
    else if pc.WakeLoop? then Return(s, t, Waker(pc.proxied), false)
    else Finish(s, t, HoldsGuard(pc))
  }

  /** A VM in a transitional state that no operation will ever leave. */
  ghost predicate Orphaned(s: Sys) {
    && (exists op :: s.state == During(op))
    && forall t :: t in s.tasks ==> !InFlight(s.tasks[t])
  }

  /**
   A dropped handler always gives back its activity guard and the wake lock. If it had no operation in
   flight nothing else changes hands; if it had, the VM is orphaned in that operation's state, with or
   without its child as the operation left it.
   */
  lemma DropLeaves(states: seq<Sys>, acts: seq<Action>, k: nat, t: nat)
    requires Run(states, acts) && k < |states| && t in states[k].tasks && AtAwait(states[k].tasks[t])
    ensures var s, s' := states[k], Drop(states[k], t);
      && GuardInv(s') && WakeInv(s') && s'.state == s.state && s'.fc == s.fc
      && (if InFlight(s.tasks[t]) then Orphaned(s') && s'.state == During(s.tasks[t].op) else Inv(s'))
  {
    RunKeepsInv(states, acts, k);
    OneOperationInFlight(states, acts, k);
    hide Run;
    var s := states[k];
    var pc := s.tasks[t];
    var o :| Owned(s, o);
    var after := DropStep(s, t);
    hide GuardInv, WakeInv, TaskStep, Owned;
    TaskStepKeeps(s, Drop(s, t), t, after, o);
    if !InFlight(pc) {
      QuietStep(s, Drop(s, t), t, after, o);
    }
  }

  lemma DropStep(s: Sys, t: nat) returns (pc: Pc)
    requires t in s.tasks && AtAwait(s.tasks[t])
    ensures TaskStep(s, Drop(s, t), t, pc) && OnlyTask(s, Drop(s, t), t, pc) && !InFlight(pc)
  {
    var before := s.tasks[t];
    hide Return, Finish;
    if before.Running? {
      pc := ReturnStep(s, t, before.caller, false);
    } else if before.WakeLoop? {
      pc := ReturnStep(s, t, Waker(before.proxied), false);
    } else {
      FinishStep(s, t, HoldsGuard(before));
      FinishShape(s, t, HoldsGuard(before));
      pc := Finished;
    }
  }

  /** A run with a pause in flight, and so an orphaned VM once its handler is dropped. */
  lemma OrphanWitness() returns (states: seq<Sys>, acts: seq<Action>)
    ensures Run(states, acts)
    ensures var s := states[|acts|];
      1 in s.tasks && AtAwait(s.tasks[1]) && Orphaned(Drop(s, 1)) && Drop(s, 1).state.Pausing?
  {
    var s0 := Initial().(state := Started, tasks := map[0 := Finished]);
    states, acts := Launch(s0);
    states, acts := Begin(states, acts, s0, 1, Pause);
    assert InFlight(states[|acts|].tasks[1]);
    DropLeaves(states, acts, |acts|, 1);
  }

  /** In a transitional state no operation begins: its `transition` is refused. */
  lemma OrphanRefuses(s: Sys, t: nat, good: bool) returns (pc: Pc)
    requires Orphaned(s) && t in s.tasks && s.tasks[t].Running?
    ensures OnlyTask(s, StepOp(s, t, s.tasks[t], good), t, pc) && !InFlight(pc)
  {
    hide Return, Settle;
    pc := ReturnShape(s, t, s.tasks[t].caller, false);
    if s.tasks[t].phase.Fetch? && s.registered && (s.tasks[t].op.Restore? ==> s.snapshot) {
      pc := s.tasks[t].(phase := Begun);
    }
  }

  lemma OrphanKept(s: Sys, s': Sys, t: nat, pc: Pc)
    requires Orphaned(s) && OnlyTask(s, s', t, pc) && !InFlight(pc)
    ensures Orphaned(s') && s'.state == s.state
  {
  }

  /** No step gets an orphaned VM out of its state, and no operation on it ever begins. */
  lemma OrphanStays(s: Sys, a: Action)
    requires Orphaned(s)
    ensures Orphaned(Do(s, a)) && Do(s, a).state == s.state
  {
    hide Orphaned, StepOp, StepTask, InFlight, TaskStep;
    var s' := Do(s, a);
    match a {
      case Advance(t, good) =>
        if t in s.tasks {
          var b := s.tasks[t];
          var pc: Pc;
          if b.Running? {
            assert StepTask(s, t, b, good) == StepOp(s, t, b, good) by { OpIsStep(s, t, b, good); }
            pc := OrphanRefuses(s, t, good);
          } else if b.Gate? || b.GateStarted? || b.GateQuiet? {
            pc := GateTaskStep(s, t, good);
          } else if b.WaitLock? || b.WakeLoop? || b.Finished? {
            pc := WaiterTaskStep(s, t, good);
          } else {
            pc := ProxyTaskStep(s, t, good);
          }
          OrphanKept(s, s', t, pc);
        }
      case Proxy(t) =>
        if t !in s.tasks {
          NotInFlight(Tracked);
          OrphanKept(s, s', t, Tracked);
        }
      case Destroy => DestroyOrphan(s);
      case _ =>
        if a.t !in s.tasks {
          SpawnStep(s, a);
          OrphanKept(s, s', a.t, Fresh(s, a));
        }
    }
  }

  lemma OpIsStep(s: Sys, t: nat, pc: Pc, good: bool)
    requires pc.Running?
    ensures StepTask(s, t, pc, good) == StepOp(s, t, pc, good)
  {
  }

  lemma NotInFlight(pc: Pc)
    requires !pc.Running?
    ensures !InFlight(pc)
  {
  }

  lemma DestroyOrphan(s: Sys)
    requires Orphaned(s)
    ensures Orphaned(Do(s, Destroy)) && Do(s, Destroy).state == s.state
  {
    hide StepTask;
  }

  lemma {:induction false} OrphanedForEver(states: seq<Sys>, acts: seq<Action>, k: nat)
    requires |states| == |acts| + 1 && k < |states| && Orphaned(states[0])
    requires forall i {:trigger acts[i]} :: 0 <= i < |acts| ==> states[i + 1] == Do(states[i], acts[i])
    ensures Orphaned(states[k]) && states[k].state == states[0].state
  {
    if k > 0 {
      hide Do, Orphaned;
      OrphanedForEver(states, acts, k - 1);
      assert states[k] == Do(states[k - 1], acts[k - 1]);
      OrphanStays(states[k - 1], acts[k - 1]);
    }
  }
}
