/**
 Theorems about whole runs of the lifecycle: what a transitional state says about the past,
 when a rollback restores the state it started from, and which proxied requests an
 auto-suspend can overlap.
 */
module LifecycleRuns {

  import opened Lifecycle

  /** A step moves the task it names and no other, and only `track` advances the clock. */
  lemma StepEffect(s: Sys, a: Action)
    requires Inv(s)
    ensures var s' := Do(s, a);
      && (forall u :: u in s.tasks ==> u in s'.tasks)
      && (forall u :: u in s'.tasks && (a.Destroy? || a.t != u) ==> u in s.tasks && s'.tasks[u] == s.tasks[u])
      && (s'.registered ==> s.registered)
      && (if a.Proxy? && a.t !in s.tasks then s'.stamps == s.stamps[a.t := s.clock] && s'.clock == s.clock + 1
          else s'.stamps == s.stamps && s'.clock == s.clock)
  {
    hide StepTask, GuardInv, WakeInv, GateStep, WindowStep, WakeStep, Owned;
    var o :| Owned(s, o);
    if a.Advance? && a.t in s.tasks {
      var pc, owner := StepTaskFacts(s, a.t, a.good, o);
      assert CountStep(s, Do(s, a), a.t, pc);
    }
  }

  lemma RunStep(states: seq<Sys>, acts: seq<Action>, k: nat)
    requires Run(states, acts) && 0 < k < |states|
    ensures k - 1 < |acts| && states[k] == Do(states[k - 1], acts[k - 1]) && Inv(states[k - 1])
  {
    hide Do, Inv;
    RunKeepsInv(states, acts, k - 1);
  }

  lemma {:induction false} ClockOrder(states: seq<Sys>, acts: seq<Action>, i: nat, j: nat)
    requires Run(states, acts) && i <= j < |states|
    ensures states[i].clock <= states[j].clock && (states[j].registered ==> states[i].registered)
    decreases j
  {
    hide Do, Inv, Run;
    if i < j {
      ClockOrder(states, acts, i, j - 1);
      RunStep(states, acts, j);
      StepEffect(states[j - 1], acts[j - 1]);
    }
  }

  lemma RunStart(states: seq<Sys>, acts: seq<Action>)
    requires Run(states, acts)
    ensures states != [] && states[0].tasks == map[] && states[0].stamps == map[]
  {
  }

  /** The step that tracked request `p`. */
  lemma {:induction false} TrackedAt(states: seq<Sys>, acts: seq<Action>, k: nat, p: nat) returns (m: nat)
    requires Run(states, acts) && k < |states| && p in states[k].stamps
    ensures m < k && m < |acts| && acts[m] == Proxy(p) && states[m].clock == states[k].stamps[p]
    ensures states[m + 1].clock == states[m].clock + 1
    decreases k
  {
    hide Do, Inv, Run;
    RunStart(states, acts);
    RunStep(states, acts, k);
    StepEffect(states[k - 1], acts[k - 1]);
    if acts[k - 1].Proxy? && acts[k - 1].t == p && p !in states[k - 1].tasks {
      m := k - 1;
    } else {
      m := TrackedAt(states, acts, k - 1, p);
    }
  }

  /** What one step does to a gate's reading and to a task in flight. */
  lemma StepOrigin(s: Sys, a: Action, t: nat)
    requires Inv(s) && t in Do(s, a).tasks
    ensures var pc := Do(s, a).tasks[t];
      && (forall r: nat :: ReadBy(pc, r) ==>
            ReadBy(At(s, t), r) || (a.Advance? && a.t == t && At(s, t).GateStarted? && r == s.clock && s.inFlight == 0))
      && (InFlight(pc) ==>
            || (InFlight(At(s, t)) && pc == At(s, t).(phase := pc.phase))
            || (a.Advance? && a.t == t && Enters(s, At(s, t), pc)))
      && (pc.Forwarding? ==>
            At(s, t).Forwarding? || (a.Advance? && a.t == t && At(s, t).Validate? && s.state.Started?))
  {
    StepEffect(s, a);
    hide StepTask, GuardInv, WakeInv, WakeStep, Owned;
    var o :| Owned(s, o);
    if a.Advance? && a.t == t && t in s.tasks {
      var pc, owner := StepTaskFacts(s, a.t, a.good, o);
      assert Do(s, a).tasks[t] == pc;
    }
  }

  /** The step in which gate `t` read the in-flight count, which was zero. */
  lemma {:induction false} ReadAt(states: seq<Sys>, acts: seq<Action>, k: nat, t: nat, read: nat) returns (i: nat)
    requires Run(states, acts) && k < |states| && t in states[k].tasks && ReadBy(states[k].tasks[t], read)
    ensures i < k && i < |acts| && acts[i].Advance? && acts[i].t == t && At(states[i], t).GateStarted?
    ensures states[i].inFlight == 0 && states[i].clock == read
    decreases k
  {
    hide Do, Inv, Run;
    RunStart(states, acts);
    RunStep(states, acts, k);
    var s := states[k - 1];
    StepOrigin(s, acts[k - 1], t);
    if ReadBy(At(s, t), read) {
      i := ReadAt(states, acts, k - 1, t, read);
    } else {
      i := k - 1;
    }
  }

  /**
   The step in which the operation in flight at `k` entered its transitional state: it left the
   stable state it remembers, and the VM has been in the transitional state ever since.
   */
  lemma {:induction false} EnteredAt(states: seq<Sys>, acts: seq<Action>, k: nat, t: nat) returns (j: nat)
    requires Run(states, acts) && k < |states| && t in states[k].tasks && InFlight(states[k].tasks[t])
    ensures j < k && j < |acts| && acts[j].Advance? && acts[j].t == t && t in states[j].tasks
    ensures var pc := states[k].tasks[t];
      && Enters(states[j], states[j].tasks[t], pc.(phase := Calling))
      && (forall i :: j < i <= k ==> states[i].state == During(pc.op))
    decreases k
  {
    hide Do, Inv, Run, Enters;
    RunStart(states, acts);
    RunStep(states, acts, k);
    OneOperationInFlight(states, acts, k);
    var s := states[k - 1];
    StepOrigin(s, acts[k - 1], t);
    var pc := states[k].tasks[t];
    if Enters(s, At(s, t), pc) {
      EntersFacts(s, At(s, t), pc);
      j := k - 1;
    } else {
      j := EnteredAt(states, acts, k - 1, t);
      assert pc.(phase := Calling) == s.tasks[t].(phase := Calling);
    }
  }

  lemma EntersFacts(s: Sys, before: Pc, pc: Pc)
    requires Enters(s, before, pc)
    ensures !InFlight(before) && before.Running? && pc.Running? && pc.phase == Calling && pc.(phase := Calling) == pc
    ensures Settled(s.state)
  {
  }

  lemma InvFacts(s: Sys, t: nat, p: nat)
    requires Inv(s) && s.registered && t in s.tasks && AutoInFlight(s.tasks[t])
    requires p in s.tasks && s.tasks[p].Forwarding?
    ensures p in s.stamps && s.tasks[t].caller.read <= s.stamps[p] < s.tasks[t].caller.began
  {
    assert HoldsGuard(s.tasks[p]);
    assert ReadBy(s.tasks[t], s.tasks[t].caller.read);
    hide HoldsGuard, ReadBy, WakeInv, Owned, Holders;
  }

  lemma NoGuardsWhenQuiet(s: Sys)
    requires Inv(s) && s.registered && s.inFlight == 0
    ensures forall p :: p in s.tasks ==> !HoldsGuard(s.tasks[p])
  {
    hide GateInv, WindowInv, WakeInv, Owned, HoldsGuard;
    forall p | p in s.tasks ensures !HoldsGuard(s.tasks[p]) {
      NoHolders(s.tasks, p);
    }
  }

  /**
   A request being forwarded while an auto-suspend is in flight was tracked after the gate read
   the in-flight count (`i`, when no guard was alive) and before the `Suspending` transition (`j`).
   */
  lemma OverlapIsInTheWindow(states: seq<Sys>, acts: seq<Action>, k: nat, t: nat, p: nat)
    returns (i: nat, m: nat, j: nat)
    requires Run(states, acts) && k < |states| && states[k].registered
    requires t in states[k].tasks && AutoInFlight(states[k].tasks[t])
    requires p in states[k].tasks && states[k].tasks[p].Forwarding?
    ensures i < m < j < k && j < |acts|
    ensures acts[i].Advance? && acts[i].t == t && At(states[i], t).GateStarted?
    ensures forall q :: q in states[i].tasks ==> !HoldsGuard(states[i].tasks[q])
    ensures acts[m] == Proxy(p)
    ensures acts[j].Advance? && acts[j].t == t && !states[j].state.Suspending?
    ensures forall l :: j < l <= k ==> states[l].state.Suspending?
  {
    hide Do, Inv, Run, HoldsGuard;
    var pc := states[k].tasks[t];
    RunKeepsInv(states, acts, k);
    InvFacts(states[k], t, p);
    i := ReadAt(states, acts, k, t, pc.caller.read);
    m := TrackedAt(states, acts, k, p);
    j := EnteredAt(states, acts, k, t);
    ClockOrder(states, acts, i, k);
    if m < i { ClockOrder(states, acts, m + 1, i); }
    if j < m { ClockOrder(states, acts, j, m); }
    RunKeepsInv(states, acts, i);
    NoGuardsWhenQuiet(states[i]);
  }

  /**
   A rollback is accepted, and restores the stable state the operation left, except that a
   failed snapshot of a paused VM leaves it `Started`.
   */
  lemma RollbackRestores(states: seq<Sys>, acts: seq<Action>, k: nat, t: nat, good: bool) returns (j: nat)
    requires Run(states, acts) && k < |states| && t in states[k].tasks
    requires states[k].tasks[t].Running? && states[k].tasks[t].phase.CallErr?
    ensures j < k && Settled(states[j].state)
    ensures forall l :: j < l <= k ==> states[l].state == During(states[k].tasks[t].op)
    ensures var s' := Do(states[k], Advance(t, good));
      && !s'.refused && Settled(s'.state)
      && (s'.state == states[j].state <==> !(states[k].tasks[t].op.Snapshot? && states[j].state.Paused?))
  {
    j := EnteredAt(states, acts, k, t);
    OneOperationInFlight(states, acts, k);
    hide Run, Inv, Return;
    var s := states[k];
    var pc := s.tasks[t];
    var back := ReturnShape(s.(state := OnFailure(pc.op)), t, pc.caller, false);
  }

  lemma NoneInFlightWhenStarted(states: seq<Sys>, acts: seq<Action>, k: nat)
    requires Run(states, acts) && k < |states| && states[k].registered && states[k].state.Started?
    ensures forall t :: t in states[k].tasks ==> !InFlight(states[k].tasks[t])
  {
    OneOperationInFlight(states, acts, k);
  }

  /** Forwarding begins only in `Started`, with no operation in flight. */
  lemma ForwardingNeedsStarted(states: seq<Sys>, acts: seq<Action>, k: nat, p: nat)
    requires Run(states, acts) && k < |acts| && states[k].registered && p in states[k + 1].tasks
    requires states[k + 1].tasks[p].Forwarding? && !At(states[k], p).Forwarding?
    ensures states[k].state.Started? && forall t :: t in states[k].tasks ==> !InFlight(states[k].tasks[t])
  {
    assert |states| == |acts| + 1;
    hide Run, Do, Inv, Enters, InFlight;
    RunStep(states, acts, k + 1);
    StepOrigin(states[k], acts[k], p);
    NoneInFlightWhenStarted(states, acts, k);
  }

  // ----- the window, from inside -----

  /** `n` steps of task `t` in a row, Firecracker and the checks answering yes. */
  function Alone(s: Sys, t: nat, n: nat): Sys
    decreases n
  {
    if n == 0 then s else Alone(Do(s, Advance(t, true)), t, n - 1)
  }

  lemma AloneStep(s: Sys, t: nat, n: nat, s': Sys)
    requires n > 0 && s' == Do(s, Advance(t, true))
    ensures Alone(s, t, n) == Alone(s', t, n - 1)
  {
  }

  /** What task `t` of an auto-suspend still has to do before the `Suspending` transition is done. */
  function StepsToSuspending(pc: Pc): nat {
    if pc.GateQuiet? then 3 else if pc.Running? && pc.phase.Fetch? then 2 else 1
  }

  /** Past the gate's reading, and not yet `Suspending`. */
  predicate InWindow(pc: Pc) {
    || pc.GateQuiet?
    || (pc.Running? && (pc.phase.Fetch? || pc.phase.Begun?) && pc.op.Snapshot? && pc.caller.Auto?)
  }

  lemma SuspendsAlone(s: Sys, t: nat)
    requires s.registered && s.state.Started? && t in s.tasks && InWindow(s.tasks[t])
    ensures var s' := Alone(s, t, StepsToSuspending(s.tasks[t]));
      && t in s'.tasks && AutoInFlight(s'.tasks[t])
      && forall u :: u in s.tasks && u != t ==> u in s'.tasks && s'.tasks[u] == s.tasks[u]
    decreases StepsToSuspending(s.tasks[t])
  {
    hide Return, Finish, Settle;
    var s1 := Do(s, Advance(t, true));
    var n := StepsToSuspending(s.tasks[t]);
    AloneStep(s, t, n, s1);
    if n > 1 {
      SuspendsAlone(s1, t);
    }
  }

  lemma ForwardsAlone(s: Sys, p: nat)
    requires s.registered && s.state.Started? && p !in s.tasks
    ensures var s' := Alone(Do(s, Proxy(p)), p, 3);
      s' == Do(s, Proxy(p)).(tasks := s.tasks[p := Forwarding])
  {
    var s0 := Do(s, Proxy(p));
    var s1, s2, s3 := Put(s0, p, Looked), Put(s0, p, Validate), Put(s0, p, Forwarding);
    assert s1 == Do(s0, Advance(p, true)) && s2 == Do(s1, Advance(p, true)) && s3 == Do(s2, Advance(p, true));
    hide Do;
    AloneStep(s0, p, 3, s1);
    AloneStep(s1, p, 2, s2);
    AloneStep(s2, p, 1, s3);
  }

  /**
   Nowhere in the window is a request safe: from every state of a started VM with an auto-suspend past
   its reading, a request that arrives now can be forwarded and overlap the snapshot.
   */
  lemma WindowIsOpen(s: Sys, t: nat, p: nat)
    requires s.registered && s.state.Started? && t in s.tasks && InWindow(s.tasks[t]) && p !in s.tasks
    ensures var s' := Alone(Alone(Do(s, Proxy(p)), p, 3), t, StepsToSuspending(s.tasks[t]));
      t in s'.tasks && AutoInFlight(s'.tasks[t]) && p in s'.tasks && s'.tasks[p].Forwarding?
  {
    hide Alone, Do, InWindow, StepsToSuspending, AutoInFlight;
    ForwardsAlone(s, p);
    ProxyKeepsVm(s, p);
    SuspendsAlone(Alone(Do(s, Proxy(p)), p, 3), t);
  }

  lemma ProxyKeepsVm(s: Sys, p: nat)
    ensures Do(s, Proxy(p)).registered == s.registered && Do(s, Proxy(p)).state == s.state
  {
    hide StepTask;
  }

  /** A request forwarded at `l` was forwarded all along since the `Suspending` transition after step `j`. */
  lemma {:induction false} ForwardedSince(states: seq<Sys>, acts: seq<Action>, j: nat, l: nat, t: nat, p: nat)
    requires Run(states, acts) && j < l < |states| && acts[j].Advance? && acts[j].t == t
    requires At(states[j], t).Running? && At(states[j + 1], t).Running?
    requires forall i :: j < i < l ==> states[i].state.Suspending?
    requires p in states[l].tasks && states[l].tasks[p].Forwarding?
    ensures p in states[j].tasks && states[j].tasks[p].Forwarding?
    decreases l
  {
    hide Do, Inv, Run, Enters, InFlight;
    RunStep(states, acts, l);
    StepOrigin(states[l - 1], acts[l - 1], p);
    StepEffect(states[l - 1], acts[l - 1]);
    if l - 1 > j {
      assert states[l - 1].state.Suspending?;
      ForwardedSince(states, acts, j, l - 1, t, p);
    }
  }

  /**
   An auto-suspend entered at step `j` overlaps a forwarded request, at any time up to `k`, if and only
   if some request is being forwarded at the `Suspending` transition.
   */
  lemma OverlapIff(states: seq<Sys>, acts: seq<Action>, k: nat, t: nat) returns (j: nat)
    requires Run(states, acts) && k < |states| && t in states[k].tasks && AutoInFlight(states[k].tasks[t])
    ensures j < k && j < |acts| && acts[j].Advance? && acts[j].t == t && !states[j].state.Suspending?
    ensures forall l :: j < l <= k ==> states[l].state.Suspending?
    ensures (exists l, p :: j < l <= k && At(states[l], p).Forwarding?) <==> exists p :: At(states[j], p).Forwarding?
  {
    hide Do, Inv, Run, Enters;
    j := EnteredAt(states, acts, k, t);
    var s, s' := states[j], states[j + 1];
    RunStep(states, acts, j + 1);
    StepEffect(s, acts[j]);
    EntersFacts(s, s.tasks[t], states[k].tasks[t].(phase := Calling));
    EnteringStep(s, t, acts[j].good, states[k].tasks[t].(phase := Calling));
    if exists l, p :: j < l <= k && At(states[l], p).Forwarding? {
      var l, p :| j < l <= k && At(states[l], p).Forwarding?;
      ForwardedSince(states, acts, j, l, t, p);
      assert At(s, p).Forwarding?;
    }
    if exists p :: At(s, p).Forwarding? {
      var p :| At(s, p).Forwarding?;
      assert p != t && p in s'.tasks;
      var l := j + 1;
      assert j < l <= k && At(states[l], p).Forwarding?;
    }
  }

  lemma EnteringStep(s: Sys, t: nat, good: bool, pc: Pc)
    requires t in s.tasks && Enters(s, s.tasks[t], pc)
    ensures t in Do(s, Advance(t, good)).tasks && Do(s, Advance(t, good)).tasks[t].Running?
  {
  }

  lemma LastStep(s: Sys, t: nat)
    requires t in s.tasks && s.tasks[t].Validate? && s.state.Started?
    ensures Alone(s, t, 1) == Put(s, t, Forwarding)
  {
    assert Do(s, Advance(t, true)) == Put(s, t, Forwarding);
    hide Do;
    AloneStep(s, t, 1, Put(s, t, Forwarding));
  }

  // ----- two runs -----

  /** A run that ends in state `s`. */
  ghost predicate Ends(states: seq<Sys>, acts: seq<Action>, s: Sys) {
    Run(states, acts) && states[|acts|] == s
  }

  lemma Step(states: seq<Sys>, acts: seq<Action>, s: Sys, a: Action, s': Sys)
    returns (states': seq<Sys>, acts': seq<Action>)
    requires Ends(states, acts, s) && s' == Do(s, a)
    ensures Ends(states', acts', s') && |states| < |states'| && states'[..|states|] == states
  {
    hide Do;
    states', acts' := states + [s'], acts + [a];
  }

  /** A management call up to its request to Firecracker. */
  lemma Begin(states: seq<Sys>, acts: seq<Action>, s: Sys, t: nat, op: Op)
    returns (states': seq<Sys>, acts': seq<Action>)
    requires Ends(states, acts, s) && !op.Restore?
    requires s.registered && t !in s.tasks && CanTransition(s.state, During(op))
    ensures Ends(states', acts', Put(s.(state := During(op)), t, Running(Calling, op, s.state, ApiCall)))
  {
    hide Ends, Settle, Return;
    var pc := Running(Fetch, op, s.state, ApiCall);
    var s1 := Put(s, t, pc);
    states', acts' := Step(states, acts, s, Call(t, op), s1);
    var s2 := Put(s, t, pc.(phase := Begun));
    states', acts' := Step(states', acts', s1, Advance(t, true), s2);
    var s3 := Put(s.(state := During(op)), t, pc.(phase := Calling));
    states', acts' := Step(states', acts', s2, Advance(t, true), s3);
  }

  /** A whole call of `Start` or `Pause` that succeeds, by a new task. */
  lemma Complete(states: seq<Sys>, acts: seq<Action>, s: Sys, t: nat, op: Op)
    returns (states': seq<Sys>, acts': seq<Action>)
    requires Ends(states, acts, s) && (op.Start? || op.Pause?)
    requires s.registered && t !in s.tasks && CanTransition(s.state, During(op))
    ensures Ends(states', acts', s.(state := OnSuccess(op), tasks := s.tasks[t := Finished]))
  {
    var s3 := Put(s.(state := During(op)), t, Running(Calling, op, s.state, ApiCall));
    var s4 := Put(s.(state := During(op)), t, Running(CallOk, op, s.state, ApiCall));
    assert s4 == Do(s3, Advance(t, true));
    Completes(s, s4, t, op);
    hide Ends, Do;
    states', acts' := Begin(states, acts, s, t, op);
    states', acts' := Step(states', acts', s3, Advance(t, true), s4);
    states', acts' := Step(states', acts', s4, Advance(t, true), Put(s.(state := OnSuccess(op)), t, Finished));
  }

  lemma Completes(s: Sys, s4: Sys, t: nat, op: Op)
    requires op.Start? || op.Pause?
    requires s4 == Put(s.(state := During(op)), t, Running(CallOk, op, s.state, ApiCall))
    ensures Do(s4, Advance(t, true)) == Put(s.(state := OnSuccess(op)), t, Finished)
  {
  }

  lemma Launch(s: Sys) returns (states: seq<Sys>, acts: seq<Action>)
    requires s == Initial().(state := Started, tasks := map[0 := Finished])
    ensures Ends(states, acts, s)
  {
    states, acts := Complete([Initial()], [], Initial(), 0, Start);
  }

  /** A run in which a snapshot of a paused VM fails: its rollback will make the VM `Started`. */
  lemma FailedSnapshotOfPaused() returns (states: seq<Sys>, acts: seq<Action>)
    ensures Run(states, acts)
    ensures var s := states[|acts|];
      s.registered && 2 in s.tasks && s.tasks[2] == Running(CallErr, Snapshot, Paused, ApiCall)
    ensures Do(states[|acts|], Advance(2, true)).state.Started?
  {
    var s0 := Initial().(state := Started, tasks := map[0 := Finished]);
    states, acts := Launch(s0);
    states, acts := Complete(states, acts, s0, 1, Pause);
    var s := s0.(state := Paused, tasks := s0.tasks[1 := Finished]);
    states, acts := Begin(states, acts, s, 2, Snapshot);
    var s2 := Put(s.(state := Suspending), 2, Running(Calling, Snapshot, Paused, ApiCall));
    var s3 := Put(s.(state := Suspending), 2, Running(CallErr, Snapshot, Paused, ApiCall));
    states, acts := Step(states, acts, s2, Advance(2, false), s3);
  }

  /** A run in which a request is being forwarded while an auto-suspend takes its snapshot. */
  lemma ForwardedDuringSnapshot() returns (states: seq<Sys>, acts: seq<Action>)
    ensures Run(states, acts)
    ensures var s := states[|acts|];
      s.registered && 1 in s.tasks && AutoInFlight(s.tasks[1]) && 2 in s.tasks && s.tasks[2].Forwarding?
  {
    var s0 := Initial().(state := Started, tasks := map[0 := Finished]);
    states, acts := Launch(s0);
    var s1, s2, s3 := Put(s0, 1, Gate), Put(s0, 1, GateStarted), Put(s0, 1, GateQuiet(0));
    states, acts := Step(states, acts, s0, Idle(1), s1);
    states, acts := Step(states, acts, s1, Advance(1, true), s2);
    states, acts := Step(states, acts, s2, Advance(1, true), s3);
    states, acts := ForwardOne(states, acts, s3);
    var s4 := s3.(inFlight := 1, clock := 1, stamps := map[2 := 0], tasks := s3.tasks[2 := Forwarding]);
    var s5 := Put(s4, 1, Running(Fetch, Snapshot, Started, Auto(0, 0)));
    states, acts := Step(states, acts, s4, Advance(1, true), s5);
    var s6 := Put(s4, 1, Running(Begun, Snapshot, Started, Auto(0, 0)));
    states, acts := Step(states, acts, s5, Advance(1, true), s6);
    states, acts := Step(states, acts, s6, Advance(1, true), Do(s6, Advance(1, true)));
  }

  lemma TrackOne(states: seq<Sys>, acts: seq<Action>, s: Sys) returns (states': seq<Sys>, acts': seq<Action>)
    requires Ends(states, acts, s) && s.registered && s.state.Started? && 2 !in s.tasks
    requires s.inFlight == 0 && s.clock == 0 && s.stamps == map[]
    ensures Ends(states', acts', Put(s.(inFlight := 1, clock := 1, stamps := map[2 := 0]), 2, Looked))
  {
    hide Ends;
    var base := s.(inFlight := 1, clock := 1, stamps := map[2 := 0]);
    states', acts' := Step(states, acts, s, Proxy(2), Put(base, 2, Tracked));
    states', acts' := Step(states', acts', Put(base, 2, Tracked), Advance(2, true), Put(base, 2, Looked));
  }

  /** Request 2 arrives and is forwarded. */
  lemma ForwardOne(states: seq<Sys>, acts: seq<Action>, s: Sys) returns (states': seq<Sys>, acts': seq<Action>)
    requires Ends(states, acts, s) && s.registered && s.state.Started? && 2 !in s.tasks
    requires s.inFlight == 0 && s.clock == 0 && s.stamps == map[]
    ensures Ends(states', acts',
                 s.(inFlight := 1, clock := 1, stamps := map[2 := 0], tasks := s.tasks[2 := Forwarding]))
  {
    hide Ends;
    var base := s.(inFlight := 1, clock := 1, stamps := map[2 := 0]);
    states', acts' := TrackOne(states, acts, s);
    states', acts' := Step(states', acts', Put(base, 2, Looked), Advance(2, true), Put(base, 2, Validate));
    states', acts' := Step(states', acts', Put(base, 2, Validate), Advance(2, true), Put(base, 2, Forwarding));
  }
}
