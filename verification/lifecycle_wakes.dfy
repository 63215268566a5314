/**
 What calls, idle signals and requests come to when their steps follow each other and succeed: above all
 that a request for a VM that is not running gets it running, and is forwarded.
 */
module LifecycleWakes {

  import opened Lifecycle
  import opened LifecycleRuns

  // ----- an operation alone -----

  /** How many steps a successful operation takes. */
  function Length(op: Op): nat {
    if op.Snapshot? || op.Restore? then 5 else 4
  }

  /** The VM after a successful operation: a snapshot stops Firecracker, and a restore starts it again. */
  function Succeeded(s: Sys, op: Op): Sys {
    match op
    case Start => s.(state := Started)
    case Pause => s.(state := Paused)
    case Resume => s.(state := Started)
    case Snapshot => s.(state := Suspended, fc := false, snapshot := true)
    case Restore => s.(state := Started, fc := true)
  }

  function Entered(s: Sys, caller: Caller): Caller {
    if caller.Auto? then caller.(began := s.clock) else caller
  }

  lemma FetchStep(s: Sys, t: nat, pc: Pc)
    requires s.registered && t in s.tasks && s.tasks[t] == pc && pc.Running? && pc.phase.Fetch?
    requires pc.op.Restore? ==> s.snapshot
    ensures Do(s, Advance(t, true)) == Put(s, t, pc.(phase := Begun))
  {
  }

  lemma BeginStep(s: Sys, t: nat, pc: Pc)
    requires t in s.tasks && s.tasks[t] == pc && pc.Running? && pc.phase.Begun? && CanTransition(s.state, During(pc.op))
    ensures Do(s, Advance(t, true))
            == Put(s.(state := During(pc.op)), t, Running(Calling, pc.op, s.state, Entered(s, pc.caller)))
  {
  }

  lemma AnswerStep(s: Sys, t: nat, pc: Pc, good: bool)
    requires t in s.tasks && s.tasks[t] == pc && pc.Running? && pc.phase.Calling?
    ensures Do(s, Advance(t, good)) == Put(s, t, pc.(phase := if good then CallOk else CallErr))
  {
  }

  lemma HandStep(s: Sys, t: nat, pc: Pc)
    requires s.registered && t in s.tasks && s.tasks[t] == pc && pc.Running? && pc.phase.CallOk?
    requires pc.op.Snapshot? || pc.op.Restore?
    ensures Do(s, Advance(t, true)) == Put(s.(fc := pc.op.Restore?), t, pc.(phase := Handed))
  {
  }

  lemma ReturnForgets(s: Sys, t: nat, pc: Pc, caller: Caller, ok: bool)
    ensures Return(Put(s, t, pc), t, caller, ok) == Return(s, t, caller, ok)
  {
  }

  /** The last step of an operation, from the state it is in. */
  lemma EndStep(s: Sys, t: nat, pc: Pc)
    requires t in s.tasks && s.tasks[t] == pc && pc.Running? && s.state == During(pc.op)
    requires if pc.op.Snapshot? || pc.op.Restore? then pc.phase.Handed? else pc.phase.CallOk?
    ensures Do(s, Advance(t, true))
            == Return(s.(state := OnSuccess(pc.op), snapshot := s.snapshot || pc.op.Snapshot?), t, pc.caller, true)
  {
    RollbackAllowed(pc.op);
    hide Return;
  }

  lemma RollbackAllowed(op: Op)
    ensures CanTransition(During(op), OnSuccess(op)) && CanTransition(During(op), OnFailure(op))
  {
  }

  lemma FailStep(s: Sys, t: nat, pc: Pc)
    requires t in s.tasks && s.tasks[t] == pc && pc.Running? && s.state == During(pc.op) && pc.phase.CallErr?
    ensures Do(s, Advance(t, true)) == Return(s.(state := OnFailure(pc.op)), t, pc.caller, false)
  {
    RollbackAllowed(pc.op);
    hide Return;
  }

  lemma OpAlone(s: Sys, t: nat, n: nat, op: Op, from: VmState, caller: Caller)
    requires s.registered && t in s.tasks && s.tasks[t] == Running(Fetch, op, from, caller) && n >= Length(op)
    requires CanTransition(s.state, During(op)) && (op.Restore? ==> s.snapshot)
    ensures Alone(s, t, n) == Alone(Return(Succeeded(s, op), t, Entered(s, caller), true), t, n - Length(op))
  {
    hide Alone, Return, Do, Succeeded, CanTransition, During;
    var s1 := Put(s, t, Running(Begun, op, from, caller));
    FetchStep(s, t, s.tasks[t]);
    AloneStep(s, t, n, s1);
    var pc := Running(Calling, op, s.state, Entered(s, caller));
    BeginStep(s1, t, s1.tasks[t]);
    AloneStep(s1, t, n - 1, Put(s.(state := During(op)), t, pc));
    AnsweredAlone(s, t, n - 2, pc);
  }

  /** From the call to Firecracker on. */
  lemma AnsweredAlone(s: Sys, t: nat, n: nat, pc: Pc)
    requires pc.Running? && pc.phase.Calling? && s.registered && n >= Length(pc.op) - 2
    ensures Alone(Put(s.(state := During(pc.op)), t, pc), t, n)
            == Alone(Return(Succeeded(s, pc.op), t, pc.caller, true), t, n - (Length(pc.op) - 2))
  {
    hide Alone, Do, Return, During, OnSuccess;
    var base := s.(state := During(pc.op));
    var s3 := Put(base, t, pc.(phase := CallOk));
    AnswerStep(Put(base, t, pc), t, pc, true);
    AloneStep(Put(base, t, pc), t, n, s3);
    if pc.op.Snapshot? || pc.op.Restore? {
      var given := base.(fc := pc.op.Restore?);
      var s4 := Put(given, t, pc.(phase := Handed));
      HandStep(s3, t, s3.tasks[t]);
      AloneStep(s3, t, n - 1, s4);
      EndAlone(given, t, n - 2, pc.(phase := Handed));
    } else {
      EndAlone(base, t, n - 1, pc.(phase := CallOk));
    }
    SucceededIs(s, pc.op);
  }

  lemma SucceededIs(s: Sys, op: Op)
    ensures Succeeded(s, op) == s.(state := OnSuccess(op), snapshot := s.snapshot || op.Snapshot?,
                                   fc := if op.Snapshot? then false else if op.Restore? then true else s.fc)
  {
  }

  lemma EndAlone(s: Sys, t: nat, n: nat, pc: Pc)
    requires pc.Running? && s.state == During(pc.op) && n >= 1
    requires if pc.op.Snapshot? || pc.op.Restore? then pc.phase.Handed? else pc.phase.CallOk?
    ensures Alone(Put(s, t, pc), t, n)
            == Alone(Return(s.(state := OnSuccess(pc.op), snapshot := s.snapshot || pc.op.Snapshot?),
                            t, pc.caller, true), t, n - 1)
  {
    hide Alone, Do, Return, During, OnSuccess;
    EndStep(Put(s, t, pc), t, pc);
    var last := s.(state := OnSuccess(pc.op), snapshot := s.snapshot || pc.op.Snapshot?);
    ReturnForgets(last, t, pc, pc.caller, true);
    AloneStep(Put(s, t, pc), t, n, Return(last, t, pc.caller, true));
  }

  lemma {:induction false} FinishedStays(s: Sys, t: nat, n: nat)
    requires t in s.tasks && s.tasks[t].Finished?
    ensures Alone(s, t, n) == s
  {
    if n > 0 {
      assert Do(s, Advance(t, true)) == s;
      FinishedStays(s, t, n - 1);
    }
  }

  /** The states a management call is for. */
  predicate For(op: Op, st: VmState) {
    match op
    case Start => st.Created?
    case Pause => st.Started?
    case Resume => st.Paused?
    case Snapshot => st.Started? || st.Paused?
    case Restore => st.Suspended?
  }

  /** A management call whose request to Firecracker succeeds. */
  lemma CallSucceeds(s: Sys, t: nat, op: Op)
    requires s.registered && t !in s.tasks && For(op, s.state) && (op.Restore? ==> s.snapshot)
    ensures Alone(Do(s, Call(t, op)), t, 5) == Succeeded(s, op).(tasks := s.tasks[t := Finished])
  {
    var s1 := Put(s, t, Running(Fetch, op, s.state, ApiCall));
    assert Do(s, Call(t, op)) == s1;
    hide Alone, Do, Succeeded;
    OpAlone(s1, t, 5, op, s.state, ApiCall);
    ApiReturns(s, t, op);
    FinishedStays(Put(Succeeded(s, op), t, Finished), t, 5 - Length(op));
  }

  lemma ApiReturns(s: Sys, t: nat, op: Op)
    ensures Return(Succeeded(Put(s, t, Running(Fetch, op, s.state, ApiCall)), op), t, ApiCall, true)
            == Put(Succeeded(s, op), t, Finished) == Succeeded(s, op).(tasks := s.tasks[t := Finished])
  {
    var pc := Running(Fetch, op, s.state, ApiCall);
    SucceededIs(s, op);
    SucceededIs(Put(s, t, pc), op);
    hide Succeeded, OnSuccess;
    assert Succeeded(Put(s, t, pc), op) == Put(Succeeded(s, op), t, pc);
    ReturnForgets(Succeeded(s, op), t, pc, ApiCall, true);
    ReturnToApi(Succeeded(s, op), t, ApiCall, true);
  }

  lemma ReturnToApi(s: Sys, t: nat, caller: Caller, ok: bool)
    requires !caller.Waker?
    ensures Return(s, t, caller, ok) == Put(s, t, Finished)
  {
  }

  /** The state a failed operation leaves. */
  function Failed(op: Op): VmState {
    match op
    case Start => Created
    case Pause => Started
    case Resume => Paused
    case Snapshot => Started
    case Restore => Suspended
  }

  /** One whose request fails. */
  lemma CallFails(s: Sys, t: nat, op: Op)
    requires s.registered && t !in s.tasks && For(op, s.state) && (op.Restore? ==> s.snapshot)
    ensures var asked := Alone(Do(s, Call(t, op)), t, 2);
      Alone(Do(asked, Advance(t, false)), t, 1) == s.(state := Failed(op), tasks := s.tasks[t := Finished])
  {
    CallAsks(s, t, op);
    CallAnswers(s, t, op);
    FailEnds(s, t, op);
    OneAlone(Put(s.(state := During(op)), t, Running(CallErr, op, s.state, ApiCall)), t);
    hide *;
  }

  lemma CallAnswers(s: Sys, t: nat, op: Op)
    ensures Do(Put(s.(state := During(op)), t, Running(Calling, op, s.state, ApiCall)), Advance(t, false))
            == Put(s.(state := During(op)), t, Running(CallErr, op, s.state, ApiCall))
  {
    hide During;
    var calling := Running(Calling, op, s.state, ApiCall);
    AnswerStep(Put(s.(state := During(op)), t, calling), t, calling, false);
  }

  lemma FailEnds(s: Sys, t: nat, op: Op)
    ensures Do(Put(s.(state := During(op)), t, Running(CallErr, op, s.state, ApiCall)), Advance(t, true))
            == s.(state := Failed(op), tasks := s.tasks[t := Finished])
  {
    var base, pc := s.(state := During(op)), Running(CallErr, op, s.state, ApiCall);
    assert Failed(op) == OnFailure(op);
    hide Do, During, Return, OnFailure, Failed;
    FailStep(Put(base, t, pc), t, pc);
    ReturnForgets(s.(state := OnFailure(op)), t, pc, ApiCall, false);
    ReturnToApi(s.(state := OnFailure(op)), t, ApiCall, false);
  }

  lemma OneAlone(s: Sys, t: nat)
    ensures Alone(s, t, 1) == Do(s, Advance(t, true))
  {
    hide Do;
    AloneStep(s, t, 1, Do(s, Advance(t, true)));
  }

  lemma CallAsks(s: Sys, t: nat, op: Op)
    requires s.registered && t !in s.tasks && For(op, s.state) && (op.Restore? ==> s.snapshot)
    ensures Alone(Do(s, Call(t, op)), t, 2)
            == Put(s.(state := During(op)), t, Running(Calling, op, s.state, ApiCall))
  {
    var pc := Running(Fetch, op, s.state, ApiCall);
    var s1, s2 := Put(s, t, pc), Put(s, t, pc.(phase := Begun));
    assert Do(s, Call(t, op)) == s1;
    hide Do, During;
    FetchStep(s1, t, pc);
    BeginStep(s2, t, pc.(phase := Begun));
    AloneStep(s1, t, 2, s2);
    AloneStep(s2, t, 1, Do(s2, Advance(t, true)));
  }

  // ----- the gate alone -----

  /** An idle signal for a started VM with no live request suspends it, if the gate's other checks allow it. */
  lemma IdleSuspends(s: Sys, t: nat)
    requires s.registered && s.state.Started? && s.inFlight == 0 && t !in s.tasks
    ensures Alone(Do(s, Idle(t)), t, 8)
            == s.(state := Suspended, fc := false, snapshot := true, tasks := s.tasks[t := Finished])
  {
    GateAlone(s, t, 8);
    AutoSnapshot(s, t);
    hide *;
  }

  lemma AutoSnapshot(s: Sys, t: nat)
    requires s.registered && s.state.Started?
    ensures Alone(Put(s, t, Running(Fetch, Snapshot, Started, Auto(s.clock, 0))), t, 5)
            == s.(state := Suspended, fc := false, snapshot := true, tasks := s.tasks[t := Finished])
  {
    var s4 := Put(s, t, Running(Fetch, Snapshot, Started, Auto(s.clock, 0)));
    hide Alone, Return;
    OpAlone(s4, t, 5, Snapshot, Started, Auto(s.clock, 0));
    AutoReturns(s, t, s4);
  }

  lemma GateAlone(s: Sys, t: nat, n: nat)
    requires s.registered && s.state.Started? && s.inFlight == 0 && t !in s.tasks && n >= 3
    ensures Alone(Do(s, Idle(t)), t, n)
            == Alone(Put(s, t, Running(Fetch, Snapshot, Started, Auto(s.clock, 0))), t, n - 3)
  {
    var s1, s2, s3 := Put(s, t, Gate), Put(s, t, GateStarted), Put(s, t, GateQuiet(s.clock));
    var s4 := Put(s, t, Running(Fetch, Snapshot, Started, Auto(s.clock, 0)));
    assert Do(s, Idle(t)) == s1 && Do(s1, Advance(t, true)) == s2;
    assert Do(s2, Advance(t, true)) == s3 && Do(s3, Advance(t, true)) == s4;
    hide Alone, Do;
    AloneStep(s1, t, n, s2);
    AloneStep(s2, t, n - 1, s3);
    AloneStep(s3, t, n - 2, s4);
  }

  lemma AutoReturns(s: Sys, t: nat, s4: Sys)
    requires s4 == Put(s, t, Running(Fetch, Snapshot, Started, Auto(s.clock, 0)))
    ensures var r := s.(state := Suspended, fc := false, snapshot := true, tasks := s.tasks[t := Finished]);
      Alone(Return(Succeeded(s4, Snapshot), t, Entered(s4, Auto(s.clock, 0)), true), t, 0) == r
  {
  }

  /** With a live request, or in another state, it does nothing. */
  lemma IdleRefused(s: Sys, t: nat)
    requires t !in s.tasks && (!s.registered || !s.state.Started? || s.inFlight > 0)
    ensures Alone(Do(s, Idle(t)), t, 2) == Put(s, t, Finished)
  {
    var s1 := Put(s, t, Gate);
    var s2 := Do(s1, Advance(t, true));
    var s3 := Do(s2, Advance(t, true));
    assert s3 == Put(s, t, Finished);
    hide Do;
    AloneStep(s1, t, 2, s2);
    AloneStep(s2, t, 1, s3);
  }

  // ----- waking -----

  /** A waker with the lock, in front of a suspended VM: it restores the VM and lets the lock go. */
  lemma WakerAlone(s: Sys, t: nat, n: nat, p: bool)
    requires s.registered && s.snapshot && s.state.Suspended? && s.wakeHolder == {t} && n >= 6
    requires t in s.tasks && s.tasks[t] == WakeLoop(p)
    ensures Alone(s, t, n)
            == Alone(Put(s.(state := Started, fc := true, wakeHolder := {}), t, if p then Validate else Finished),
                     t, n - 6)
  {
    var s1 := Put(s, t, Running(Fetch, Restore, Suspended, Waker(p)));
    assert Do(s, Advance(t, true)) == s1;
    hide Alone, Do, Return;
    AloneStep(s, t, n, s1);
    OpAlone(s1, t, n - 1, Restore, Suspended, Waker(p));
    WakerReturns(s, t, s1, p);
  }

  lemma WakerReturns(s: Sys, t: nat, s1: Sys, p: bool)
    requires s.wakeHolder == {t} && s1 == Put(s, t, Running(Fetch, Restore, Suspended, Waker(p)))
    ensures Return(Succeeded(s1, Restore), t, Waker(p), true)
            == Put(s.(state := Started, fc := true, wakeHolder := {}), t, if p then Validate else Finished)
  {
    assert s.wakeHolder - {t} == {};
  }

  /** Before a started VM it only takes the lock and lets it go. */
  lemma AwakeAlone(s: Sys, t: nat, n: nat, p: bool)
    requires s.registered && s.state.Started? && s.wakeHolder == {t} && n >= 1
    requires t in s.tasks && s.tasks[t] == WakeLoop(p)
    ensures Alone(s, t, n)
            == Alone(Put(s.(wakeHolder := {}), t, if p then Validate else Finished), t, n - 1)
  {
    assert s.wakeHolder - {t} == {};
    AloneStep(s, t, n, Put(s.(wakeHolder := {}), t, if p then Validate else Finished));
  }

  /** A proxied request that has not been validated yet. */
  predicate OnItsWay(pc: Pc) {
    pc == Tracked || pc == Looked || pc == WaitLock(true) || pc == WakeLoop(true)
  }

  /** The steps from there to being forwarded, in a suspended VM or a started one. */
  function StepsLeft(st: VmState, pc: Pc): nat {
    match pc
    case Tracked => if st.Suspended? then 10 else 3
    case Looked => if st.Suspended? then 9 else 2
    case WaitLock(_) => if st.Suspended? then 8 else 3
    case WakeLoop(_) => if st.Suspended? then 7 else 2
    case _ => 0
  }

  /** The VM runs, the wake lock is free, and `t` is being forwarded; nothing else has changed. */
  predicate Forwarded(s: Sys, s': Sys, t: nat) {
    s' == Put(s.(state := Started, fc := s.fc || s.state.Suspended?, wakeHolder := {}), t, Forwarding)
  }

  lemma WakerForwards(s: Sys, t: nat)
    requires s.registered && (s.state.Started? || (s.state.Suspended? && s.snapshot))
    requires t in s.tasks && s.tasks[t] == WakeLoop(true) && s.wakeHolder == {t}
    ensures Forwarded(s, Alone(s, t, StepsLeft(s.state, WakeLoop(true))), t)
  {
    var s1 := Put(s.(state := Started, fc := s.fc || s.state.Suspended?, wakeHolder := {}), t, Validate);
    if s.state.Suspended? { WakerAlone(s, t, 7, true); } else { AwakeAlone(s, t, 2, true); }
    hide Alone;
    LastStep(s1, t);
  }

  lemma LockStep(s: Sys, t: nat)
    requires t in s.tasks && s.tasks[t] == WaitLock(true) && s.wakeHolder == {}
    ensures Do(s, Advance(t, true)) == Put(s.(wakeHolder := {t}), t, WakeLoop(true))
  {
  }

  /** A request that finds the VM suspended goes to wake it; one that finds it started does not. */
  lemma LookedStep(s: Sys, t: nat)
    requires t in s.tasks && s.tasks[t] == Looked && (s.state.Started? || s.state.Suspended?)
    ensures Do(s, Advance(t, true)) == Put(s, t, if s.state.Suspended? then WaitLock(true) else Validate)
  {
  }

  lemma TrackedStep(s: Sys, t: nat)
    requires s.registered && t in s.tasks && s.tasks[t] == Tracked
    ensures Do(s, Advance(t, true)) == Put(s, t, Looked)
  {
  }

  lemma OnItsWayForwards(s: Sys, t: nat)
    requires s.registered && (s.state.Started? || (s.state.Suspended? && s.snapshot))
    requires t in s.tasks && OnItsWay(s.tasks[t])
    requires s.wakeHolder == if s.tasks[t].WakeLoop? then {t} else {}
    ensures Forwarded(s, Alone(s, t, StepsLeft(s.state, s.tasks[t])), t)
    decreases StepsLeft(s.state, s.tasks[t]), 1
  {
    hide Do, Alone, Forwarded;
    var n := StepsLeft(s.state, s.tasks[t]);
    match s.tasks[t] {
      case WakeLoop(_) =>
        WakerForwards(s, t);
      case WaitLock(_) =>
        var s1 := Put(s.(wakeHolder := {t}), t, WakeLoop(true));
        LockStep(s, t);
        AloneStep(s, t, n, s1);
        OnItsWayForwards(s1, t);
        SameForwarded(s, {t}, t, WakeLoop(true), Alone(s, t, n));
      case Looked =>
        LookedForwards(s, t);
      case Tracked =>
        var s1 := Put(s, t, Looked);
        TrackedStep(s, t);
        AloneStep(s, t, n, s1);
        OnItsWayForwards(s1, t);
        SameForwarded(s, s.wakeHolder, t, Looked, Alone(s, t, n));
    }
  }

  lemma LookedForwards(s: Sys, t: nat)
    requires s.registered && (s.state.Started? || (s.state.Suspended? && s.snapshot))
    requires t in s.tasks && s.tasks[t] == Looked && s.wakeHolder == {}
    ensures Forwarded(s, Alone(s, t, StepsLeft(s.state, Looked)), t)
    decreases StepsLeft(s.state, Looked), 0
  {
    hide Do, Alone;
    var n := StepsLeft(s.state, Looked);
    var s1 := Put(s, t, if s.state.Suspended? then WaitLock(true) else Validate);
    LookedStep(s, t);
    AloneStep(s, t, n, s1);
    if s.state.Suspended? {
      hide Forwarded;
      OnItsWayForwards(s1, t);
      SameForwarded(s, s.wakeHolder, t, WaitLock(true), Alone(s, t, n));
    } else {
      LastStep(s1, t);
    }
  }

  lemma SameForwarded(s: Sys, holder: set<nat>, t: nat, pc: Pc, s': Sys)
    requires Forwarded(Put(s.(wakeHolder := holder), t, pc), s', t)
    ensures Forwarded(s, s', t)
  {
  }

  /**
   From every state of every run: a request on its way to a started or suspended VM, with the wake lock free
   or its own, is forwarded when it steps on and its calls succeed, and the VM then runs.
   */
  lemma RequestIsForwarded(states: seq<Sys>, acts: seq<Action>, k: nat, t: nat)
    requires Run(states, acts) && k < |states| && states[k].registered
    requires states[k].state.Started? || states[k].state.Suspended?
    requires t in states[k].tasks && OnItsWay(states[k].tasks[t]) && states[k].wakeHolder <= {t}
    ensures Forwarded(states[k], Alone(states[k], t, StepsLeft(states[k].state, states[k].tasks[t])), t)
  {
    hide Run, Inv, Alone, Do;
    var s := states[k];
    RunKeepsInv(states, acts, k);
    NoChildIffSuspended(states, acts, k);
    OwnLock(s, t);
    OnItsWayForwards(s, t);
  }

  lemma OwnLock(s: Sys, t: nat)
    requires Inv(s) && t in s.tasks && OnItsWay(s.tasks[t]) && s.wakeHolder <= {t}
    ensures s.wakeHolder == if s.tasks[t].WakeLoop? then {t} else {}
  {
    hide GuardInv, Owned;
    if t in s.wakeHolder { assert HoldsLock(s.tasks[t]); }
  }

  /** One that has the wake lock already restores the VM: there is always a snapshot to restore from. */
  lemma WakesAndForwards(states: seq<Sys>, acts: seq<Action>, k: nat, t: nat)
    requires Run(states, acts) && k < |states| && states[k].registered && states[k].state.Suspended?
    requires t in states[k].tasks && states[k].tasks[t] == WakeLoop(true)
    ensures var s' := Alone(states[k], t, 7);
      s'.state.Started? && s'.fc && s'.wakeHolder == {} && t in s'.tasks && s'.tasks[t].Forwarding?
  {
    RunKeepsInv(states, acts, k);
    assert states[k].wakeHolder == {t} by { assert HoldsLock(states[k].tasks[t]); }
    hide Run, Inv, Alone, Do;
    RequestIsForwarded(states, acts, k, t);
  }

  /** In particular one that arrives now, with nobody waking the VM: it wakes a suspended VM itself. */
  lemma ArrivalIsForwarded(states: seq<Sys>, acts: seq<Action>, k: nat, t: nat)
    requires Run(states, acts) && k < |states| && states[k].registered && states[k].wakeHolder == {}
    requires states[k].state.Started? || states[k].state.Suspended?
    requires t !in states[k].tasks
    ensures var s := Do(states[k], Proxy(t));
      Forwarded(s, Alone(s, t, if states[k].state.Suspended? then 10 else 3), t)
  {
    var s := Do(states[k], Proxy(t));
    assert s.tasks[t] == Tracked && s.wakeHolder == {} && s.registered && s.state == states[k].state;
    hide Run, Inv, Alone, Do;
    NoChildIffSuspended(states, acts, k);
    assert s.snapshot == states[k].snapshot by { ProxySnapshot(states[k], t); }
    OnItsWayForwards(s, t);
  }

  lemma ProxySnapshot(s: Sys, t: nat)
    ensures Do(s, Proxy(t)).snapshot == s.snapshot
  {
    hide StepTask;
  }

  /** An exec call wakes a suspended VM too; it does not hold a guard. */
  lemma ExecWakes(s: Sys, t: nat)
    requires s.registered && s.state.Suspended? && s.snapshot && s.wakeHolder == {} && t !in s.tasks
    ensures Alone(Do(s, Exec(t)), t, 7)
            == s.(state := Started, fc := true, wakeHolder := {}, tasks := s.tasks[t := Finished])
  {
    var s1, s2 := Put(s, t, WaitLock(false)), Put(s.(wakeHolder := {t}), t, WakeLoop(false));
    assert Do(s, Exec(t)) == s1 && Do(s1, Advance(t, true)) == s2;
    hide Alone, Do;
    AloneStep(s1, t, 7, s2);
    WakerAlone(s2, t, 6, false);
    assert Alone(Put(s2.(state := Started, fc := true, wakeHolder := {}), t, Finished), t, 0)
           == s.(state := Started, fc := true, wakeHolder := {}, tasks := s.tasks[t := Finished]) by {
      NoneAlone(Put(s2.(state := Started, fc := true, wakeHolder := {}), t, Finished), t);
    }
  }

  lemma NoneAlone(s: Sys, t: nat)
    ensures Alone(s, t, 0) == s
  {
  }

  // ----- waiting -----

  /** The VM is in the middle of a snapshot or a restore, or another task is waking it. */
  predicate HasToWait(s: Sys, t: nat)
    requires t in s.tasks
  {
    s.state.Suspending? || s.state.Restoring? || (s.tasks[t] == WaitLock(true) && s.wakeHolder != {})
  }

  /** No step sends a waiting request away, unless its own wait runs out. */
  lemma StaysOnItsWay(s: Sys, a: Action, t: nat)
    requires Inv(s) && s.registered && t in s.tasks && OnItsWay(s.tasks[t]) && HasToWait(s, t)
    requires a != Advance(t, false)
    ensures t in Do(s, a).tasks && OnItsWay(Do(s, a).tasks[t])
  {
    if a == Advance(t, true) {
      hide Return, Finish, StepOp, Inv;
    } else {
      hide Do, OnItsWay, HasToWait;
      StepEffect(s, a);
    }
  }

  /**
   Over every run: a request that arrived at `j` and has had to wait since, without its wait running out, is
   forwarded from `l` on when the VM is started or suspended then and the wake lock is free or its own.
   */
  lemma WaiterIsForwarded(states: seq<Sys>, acts: seq<Action>, j: nat, l: nat, t: nat)
    requires Run(states, acts) && j < l < |states| && acts[j] == Proxy(t) && t !in states[j].tasks
    requires forall i :: j < i <= l ==> states[i].registered
    requires forall i :: j < i < l ==> t in states[i].tasks && HasToWait(states[i], t) && acts[i] != Advance(t, false)
    requires states[l].state.Started? || states[l].state.Suspended?
    requires states[l].wakeHolder <= {t}
    ensures t in states[l].tasks && OnItsWay(states[l].tasks[t])
    ensures Forwarded(states[l], Alone(states[l], t, StepsLeft(states[l].state, states[l].tasks[t])), t)
  {
    StillOnItsWay(states, acts, j, l, t);
    RequestIsForwarded(states, acts, l, t);
  }

  lemma ArrivesTracked(s: Sys, t: nat)
    requires t !in s.tasks
    ensures t in Do(s, Proxy(t)).tasks && OnItsWay(Do(s, Proxy(t)).tasks[t])
  {
  }

  lemma {:induction false} StillOnItsWay(states: seq<Sys>, acts: seq<Action>, j: nat, l: nat, t: nat)
    requires Run(states, acts) && j < l < |states| && acts[j] == Proxy(t) && t !in states[j].tasks
    requires forall i :: j < i < l ==> states[i].registered
    requires forall i :: j < i < l ==> t in states[i].tasks && HasToWait(states[i], t) && acts[i] != Advance(t, false)
    ensures t in states[l].tasks && OnItsWay(states[l].tasks[t])
    decreases l
  {
    hide Run, Do, HasToWait, OnItsWay, Inv;
    RunStep(states, acts, l);
    if l == j + 1 {
      ArrivesTracked(states[j], t);
    } else {
      StillOnItsWay(states, acts, j, l - 1, t);
      StaysOnItsWay(states[l - 1], acts[l - 1], t);
    }
  }

  // ----- destroying -----

  predicate SameVm(s: Sys, s': Sys) {
    s'.registered == s.registered && s'.fc == s.fc
  }

  lemma ReturnKeeps(s: Sys, t: nat, caller: Caller, ok: bool)
    ensures SameVm(s, Return(s, t, caller, ok))
  {
  }

  /** An operation's return and its settling leave the registration and the child as they are. */
  lemma EndsKeep(s: Sys, t: nat, caller: Caller, next: VmState, ok: bool)
    ensures SameVm(s, Return(s, t, caller, ok)) && SameVm(s, Settle(s, t, caller, next, ok))
  {
    hide CanTransition, Return;
    ReturnKeeps(s, t, caller, ok);
    ReturnKeeps(s, t, caller, false);
    ReturnKeeps(s.(state := next), t, caller, ok);
    ReturnKeeps(s.(refused := true), t, caller, false);
  }

  lemma OpDestroyed(s: Sys, t: nat, pc: Pc, good: bool)
    requires !s.registered && !s.fc && pc.Running?
    ensures !StepOp(s, t, pc, good).registered && !StepOp(s, t, pc, good).fc
  {
    var s1 := s.(snapshot := true);
    EndsKeep(s, t, pc.caller, OnSuccess(pc.op), true);
    EndsKeep(s1, t, pc.caller, OnSuccess(pc.op), true);
    EndsKeep(s, t, pc.caller, OnFailure(pc.op), false);
    hide CanTransition, Return, Finish, Settle, OnSuccess, OnFailure, During;
  }

  lemma TaskDestroyed(s: Sys, t: nat, pc: Pc, good: bool)
    requires !s.registered && !s.fc
    ensures !StepTask(s, t, pc, good).registered && !StepTask(s, t, pc, good).fc
  {
    if pc.Running? { OpDestroyed(s, t, pc, good); }
    ReturnKeeps(s, t, Waker(true), false);
    ReturnKeeps(s, t, Waker(false), false);
    hide StepOp, Return, Settle;
  }

  /** No step brings back a destroyed VM, or starts Firecracker for it. */
  lemma DestroyedStays(s: Sys, a: Action)
    requires !s.registered && !s.fc
    ensures !Do(s, a).registered && !Do(s, a).fc
  {
    if a.Advance? && a.t in s.tasks { TaskDestroyed(s, a.t, s.tasks[a.t], a.good); }
    hide StepTask;
  }

  /** From the step that destroys it on, over every run. */
  lemma {:induction false} DestroyedForEver(states: seq<Sys>, acts: seq<Action>, j: nat, k: nat)
    requires Run(states, acts) && j < k < |states| && acts[j] == Destroy
    ensures !states[k].registered && !states[k].fc
    decreases k
  {
    assert states[k] == Do(states[k - 1], acts[k - 1]);
    if j < k - 1 {
      DestroyedForEver(states, acts, j, k - 1);
      hide Do, Run;
      DestroyedStays(states[k - 1], acts[k - 1]);
    }
  }
}
