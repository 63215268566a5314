/**
 The lifecycle of one registered VM under concurrent calls (hostd/src/vmm/vm.rs,
 hostd/src/vmm/firecracker/vmm.rs, auto_suspend.rs, hostd/src/proxy/target.rs, http.rs).

 Every request is a task with a program counter, and a step runs one task through one lock
 scope or one await: management calls, wake-ups, proxied requests with their activity
 guard, and the auto-suspend gate. Which task steps next, and whether a call to Firecracker
 succeeds, is arbitrary.
 */
module Lifecycle {

  datatype VmState =
    | Creating | Starting | Pausing | Resuming | Suspending | Restoring | Destroying
    | Created | Started | Paused | Suspended | Destroyed

  predicate CanTransition(s: VmState, next: VmState) {
    match next
    case Created => s.Creating? || s.Starting?
    case Destroyed => s.Creating? || s.Destroying?
    case Starting => s.Created?
    case Started => s.Starting? || s.Pausing? || s.Resuming? || s.Suspending? || s.Restoring?
    case Pausing => s.Started?
    case Suspending => s.Started? || s.Paused?
    case Paused => s.Pausing? || s.Resuming?
    case Resuming => s.Paused?
    case Suspended => s.Suspending? || s.Restoring?
    case Restoring => s.Suspended?
    case Destroying => s.Created? || s.Started? || s.Paused? || s.Suspended?
    case Creating => false
  }

  predicate Settled(st: VmState) {
    st.Created? || st.Started? || st.Paused? || st.Suspended?
  }

  /** Every transition goes from a stable state to a transitional one or back. */
  lemma StableOrTransitional(s: VmState, next: VmState)
    requires CanTransition(s, next)
    ensures Settled(s) || s.Destroyed? <==> !(Settled(next) || next.Destroyed?)
  {
  }

  datatype Op = Start | Pause | Resume | Snapshot | Restore

  function During(op: Op): VmState {
    match op
    case Start => Starting
    case Pause => Pausing
    case Resume => Resuming
    case Snapshot => Suspending
    case Restore => Restoring
  }

  function OnSuccess(op: Op): VmState {
    match op
    case Start => Started
    case Pause => Paused
    case Resume => Started
    case Snapshot => Suspended
    case Restore => Started
  }

  function OnFailure(op: Op): VmState {
    match op
    case Start => Created
    case Pause => Started
    case Resume => Paused
    case Snapshot => Started
    case Restore => Suspended
  }

  /** The table lets an operation go back to where it came from, except a snapshot of a paused VM. */
  lemma RollbackAllowedIff(op: Op, from: VmState)
    requires CanTransition(from, During(op))
    ensures CanTransition(During(op), OnSuccess(op)) && CanTransition(During(op), OnFailure(op))
    ensures CanTransition(During(op), from) <==> !(op.Snapshot? && from.Paused?)
  {
  }

  /**
   Who runs an operation. `Auto` carries the value of the tracking clock when the gate read
   `in_flight`, and, once the VM is `Suspending`, its value at that transition.
   */
  datatype Caller = ApiCall | Auto(read: nat, began: nat) | Waker(proxied: bool)

  /** Where an operation stands: `Handed` is after the child was taken (snapshot) or stored (restore). */
  datatype Phase = Fetch | Begun | Calling | CallOk | CallErr | Handed

  datatype Pc =
    | Running(phase: Phase, op: Op, from: VmState, caller: Caller)
    | Gate | GateStarted | GateQuiet(read: nat)
    | Tracked | Looked
    | WaitLock(proxied: bool) | WakeLoop(proxied: bool)
    | Validate | Forwarding
    | Finished

  /**
   `stamps` gives each proxied request its place in the order of `track` calls, `clock` counts
   them; `refused` records that a completion or rollback transition was rejected.
   */
  datatype Sys = Sys(
    registered: bool, state: VmState, fc: bool, snapshot: bool,
    inFlight: nat, clock: nat, stamps: map<nat, nat>, wakeHolder: set<nat>,
    refused: bool, tasks: map<nat, Pc>)

  datatype Action =
    | Call(t: nat, op: Op)
    | Proxy(t: nat)
    | Exec(t: nat)
    | Idle(t: nat)
    | Advance(t: nat, good: bool)
    | Destroy

  /** After `create_vm`: the child is stored and the state set in one scope of the VM table's lock. */
  function Initial(): Sys {
    Sys(true, Created, true, false, 0, 0, map[], {}, false, map[])
  }

  predicate HoldsGuard(pc: Pc) {
    match pc
    case Tracked => true
    case Looked => true
    case Validate => true
    case Forwarding => true
    case WaitLock(p) => p
    case WakeLoop(p) => p
    case Running(_, _, _, c) => c.Waker? && c.proxied
    case _ => false
  }

  predicate HoldsLock(pc: Pc) {
    pc.WakeLoop? || (pc.Running? && pc.caller.Waker?)
  }

  function Put(s: Sys, t: nat, pc: Pc): Sys {
    s.(tasks := s.tasks[t := pc])
  }

  /** A request is over: its activity guard, if any, is dropped. */
  function Finish(s: Sys, t: nat, proxied: bool): Sys {
    var n := if proxied && s.inFlight > 0 then s.inFlight - 1 else s.inFlight;
    Put(s.(inFlight := n), t, Finished)
  }

  /** An operation returned to its caller; a waker lets the wake lock go and, proxied, validates next. */
  function Return(s: Sys, t: nat, caller: Caller, ok: bool): Sys {
    if !caller.Waker? then Finish(s, t, false)
    else
      var s1 := s.(wakeHolder := s.wakeHolder - {t});
      if ok && caller.proxied then Put(s1, t, Validate) else Finish(s1, t, caller.proxied)
  }

  /** A completion or rollback: `transition(next)?`, which must not be refused. */
  function Settle(s: Sys, t: nat, caller: Caller, next: VmState, ok: bool): Sys {
    if CanTransition(s.state, next) then Return(s.(state := next), t, caller, ok)
    else Return(s.(refused := true), t, caller, false)
  }

  function StepOp(s: Sys, t: nat, pc: Pc, good: bool): Sys
    requires pc.Running?
  {
    match pc.phase
    case Fetch =>
      if !s.registered || (pc.op.Restore? && !s.snapshot) then Return(s, t, pc.caller, false)
      else Put(s, t, pc.(phase := Begun))
    case Begun =>
      if CanTransition(s.state, During(pc.op)) then
        var caller := if pc.caller.Auto? then pc.caller.(began := s.clock) else pc.caller;
        Put(s.(state := During(pc.op)), t, Running(Calling, pc.op, s.state, caller))
      else Return(s, t, pc.caller, false)
    case Calling => Put(s, t, pc.(phase := if good then CallOk else CallErr))
    case CallOk =>
      match pc.op {
        case Snapshot => Put(s.(fc := false), t, pc.(phase := Handed))
        case Restore =>
          if s.registered then Put(s.(fc := true), t, pc.(phase := Handed)) else Return(s, t, pc.caller, false)
        case _ => Settle(s, t, pc.caller, OnSuccess(pc.op), true)
      }
    case Handed =>
      var s1 := if pc.op.Snapshot? then s.(snapshot := true) else s;
      Settle(s1, t, pc.caller, OnSuccess(pc.op), true)
    case CallErr => Settle(s, t, pc.caller, OnFailure(pc.op), false)
  }

  function StepTask(s: Sys, t: nat, pc: Pc, good: bool): Sys {
    match pc
    case Running(_, _, _, _) => StepOp(s, t, pc, good)
    // The auto-suspend gate: VM state (and configuration), then the in-flight count, then the cooldown.
    case Gate => Put(s, t, if s.registered && s.state.Started? && good then GateStarted else Finished)
    case GateStarted => Put(s, t, if s.inFlight > 0 then Finished else GateQuiet(s.clock))
    case GateQuiet(read) =>
      Put(s, t, if good then Running(Fetch, Snapshot, Started, Auto(read, 0)) else Finished)
    // A proxied request: look the VM up, read its state, wake it if need be, validate, forward.
    case Tracked => if s.registered then Put(s, t, Looked) else Finish(s, t, true)
    case Looked =>
      Put(s, t, if s.state.Suspended? || s.state.Suspending? || s.state.Restoring? then WaitLock(true) else Validate)
    case Validate => if s.state.Started? && good then Put(s, t, Forwarding) else Finish(s, t, true)
    case Forwarding => Finish(s, t, true)
    // ensure_started.
    case WaitLock(p) =>
      if s.wakeHolder == {} then Put(s.(wakeHolder := {t}), t, WakeLoop(p)) else s
    case WakeLoop(p) =>
      if !s.registered then Return(s, t, Waker(p), false)
      else match s.state {
        case Started => Return(s, t, Waker(p), true)
        case Suspended => Put(s, t, Running(Fetch, Restore, Suspended, Waker(p)))
        case Suspending => if good then s else Return(s, t, Waker(p), false)
        case Restoring => if good then s else Return(s, t, Waker(p), false)
        case _ => Return(s, t, Waker(p), false)
      }
    case Finished => s
  }

  function Do(s: Sys, a: Action): Sys {
    match a
    case Call(t, op) =>
      if t in s.tasks then s else Put(s, t, Running(Fetch, op, s.state, ApiCall))
    case Proxy(t) =>
      if t in s.tasks then s
      else Put(s.(inFlight := s.inFlight + 1, clock := s.clock + 1, stamps := s.stamps[t := s.clock]), t, Tracked)
    case Exec(t) => if t in s.tasks then s else Put(s, t, WaitLock(false))
    case Idle(t) => if t in s.tasks then s else Put(s, t, Gate)
    case Advance(t, good) => if t in s.tasks then StepTask(s, t, s.tasks[t], good) else s
    case Destroy => s.(registered := false, fc := false, inFlight := 0)
  }

  ghost predicate Run(states: seq<Sys>, acts: seq<Action>) {
    && |states| == |acts| + 1
    && states[0] == Initial()
    && forall k {:trigger acts[k]} :: 0 <= k < |acts| ==> states[k + 1] == Do(states[k], acts[k])
  }

  // ----- the invariant -----

  predicate InFlight(pc: Pc) {
    pc.Running? && pc.phase != Fetch && pc.phase != Begun
  }

  datatype Owner = Free | Held(t: nat)

  /** Whether the child is stored while operation `pc` is in flight. */
  predicate ChildDuring(pc: Pc)
    requires pc.Running?
  {
    match pc.op
    case Snapshot => !pc.phase.Handed?
    case Restore => pc.phase.Handed?
    case _ => true
  }

  /** Operation `pc` is in flight: the VM is in its transitional state and the child is where it should be. */
  predicate OpHolds(s: Sys, pc: Pc)
    requires pc.Running?
  {
    && s.state == During(pc.op)
    && CanTransition(pc.from, s.state)
    && (pc.phase.Handed? ==> pc.op.Snapshot? || pc.op.Restore?)
    && (s.registered ==> (s.fc <==> ChildDuring(pc)))
  }

  /** The transitional state is a lock: it belongs to the one operation in flight, `o`. */
  ghost predicate Owned(s: Sys, o: Owner) {
    && !s.refused
    && (forall t :: t in s.tasks && InFlight(s.tasks[t]) ==> o == Held(t))
    && (s.registered && (s.state.Suspended? || s.state.Restoring?) ==> s.snapshot)
    && match o
       case Free => s.registered ==> Settled(s.state) && (s.fc <==> !s.state.Suspended?)
       case Held(t) => t in s.tasks && InFlight(s.tasks[t]) && OpHolds(s, s.tasks[t])
  }

  function Holders(tasks: map<nat, Pc>): set<nat> {
    set t | t in tasks && HoldsGuard(tasks[t])
  }

  predicate ReadBy(pc: Pc, read: nat) {
    pc == GateQuiet(read) || (pc.Running? && pc.caller.Auto? && pc.caller.read == read)
  }

  predicate AutoInFlight(pc: Pc) {
    InFlight(pc) && pc.caller.Auto? && pc.op.Snapshot?
  }

  /** The activity counter counts the live guards, each of which has its place in the `track` order. */
  ghost predicate CountInv(s: Sys) {
    && (s.registered ==> s.inFlight == |Holders(s.tasks)|)
    && (forall t :: t in s.tasks && HoldsGuard(s.tasks[t]) ==> t in s.stamps)
    && (forall t :: t in s.stamps ==> s.stamps[t] < s.clock && t in s.tasks)
  }

  /** No live guard is older than a gate that read an in-flight count of zero. */
  ghost predicate GateInv(s: Sys)
    requires CountInv(s)
  {
    && (forall t, read: nat :: t in s.tasks && ReadBy(s.tasks[t], read) ==> read <= s.clock)
    && (s.registered ==>
          forall t, p, read: nat ::
            t in s.tasks && p in s.tasks && ReadBy(s.tasks[t], read) && HoldsGuard(s.tasks[p]) ==> read <= s.stamps[p])
  }

  /** A request forwarded during an auto-suspend was tracked before the VM became `Suspending`. */
  ghost predicate WindowInv(s: Sys)
    requires CountInv(s)
  {
    forall t, p :: t in s.tasks && p in s.tasks && AutoInFlight(s.tasks[t]) && s.tasks[p].Forwarding? ==>
      s.stamps[p] < s.tasks[t].caller.began
  }

  ghost predicate GuardInv(s: Sys) {
    CountInv(s) && GateInv(s) && WindowInv(s)
  }

  /** The wake lock is held by exactly the tasks inside `ensure_started`, at most one of them. */
  ghost predicate WakeInv(s: Sys) {
    && (forall t :: t in s.tasks && HoldsLock(s.tasks[t]) ==> s.wakeHolder == {t})
    && (forall t :: t in s.wakeHolder ==> t in s.tasks && HoldsLock(s.tasks[t]))
  }

  // ----- every step keeps the lock -----

  /** What one step of an operation's task does to the ownership of the VM. */
  function NextOwner(s: Sys, t: nat, o: Owner): Owner
    requires t in s.tasks && s.tasks[t].Running?
  {
    var pc := s.tasks[t];
    match pc.phase
    case Fetch => o
    case Begun => if CanTransition(s.state, During(pc.op)) then Held(t) else o
    case Calling => o
    case CallOk => if pc.op.Snapshot? || (pc.op.Restore? && s.registered) then o else Free
    case Handed => Free
    case CallErr => Free
  }

  /** Two states agree on everything ownership depends on but the tasks, which differ at `t` only. */
  predicate OnlyTask(s: Sys, s': Sys, t: nat, pc: Pc) {
    && s'.tasks == s.tasks[t := pc]
    && s'.registered == s.registered && s'.state == s.state && s'.fc == s.fc
    && s'.snapshot == s.snapshot && s'.refused == s.refused
  }

  lemma QuietStep(s: Sys, s': Sys, t: nat, pc: Pc, o: Owner)
    requires Owned(s, o) && OnlyTask(s, s', t, pc)
    requires !InFlight(pc) && (t in s.tasks ==> !InFlight(s.tasks[t]))
    ensures Owned(s', o)
  {
    assert forall u :: u in s'.tasks && u != t ==> u in s.tasks && s'.tasks[u] == s.tasks[u];
  }

  lemma ReleaseStep(s: Sys, s': Sys, t: nat, pc: Pc)
    requires Owned(s, Held(t)) && s'.tasks == s.tasks[t := pc] && !InFlight(pc) && !s'.refused
    requires s'.registered ==> Settled(s'.state) && (s'.fc <==> !s'.state.Suspended?)
    requires s'.registered && s'.state.Suspended? ==> s'.snapshot
    ensures Owned(s', Free)
  {
    assert forall u :: u in s'.tasks && u != t ==> u in s.tasks && s'.tasks[u] == s.tasks[u];
  }

  lemma HoldStep(s: Sys, s': Sys, t: nat, pc: Pc, o: Owner)
    requires Owned(s, o) && (o == Free || o == Held(t)) && s'.tasks == s.tasks[t := pc]
    requires InFlight(pc) && OpHolds(s', pc) && !s'.refused
    requires s'.registered && s'.state.Restoring? ==> s'.snapshot
    ensures Owned(s', Held(t))
  {
    assert forall u :: u in s'.tasks && u != t ==> u in s.tasks && s'.tasks[u] == s.tasks[u];
  }

  lemma FinishShape(s: Sys, t: nat, proxied: bool)
    ensures OnlyTask(s, Finish(s, t, proxied), t, Finished)
  {
  }

  lemma ReturnShape(s: Sys, t: nat, caller: Caller, ok: bool) returns (pc: Pc)
    ensures OnlyTask(s, Return(s, t, caller, ok), t, pc)
    ensures pc.Validate? || pc.Finished?
  {
    hide Finish;
    if !caller.Waker? {
      FinishShape(s, t, false);
      return Finished;
    }
    var s1 := s.(wakeHolder := s.wakeHolder - {t});
    if ok && caller.proxied {
      return Validate;
    }
    FinishShape(s1, t, caller.proxied);
    return Finished;
  }

  /** A completion or rollback that ends in a settled state is accepted and frees the VM. */
  lemma SettleFrees(s: Sys, s1: Sys, t: nat, caller: Caller, next: VmState, ok: bool)
    requires Owned(s, Held(t)) && s1.tasks == s.tasks && !s1.refused
    requires CanTransition(s1.state, next) && Settled(next)
    requires s1.registered ==> (s1.fc <==> !next.Suspended?) && (next.Suspended? ==> s1.snapshot)
    ensures Owned(Settle(s1, t, caller, next, ok), Free)
  {
    hide Owned, Return;
    var s2 := s1.(state := next);
    var pc := ReturnShape(s2, t, caller, ok);
    ReleaseStep(s, Return(s2, t, caller, ok), t, pc);
  }

  lemma OwnerFacts(s: Sys, t: nat, o: Owner)
    requires Owned(s, o) && t in s.tasks && InFlight(s.tasks[t])
    ensures o == Held(t) && OpHolds(s, s.tasks[t]) && !s.refused
    ensures s.registered && s.state.Restoring? ==> s.snapshot
  {
  }

  /** The steps before the transitional state is entered: look-up, then `transition`. */
  lemma EntryKeepsOwner(s: Sys, t: nat, good: bool, o: Owner)
    requires Owned(s, o) && t in s.tasks && s.tasks[t].Running? && !InFlight(s.tasks[t])
    ensures Owned(StepOp(s, t, s.tasks[t], good), NextOwner(s, t, o))
  {
    hide Return;
    var pc := s.tasks[t];
    var s' := StepOp(s, t, pc, good);
    var back := ReturnShape(s, t, pc.caller, false);
    if pc.phase.Begun? && CanTransition(s.state, During(pc.op)) {
      assert s.registered ==> s.state != Restoring;
      HoldStep(s, s', t, s'.tasks[t], o);
    } else {
      QuietStep(s, s', t, s'.tasks[t], o);
    }
  }

  lemma OpKeepsOwner(s: Sys, t: nat, good: bool, o: Owner)
    requires Owned(s, o) && t in s.tasks && s.tasks[t].Running?
    ensures Owned(StepOp(s, t, s.tasks[t], good), NextOwner(s, t, o))
  {
    hide Owned, Return, Settle;
    var pc := s.tasks[t];
    var s' := StepOp(s, t, pc, good);
    if pc.phase.Fetch? || pc.phase.Begun? {
      EntryKeepsOwner(s, t, good, o);
    } else {
      OwnerFacts(s, t, o);
      if pc.phase.Calling? || (pc.phase.CallOk? && (pc.op.Snapshot? || (pc.op.Restore? && s.registered))) {
        HoldStep(s, s', t, s'.tasks[t], o);
      } else if pc.phase.CallOk? && pc.op.Restore? {
        var back := ReturnShape(s, t, pc.caller, false);
        ReleaseStep(s, s', t, back);
      } else if pc.phase.CallErr? {
        SettleFrees(s, s, t, pc.caller, OnFailure(pc.op), false);
      } else {
        var s1 := if pc.phase.Handed? && pc.op.Snapshot? then s.(snapshot := true) else s;
        SettleFrees(s, s1, t, pc.caller, OnSuccess(pc.op), true);
      }
    }
  }

  // ----- every step keeps the guard count and the order of guards and gates -----

  function At(s: Sys, t: nat): Pc {
    if t in s.tasks then s.tasks[t] else Finished
  }

  /** Task `t` alone moves, to `pc`; it gains no guard, and a guard it drops is counted off. */
  predicate CountStep(s: Sys, s': Sys, t: nat, pc: Pc) {
    && s'.tasks == s.tasks[t := pc]
    && s'.registered == s.registered && s'.stamps == s.stamps && s'.clock == s.clock
    && (HoldsGuard(pc) ==> HoldsGuard(At(s, t)))
    && s'.inFlight == (if HoldsGuard(At(s, t)) && !HoldsGuard(pc) && s.inFlight > 0 then s.inFlight - 1 else s.inFlight)
  }

  /** A gate reads the clock only when the count is zero. */
  ghost predicate GateStep(s: Sys, t: nat, pc: Pc) {
    forall r: nat :: ReadBy(pc, r) ==>
      ReadBy(At(s, t), r) || (At(s, t).GateStarted? && r == s.clock && s.inFlight == 0)
  }

  /** The step `before` to `pc` enters the transitional state, and an auto-suspend notes the clock. */
  predicate Enters(s: Sys, before: Pc, pc: Pc) {
    && before.Running? && before.phase.Begun? && CanTransition(s.state, During(before.op))
    && pc == Running(Calling, before.op, s.state,
                     if before.caller.Auto? then before.caller.(began := s.clock) else before.caller)
  }

  /** A task in flight was so already, or enters now; a request is forwarded only by a started VM. */
  ghost predicate WindowStep(s: Sys, t: nat, pc: Pc) {
    && (InFlight(pc) ==>
          Enters(s, At(s, t), pc) || (InFlight(At(s, t)) && pc == At(s, t).(phase := pc.phase)))
    && (pc.Forwarding? ==> At(s, t).Forwarding? || (At(s, t).Validate? && s.state.Started?))
  }

  lemma HoldersStep(tasks: map<nat, Pc>, t: nat, pc: Pc)
    ensures Holders(tasks[t := pc]) == if HoldsGuard(pc) then Holders(tasks) + {t} else Holders(tasks) - {t}
    ensures t in Holders(tasks) <==> t in tasks && HoldsGuard(tasks[t])
  {
  }

  lemma NoHolders(tasks: map<nat, Pc>, p: nat)
    requires Holders(tasks) == {}
    ensures p in tasks ==> !HoldsGuard(tasks[p])
  {
    assert p in tasks && HoldsGuard(tasks[p]) ==> p in Holders(tasks);
  }

  lemma CountStepKeeps(s: Sys, s': Sys, t: nat, pc: Pc)
    requires CountInv(s) && CountStep(s, s', t, pc)
    ensures CountInv(s')
  {
    HoldersStep(s.tasks, t, pc);
    assert !HoldsGuard(Finished);
    hide HoldsGuard, Holders;
  }

  lemma GateStepKeeps(s: Sys, s': Sys, t: nat, pc: Pc)
    requires CountInv(s) && CountInv(s') && GateInv(s) && CountStep(s, s', t, pc) && GateStep(s, t, pc)
    ensures GateInv(s')
  {
    assert !HoldsGuard(Finished) && forall r: nat :: !ReadBy(Finished, r);
    hide HoldsGuard, ReadBy, Holders;
    if s.registered {
      forall u, p, read: nat | u in s'.tasks && p in s'.tasks && ReadBy(s'.tasks[u], read) && HoldsGuard(s'.tasks[p])
        ensures read <= s'.stamps[p]
      {
        assert p in s.tasks && HoldsGuard(s.tasks[p]);
        if u != t || ReadBy(At(s, t), read) {
          assert ReadBy(s.tasks[u], read);
        } else {
          NoHolders(s.tasks, p);
        }
      }
    }
  }

  lemma WindowStepKeeps(s: Sys, s': Sys, t: nat, pc: Pc, o: Owner)
    requires Owned(s, o)
    requires CountInv(s) && CountInv(s') && WindowInv(s) && CountStep(s, s', t, pc) && WindowStep(s, t, pc)
    ensures WindowInv(s')
  {
  }

  /** The wake lock is taken only when free, and let go when the task leaves `ensure_started`. */
  predicate WakeStep(s: Sys, s': Sys, t: nat, pc: Pc) {
    && (HoldsLock(pc) ==> HoldsLock(At(s, t)) || s.wakeHolder == {})
    && s'.wakeHolder == (if HoldsLock(pc) then (if HoldsLock(At(s, t)) then s.wakeHolder else {t})
                         else if HoldsLock(At(s, t)) then s.wakeHolder - {t} else s.wakeHolder)
  }

  ghost predicate TaskStep(s: Sys, s': Sys, t: nat, pc: Pc) {
    CountStep(s, s', t, pc) && GateStep(s, t, pc) && WindowStep(s, t, pc) && WakeStep(s, s', t, pc)
  }

  lemma WakeStepKeeps(s: Sys, s': Sys, t: nat, pc: Pc)
    requires WakeInv(s) && s'.tasks == s.tasks[t := pc] && WakeStep(s, s', t, pc)
    ensures WakeInv(s')
  {
    assert !HoldsLock(Finished);
    hide HoldsLock;
  }

  lemma FinishStep(s: Sys, t: nat, proxied: bool)
    requires HoldsGuard(At(s, t)) == proxied && !HoldsLock(At(s, t))
    ensures TaskStep(s, Finish(s, t, proxied), t, Finished)
  {
  }

  lemma ReturnStep(s: Sys, t: nat, caller: Caller, ok: bool) returns (pc: Pc)
    requires HoldsGuard(At(s, t)) == (caller.Waker? && caller.proxied) && HoldsLock(At(s, t)) == caller.Waker?
    ensures TaskStep(s, Return(s, t, caller, ok), t, pc)
    ensures OnlyTask(s, Return(s, t, caller, ok), t, pc) && !InFlight(pc)
  {
    pc := if caller.Waker? && ok && caller.proxied then Validate else Finished;
    assert Return(s, t, caller, ok).tasks == s.tasks[t := pc];
  }

  /** Steps of the gate touch nothing of the VM itself. */
  lemma GateTaskStep(s: Sys, t: nat, good: bool) returns (pc: Pc)
    requires t in s.tasks && (s.tasks[t].Gate? || s.tasks[t].GateStarted? || s.tasks[t].GateQuiet?)
    ensures TaskStep(s, StepTask(s, t, s.tasks[t], good), t, pc)
    ensures OnlyTask(s, StepTask(s, t, s.tasks[t], good), t, pc) && !InFlight(pc)
  {
    hide StepOp, Finish, Return;
    pc := StepTask(s, t, s.tasks[t], good).tasks[t];
  }

  /** Nor do the steps of a proxied request. */
  lemma ProxyTaskStep(s: Sys, t: nat, good: bool) returns (pc: Pc)
    requires t in s.tasks
    requires s.tasks[t].Tracked? || s.tasks[t].Looked? || s.tasks[t].Validate? || s.tasks[t].Forwarding?
    ensures TaskStep(s, StepTask(s, t, s.tasks[t], good), t, pc)
    ensures OnlyTask(s, StepTask(s, t, s.tasks[t], good), t, pc) && !InFlight(pc)
  {
    hide StepOp, Finish, Return;
    FinishStep(s, t, true);
    FinishShape(s, t, true);
    var before := s.tasks[t];
    pc := if before.Tracked? && s.registered then Looked
          else if before.Looked? then
            if s.state.Suspended? || s.state.Suspending? || s.state.Restoring? then WaitLock(true) else Validate
          else if before.Validate? && s.state.Started? && good then Forwarding
          else Finished;
  }

  /** Nor do the steps of a waker outside its restore. */
  lemma WaiterTaskStep(s: Sys, t: nat, good: bool) returns (pc: Pc)
    requires t in s.tasks && (s.tasks[t].WaitLock? || s.tasks[t].WakeLoop? || s.tasks[t].Finished?)
    ensures TaskStep(s, StepTask(s, t, s.tasks[t], good), t, pc)
    ensures OnlyTask(s, StepTask(s, t, s.tasks[t], good), t, pc) && !InFlight(pc)
  {
    hide StepOp, Finish, Return;
    var before := s.tasks[t];
    if before.WakeLoop? {
      var yes := ReturnStep(s, t, Waker(before.proxied), true);
      var no := ReturnStep(s, t, Waker(before.proxied), false);
      pc := if !s.registered then no
            else match s.state {
                case Started => yes
                case Suspended => Running(Fetch, Restore, Suspended, Waker(before.proxied))
                case Suspending => if good then before else no
                case Restoring => if good then before else no
                case _ => no
              };
    } else {
      pc := if before.WaitLock? && s.wakeHolder == {} then WakeLoop(before.proxied) else before;
    }
  }

  lemma SettleStep(s: Sys, s1: Sys, t: nat, caller: Caller, next: VmState, ok: bool) returns (pc: Pc)
    requires s1.tasks == s.tasks && s1.registered == s.registered && s1.stamps == s.stamps && s1.clock == s.clock
    requires s1.inFlight == s.inFlight && s1.wakeHolder == s.wakeHolder
    requires HoldsGuard(At(s, t)) == (caller.Waker? && caller.proxied) && HoldsLock(At(s, t)) == caller.Waker?
    ensures TaskStep(s, Settle(s1, t, caller, next, ok), t, pc)
  {
    hide Return;
    if CanTransition(s1.state, next) {
      pc := ReturnStep(s1.(state := next), t, caller, ok);
    } else {
      pc := ReturnStep(s1.(refused := true), t, caller, false);
    }
  }

  lemma EntryTaskStep(s: Sys, t: nat, good: bool) returns (pc: Pc)
    requires t in s.tasks && s.tasks[t].Running? && (s.tasks[t].phase.Fetch? || s.tasks[t].phase.Begun?)
    ensures TaskStep(s, StepOp(s, t, s.tasks[t], good), t, pc)
  {
    hide Return, Settle;
    var before := s.tasks[t];
    var c := before.caller;
    var back := ReturnStep(s, t, c, false);
    if before.phase.Fetch? {
      pc := if !s.registered || (before.op.Restore? && !s.snapshot) then back else before.(phase := Begun);
    } else if CanTransition(s.state, During(before.op)) {
      pc := Running(Calling, before.op, s.state, if c.Auto? then c.(began := s.clock) else c);
    } else {
      pc := back;
    }
  }

  lemma CallTaskStep(s: Sys, t: nat, good: bool) returns (pc: Pc)
    requires t in s.tasks && s.tasks[t].Running? && (s.tasks[t].phase.Calling? || s.tasks[t].phase.CallOk?)
    requires s.tasks[t].phase.CallOk? ==> s.tasks[t].op.Snapshot? || s.tasks[t].op.Restore?
    ensures TaskStep(s, StepOp(s, t, s.tasks[t], good), t, pc)
  {
    hide Return, Settle;
    var before := s.tasks[t];
    if before.phase.Calling? {
      pc := before.(phase := if good then CallOk else CallErr);
    } else if before.op.Restore? && !s.registered {
      pc := ReturnStep(s, t, before.caller, false);
    } else {
      pc := before.(phase := Handed);
    }
  }

  lemma EndTaskStep(s: Sys, t: nat, good: bool) returns (pc: Pc)
    requires t in s.tasks && s.tasks[t].Running?
    requires s.tasks[t].phase.Handed? || s.tasks[t].phase.CallErr? ||
             (s.tasks[t].phase.CallOk? && !s.tasks[t].op.Snapshot? && !s.tasks[t].op.Restore?)
    ensures TaskStep(s, StepOp(s, t, s.tasks[t], good), t, pc)
  {
    hide Return, Settle, TaskStep;
    var before := s.tasks[t];
    var s1 := if before.phase.Handed? && before.op.Snapshot? then s.(snapshot := true) else s;
    if before.phase.CallErr? {
      pc := SettleStep(s, s1, t, before.caller, OnFailure(before.op), false);
    } else {
      pc := SettleStep(s, s1, t, before.caller, OnSuccess(before.op), true);
    }
  }

  lemma StepTaskFacts(s: Sys, t: nat, good: bool, o: Owner) returns (pc: Pc, owner: Owner)
    requires Owned(s, o) && t in s.tasks
    ensures TaskStep(s, StepTask(s, t, s.tasks[t], good), t, pc)
    ensures Owned(StepTask(s, t, s.tasks[t], good), owner)
  {
    hide Owned, TaskStep, StepOp;
    var before := s.tasks[t];
    if before.Running? {
      OpKeepsOwner(s, t, good, o);
      owner := NextOwner(s, t, o);
      if before.phase.Fetch? || before.phase.Begun? {
        pc := EntryTaskStep(s, t, good);
      } else if before.phase.Calling? || (before.phase.CallOk? && (before.op.Snapshot? || before.op.Restore?)) {
        pc := CallTaskStep(s, t, good);
      } else {
        pc := EndTaskStep(s, t, good);
      }
    } else {
      hide StepTask;
      owner := o;
      if before.Gate? || before.GateStarted? || before.GateQuiet? {
        pc := GateTaskStep(s, t, good);
      } else if before.WaitLock? || before.WakeLoop? || before.Finished? {
        pc := WaiterTaskStep(s, t, good);
      } else {
        pc := ProxyTaskStep(s, t, good);
      }
      QuietStep(s, StepTask(s, t, before, good), t, pc, o);
    }
  }

  ghost predicate Inv(s: Sys) {
    (exists o :: Owned(s, o)) && GuardInv(s) && WakeInv(s)
  }

  lemma TaskStepKeeps(s: Sys, s': Sys, t: nat, pc: Pc, o: Owner)
    requires Owned(s, o) && GuardInv(s) && WakeInv(s) && TaskStep(s, s', t, pc)
    ensures GuardInv(s') && WakeInv(s')
  {
    assert s'.tasks == s.tasks[t := pc];
    hide Owned, CountInv, GateInv, WindowInv, WakeInv, CountStep, GateStep, WindowStep, WakeStep;
    CountStepKeeps(s, s', t, pc);
    GateStepKeeps(s, s', t, pc);
    WindowStepKeeps(s, s', t, pc, o);
    WakeStepKeeps(s, s', t, pc);
  }

  /** A new proxied request is counted, and its guard is younger than every gate's reading. */
  lemma ProxyCounted(s: Sys, t: nat)
    requires CountInv(s) && t !in s.tasks
    ensures CountInv(Do(s, Proxy(t)))
  {
    HoldersStep(s.tasks, t, Tracked);
    assert HoldsGuard(Tracked);
    hide StepTask, HoldsGuard, Holders;
  }

  lemma ProxyKeeps(s: Sys, t: nat)
    requires GuardInv(s) && WakeInv(s) && t !in s.tasks
    ensures GuardInv(Do(s, Proxy(t))) && WakeInv(Do(s, Proxy(t)))
  {
    ProxyCounted(s, t);
    ProxyKeepsWake(s, t);
    assert !AutoInFlight(Tracked) && forall r: nat :: !ReadBy(Tracked, r);
    hide StepTask, HoldsGuard, HoldsLock, InFlight, ReadBy, Holders, WakeInv;
  }

  lemma ProxyKeepsWake(s: Sys, t: nat)
    requires WakeInv(s) && t !in s.tasks
    ensures WakeInv(Do(s, Proxy(t)))
  {
    assert !HoldsLock(Tracked);
    hide StepTask, HoldsLock;
  }

  /** The first program counter of a management call, a wake-up or a gate. */
  function Fresh(s: Sys, a: Action): Pc
    requires a.Call? || a.Exec? || a.Idle?
  {
    if a.Call? then Running(Fetch, a.op, s.state, ApiCall) else if a.Exec? then WaitLock(false) else Gate
  }

  /** They start without a guard, a reading or the wake lock. */
  lemma SpawnStep(s: Sys, a: Action)
    requires (a.Call? || a.Exec? || a.Idle?) && a.t !in s.tasks
    ensures TaskStep(s, Do(s, a), a.t, Fresh(s, a)) && OnlyTask(s, Do(s, a), a.t, Fresh(s, a)) && !InFlight(Fresh(s, a))
  {
    hide StepTask;
  }

  lemma DestroyKeeps(s: Sys, o: Owner)
    requires Owned(s, o) && GuardInv(s) && WakeInv(s)
    ensures Owned(Do(s, Destroy), o) && GuardInv(Do(s, Destroy)) && WakeInv(Do(s, Destroy))
  {
    hide StepTask;
    assert CountInv(Do(s, Destroy));
  }

  lemma DoKeepsInv(s: Sys, a: Action)
    requires Inv(s)
    ensures Inv(Do(s, a))
  {
    hide GuardInv, WakeInv, TaskStep, StepTask, Owned;
    var s' := Do(s, a);
    var o :| Owned(s, o);
    match a {
      case Advance(t, good) =>
        if t in s.tasks {
          var pc, owner := StepTaskFacts(s, t, good, o);
          TaskStepKeeps(s, s', t, pc, o);
        }
      case Proxy(t) =>
        if t !in s.tasks {
          ProxyKeeps(s, t);
          QuietStep(s, s', t, Tracked, o);
        }
      case Destroy => DestroyKeeps(s, o);
      case _ =>
        if a.t !in s.tasks {
          SpawnStep(s, a);
          TaskStepKeeps(s, s', a.t, Fresh(s, a), o);
          QuietStep(s, s', a.t, Fresh(s, a), o);
        }
    }
  }

  // ----- what holds in every run -----

  lemma {:induction false} RunKeepsInv(states: seq<Sys>, acts: seq<Action>, k: nat)
    requires Run(states, acts) && k < |states|
    ensures Inv(states[k])
  {
    if k == 0 {
      assert Owned(Initial(), Free);
    } else {
      hide Do, Inv;
      RunKeepsInv(states, acts, k - 1);
      DoKeepsInv(states[k - 1], acts[k - 1]);
    }
  }

  /** At most one operation is in flight, the transitional state names it, and nothing was ever refused. */
  lemma OneOperationInFlight(states: seq<Sys>, acts: seq<Action>, k: nat)
    requires Run(states, acts) && k < |states|
    ensures var s := states[k];
      && !s.refused
      && (forall t, u :: t in s.tasks && u in s.tasks && InFlight(s.tasks[t]) && InFlight(s.tasks[u]) ==> t == u)
      && (forall t :: t in s.tasks && InFlight(s.tasks[t]) ==> s.state == During(s.tasks[t].op))
      && (s.registered ==> (Settled(s.state) <==> forall t :: t in s.tasks ==> !InFlight(s.tasks[t])))
  {
    hide GuardInv, WakeInv, Run;
    RunKeepsInv(states, acts, k);
  }

  /** In a stable state the child is gone exactly when the VM is suspended, and then a snapshot is recorded. */
  lemma NoChildIffSuspended(states: seq<Sys>, acts: seq<Action>, k: nat)
    requires Run(states, acts) && k < |states| && states[k].registered && Settled(states[k].state)
    ensures !states[k].fc <==> states[k].state.Suspended?
    ensures states[k].state.Suspended? ==> states[k].snapshot
  {
    hide GuardInv, WakeInv, Run;
    RunKeepsInv(states, acts, k);
  }

  /** Wakers take turns, so at most one of them restores. */
  lemma OneWaker(states: seq<Sys>, acts: seq<Action>, k: nat, t: nat, u: nat)
    requires Run(states, acts) && k < |states| && t in states[k].tasks && u in states[k].tasks
    requires HoldsLock(states[k].tasks[t]) && HoldsLock(states[k].tasks[u])
    ensures t == u
  {
    hide GuardInv, Run, HoldsLock;
    RunKeepsInv(states, acts, k);
  }

  function Rank(pc: Pc): nat {
    if !InFlight(pc) then 0
    else match pc.phase
         case Calling => 3
         case CallOk => 2
         case _ => 1
  }

  /** Every step of the operation in flight brings it closer to its end, and its end settles the VM. */
  lemma OperationEnds(states: seq<Sys>, acts: seq<Action>, k: nat, t: nat, good: bool)
    requires Run(states, acts) && k < |states| && t in states[k].tasks && InFlight(states[k].tasks[t])
    ensures var s' := Do(states[k], Advance(t, good));
      && t in s'.tasks && Rank(s'.tasks[t]) < Rank(states[k].tasks[t])
      && (Rank(s'.tasks[t]) == 0 && s'.registered ==> Settled(s'.state))
  {
    hide GuardInv, WakeInv, Run, Return, Settle;
    var s := states[k];
    RunKeepsInv(states, acts, k);
    var o :| Owned(s, o);
    OpKeepsOwner(s, t, good, o);
    var pc, owner := StepTaskFacts(s, t, good, o);
    assert Owned(Do(s, Advance(t, good)), NextOwner(s, t, o));
    assert Do(s, Advance(t, good)).tasks[t] == pc;
  }
}
