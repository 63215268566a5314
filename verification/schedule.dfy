/**
 The cron scheduler (hostd/src/vmm/firecracker/schedule.rs). Times are whole seconds; a schedule is
 the set of its occurrences, and `schedule.after(t).next()` its least element after `t`.
 */
module Schedules {

  import opened Wrappers

  type VmId = string

  /** What the cron library answers for the first occurrence after `t`. */
  ghost predicate Next(occurrences: iset<int>, t: int, r: Option<int>) {
    match r
    case None => forall u :: u in occurrences ==> u <= t
    case Some(f) => f in occurrences && f > t && forall u :: u in occurrences && u > t ==> f <= u
  }

  // ----- the windows of a run of ticks -----

  /** How many ticks see `t`, when the clock read `clock[0]` at the start and `clock[k]` at tick `k`. */
  function Hits(clock: seq<int>, t: int): nat {
    var n := |clock|;
    if n < 2 then 0 else Hits(clock[..n - 1], t) + if clock[n - 2] < t <= clock[n - 1] then 1 else 0
  }

  lemma HitsMore(clock: seq<int>, now: int, t: int)
    requires clock != []
    ensures Hits(clock + [now], t) == Hits(clock, t) + if clock[|clock| - 1] < t <= now then 1 else 0
  {
    assert (clock + [now])[..|clock|] == clock;
  }

  /** How many times the clock was set back across `t`. */
  function SetBacks(clock: seq<int>, t: int): nat {
    var n := |clock|;
    if n < 2 then 0 else SetBacks(clock[..n - 1], t) + if clock[n - 1] < t <= clock[n - 2] then 1 else 0
  }

  lemma {:induction false} Crossings(clock: seq<int>, t: int)
    requires |clock| > 0
    ensures Hits(clock, t) - SetBacks(clock, t) ==
            (if t <= clock[|clock| - 1] then 1 else 0) - (if t <= clock[0] then 1 else 0)
  {
    if |clock| > 1 {
      Crossings(clock[..|clock| - 1], t);
    }
  }

  /**
   A time that has come since the start lies in exactly one tick's window if and only if the clock
   was never set back across it; a time not after the start then lies in none.
   */
  lemma WindowsTileTimeIff(clock: seq<int>, t: int)
    requires |clock| > 0
    ensures clock[0] < t <= clock[|clock| - 1] ==> (Hits(clock, t) == 1 <==> SetBacks(clock, t) == 0)
    ensures !(clock[0] < t <= clock[|clock| - 1]) ==> (Hits(clock, t) == 0 <==>
              SetBacks(clock, t) == if t <= clock[0] && clock[|clock| - 1] < t then 1 else 0)
  {
    Crossings(clock, t);
  }

  lemma {:induction false} SteadyClock(clock: seq<int>, t: int)
    requires forall i, j :: 0 <= i < j < |clock| ==> clock[i] <= clock[j]
    ensures SetBacks(clock, t) == 0
  {
    if |clock| > 1 {
      SteadyClock(clock[..|clock| - 1], t);
    }
  }

  /** With a clock that never goes back, the windows tile the time since the start. */
  lemma SteadyWindowsTile(clock: seq<int>, t: int)
    requires |clock| > 0 && forall i, j :: 0 <= i < j < |clock| ==> clock[i] <= clock[j]
    ensures Hits(clock, t) == if clock[0] < t <= clock[|clock| - 1] then 1 else 0
  {
    SteadyClock(clock, t);
    Crossings(clock, t);
  }

  // ----- the scheduler -----

  /** A VM as a tick sees it: whether it is a schedule VM with a valid expression, and its next occurrence. */
  datatype Vm = Vm(scheduled: bool, next: Option<int>)

  function DueAt(vms: map<VmId, Vm>, now: int): set<VmId> {
    set v | v in vms && vms[v].scheduled && vms[v].next.Some? && vms[v].next.value <= now
  }

  /** The first occurrence after a time is not in the future exactly when some occurrence is in the window. */
  lemma NextIsDue(occurrences: iset<int>, last: int, next: Option<int>, now: int)
    requires Next(occurrences, last, next)
    ensures next.Some? && next.value <= now <==> exists t :: t in occurrences && last < t <= now
  {
    if next.Some? && next.value <= now {
      assert next.value in occurrences;
    }
  }

  /** A schedule with the one occurrence `t` is due at the tick that reads `now`, after one that read `last`. */
  ghost predicate DueOnce(t: int, last: int, now: int) {
    exists next :: Next(iset{t}, last, next) && next.Some? && next.value <= now
  }

  /**
   A clock that reads 0 at the start, and then 5, 2 and 6 at three ticks, makes the occurrence at 4 due
   at the first and at the third.
   */
  lemma SetBackFiresTwice()
    ensures var clock := [0, 5, 2, 6];
      Hits(clock, 4) == 2 && forall k :: 1 <= k < 4 ==> (DueOnce(4, clock[k - 1], clock[k]) <==> k != 2)
  {
    HitsMore([0], 5, 4);
    HitsMore([0, 5], 2, 4);
    HitsMore([0, 5, 2], 6, 4);
    assert [0] + [5] == [0, 5] && [0, 5] + [2] == [0, 5, 2] && [0, 5, 2] + [6] == [0, 5, 2, 6];
    assert Next(iset{4}, 0, Some(4)) && Next(iset{4}, 2, Some(4));
    forall next | Next(iset{4}, 5, next) ensures next.None? {
    }
  }

  // ----- the runs of one VM -----

  datatype Event = Fired(launched: set<VmId>) | Ended(v: VmId)

  /** The VMs with a run going on after those events. */
  function Active(events: seq<Event>): set<VmId> {
    if events == [] then {}
    else
      var before, e := Active(events[..|events| - 1]), events[|events| - 1];
      if e.Fired? then before + e.launched else before - {e.v}
  }

  /** No VM is launched while it has a run going on. */
  ghost predicate Exclusive(events: seq<Event>) {
    forall k :: 0 <= k < |events| && events[k].Fired? ==> events[k].launched !! Active(events[..k])
  }

  lemma ActiveMore(events: seq<Event>, e: Event)
    requires Exclusive(events) && (e.Fired? ==> e.launched !! Active(events))
    ensures Exclusive(events + [e])
    ensures Active(events + [e]) == if e.Fired? then Active(events) + e.launched else Active(events) - {e.v}
  {
    var more := events + [e];
    assert more[..|events|] == events;
    assert forall k :: 0 <= k < |events| ==> more[..k] == events[..k];
  }

  lemma {:induction false} StaysActive(events: seq<Event>, i: nat, j: nat, v: VmId)
    requires i < j <= |events| && events[i].Fired? && v in events[i].launched
    requires forall m :: i < m < j ==> events[m] != Ended(v)
    ensures v in Active(events[..j])
  {
    assert events[..j][..j - 1] == events[..j - 1];
    if i < j - 1 {
      StaysActive(events, i, j - 1, v);
    }
  }

  /** Over every run of the scheduler, a VM is launched again only after its last run has ended. */
  lemma RunsApart(events: seq<Event>, i: nat, j: nat, v: VmId)
    requires Exclusive(events) && i < j < |events|
    requires events[i].Fired? && v in events[i].launched && events[j].Fired? && v in events[j].launched
    ensures exists m :: i < m < j && events[m] == Ended(v)
  {
    if forall m :: i < m < j ==> events[m] != Ended(v) {
      StaysActive(events, i, j, v);
    }
  }

  class Scheduler {

    var lastTick: int
    /** The VMs whose run lock is held. */
    var running: set<VmId>
    /** Every reading of the clock so far. */
    ghost var clock: seq<int>
    /** What was launched at each tick, and the runs that ended. */
    ghost var events: seq<Event>

    ghost predicate Valid()
      reads this
    {
      clock != [] && clock[|clock| - 1] == lastTick && Exclusive(events) && running == Active(events)
    }

    constructor (now: int)
      ensures Valid() && clock == [now] && events == [] && running == {}
    {
      lastTick, running, clock, events := now, {}, [now], [];
    }

    /**
     One tick: the VMs due are those whose schedule has an occurrence in the window, and each is
     launched unless its previous run is still going.
     */
    method Tick(now: int, vms: map<VmId, Vm>, ghost occurrences: map<VmId, iset<int>>)
      returns (due: set<VmId>, launched: set<VmId>)
      requires Valid()
      requires forall v :: v in vms && vms[v].scheduled ==>
        v in occurrences && Next(occurrences[v], lastTick, vms[v].next)
      modifies this
      ensures Valid() && clock == old(clock) + [now] && events == old(events) + [Fired(launched)]
      ensures forall v :: v in due <==>
        v in vms && vms[v].scheduled && exists t :: t in occurrences[v] && old(lastTick) < t <= now
      ensures launched == due - old(running) && running == old(running) + launched
    {
      due := DueNow(now, vms, occurrences);
      hide Next, Exclusive, Active, DueAt;
      launched := LaunchAll(due);
      ActiveMore(events, Fired(launched));
      events := events + [Fired(launched)];
      lastTick := now;
      clock := clock + [now];
    }

    /** The VMs whose first occurrence after the last tick is not in the future. */
    method DueNow(now: int, vms: map<VmId, Vm>, ghost occurrences: map<VmId, iset<int>>) returns (due: set<VmId>)
      requires forall v :: v in vms && vms[v].scheduled ==>
        v in occurrences && Next(occurrences[v], lastTick, vms[v].next)
      ensures forall v :: v in due <==>
        v in vms && vms[v].scheduled && exists t :: t in occurrences[v] && lastTick < t <= now
    {
      due := DueAt(vms, now);
      forall v | v in vms && vms[v].scheduled
        ensures v in due <==> exists t :: t in occurrences[v] && lastTick < t <= now
      {
        NextIsDue(occurrences[v], lastTick, vms[v].next, now);
      }
    }

    /** `spawn_scheduled_run` for each VM due: a `try_lock` on its run lock. */
    method LaunchAll(due: set<VmId>) returns (launched: set<VmId>)
      modifies this`running
      ensures launched == due - old(running) && running == old(running) + launched
    {
      launched := {};
      var todo := due;
      while todo != {}
        invariant todo <= due
        invariant forall v :: v in launched <==> v in due && v !in todo && v !in old(running)
        invariant forall v :: v in running <==> v in old(running) || v in launched
        decreases |todo|
      {
        var v :| v in todo;
        if v !in running {
          running := running + {v};
          launched := launched + {v};
        }
        todo := todo - {v};
      }
    }

    /** A run has suspended its VM again and lets go of the run lock. */
    method RunDone(v: VmId)
      requires Valid() && v in running
      modifies this`running, this`events
      ensures Valid() && running == old(running) - {v} && events == old(events) + [Ended(v)]
    {
      hide Exclusive, Active;
      ActiveMore(events, Ended(v));
      running := running - {v};
      events := events + [Ended(v)];
    }
  }
}
