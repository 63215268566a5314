/**
 hostd and guestd together: guestd's events may be lost, repeated and reordered across
 connections, and so may requests overtake each other on different connections.
 */
module WorkloadSync {

  import opened Workloads
  import opened Wrappers

  datatype Result = Result(exitCode: Option<int>, signal: Option<int>)

  /** guestd's table entry; `result` is there once the process has been reaped. */
  datatype Entry = Entry(pid: nat, result: Option<Result>)

  /**
   `asked` and `stops` are the ids whose start and stop requests were sent, `handled` those whose
   start guestd has handled, `unborn` those whose spawn failed, `early` those whose stop guestd
   handled when it did not know the workload. `sent` holds every event guestd ever wrote.
   */
  datatype Sys = Sys(
    host: Records, guest: map<Id, Entry>, sent: set<Event>,
    asked: set<Id>, stops: set<Id>, handled: set<Id>, unborn: set<Id>, early: set<Id>)

  datatype Action =
    | Register(id: Id)
    | RequestStop(id: Id)
    | StopNotQueued(id: Id)
    | GuestStart(id: Id, pid: nat, ok: bool)
    | GuestStop(id: Id)
    | Reap(id: Id, result: Result)
    | ReportExit(id: Id)
    | List(infos: seq<Info>)
    | Deliver(e: Event)

  function Initial(): Sys {
    Sys(map[], map[], {}, {}, {}, {}, {}, {})
  }

  /** `infos` lists the guest's table, each workload once, in some order. */
  predicate Lists(guest: map<Id, Entry>, infos: seq<Info>) {
    && (forall i :: 0 <= i < |infos| ==> infos[i].id in guest && infos[i] == InfoOf(infos[i].id, guest[infos[i].id]))
    && (forall i, j :: 0 <= i < j < |infos| ==> infos[i].id != infos[j].id)
    && (forall id :: id in guest ==> InfoOf(id, guest[id]) in infos)
  }

  function InfoOf(id: Id, e: Entry): Info {
    match e.result
    case None => Info(id, true, None, None)
    case Some(r) => Info(id, false, r.exitCode, r.signal)
  }

  function Do(s: Sys, a: Action): Sys {
    match a
    case Register(id) =>
      if id in s.asked then s else s.(host := s.host[id := NewRecord()], asked := s.asked + {id})
    case RequestStop(id) =>
      if id in s.host && Active(s.host[id])
      then s.(host := s.host[id := s.host[id].(stopRequested := true)], stops := s.stops + {id})
      else s
    case StopNotQueued(id) =>
      if id in s.host then s.(host := s.host[id := s.host[id].(stopRequested := false)]) else s
    case GuestStart(id, pid, ok) =>
      if id !in s.asked || id in s.handled then s
      else if ok then
        s.(handled := s.handled + {id}, guest := s.guest[id := Entry(pid, None)],
           sent := s.sent + {StartedEvent(id, pid)})
      else s.(handled := s.handled + {id}, unborn := s.unborn + {id}, sent := s.sent + {ErrorEvent(id)})
    case GuestStop(id) =>
      if id in s.stops && id !in s.guest then s.(early := s.early + {id}, sent := s.sent + {ErrorEvent(id)}) else s
    case Reap(id, result) =>
      if id in s.guest && s.guest[id].result.None?
      then s.(guest := s.guest[id := s.guest[id].(result := Some(result))])
      else s
    case ReportExit(id) =>
      if id in s.guest && s.guest[id].result.Some? then
        var r := s.guest[id].result.value;
        s.(sent := s.sent + {ExitedEvent(id, r.exitCode, r.signal)})
      else s
    case List(infos) => if Lists(s.guest, infos) then s.(sent := s.sent + {ListResult(infos)}) else s
    case Deliver(e) => if e in s.sent then s.(host := Apply(s.host, e)) else s
  }

  ghost predicate Run(states: seq<Sys>, acts: seq<Action>) {
    && |states| == |acts| + 1
    && states[0] == Initial()
    && forall k {:trigger acts[k]} :: 0 <= k < |acts| ==> states[k + 1] == Do(states[k], acts[k])
  }

  // ----- the invariant -----

  predicate InfoTrue(guest: map<Id, Entry>, info: Info) {
    info.id in guest && (!info.running ==> guest[info.id].result == Some(Result(info.exitCode, info.signal)))
  }

  /** Events say what guestd's table says, or will go on saying. */
  predicate EventTrue(s: Sys, e: Event) {
    match e
    case StartedEvent(id, pid) => id in s.guest && s.guest[id].pid == pid
    case ExitedEvent(id, code, sig) => id in s.guest && s.guest[id].result == Some(Result(code, sig))
    case ErrorEvent(id) => id in s.unborn || id in s.early
    case ListResult(infos) => forall info :: info in infos ==> InfoTrue(s.guest, info)
  }

  predicate RecordTrue(s: Sys, id: Id, r: Record) {
    && (r.pid.Some? ==> id in s.guest && s.guest[id].pid == r.pid.value)
    && match r.state
       case Starting => r.exitCode == None && r.signal == None
       case Running => r.exitCode == None && r.signal == None && id in s.guest
       case Failed => r.exitCode == None && r.signal == None && (id in s.unborn || id in s.early)
       case _ => id in s.guest && s.guest[id].result == Some(Result(r.exitCode, r.signal))
  }

  ghost predicate Inv(s: Sys) {
    && (forall e :: e in s.sent ==> EventTrue(s, e))
    && (forall id :: id in s.host ==> RecordTrue(s, id, s.host[id]))
    && (forall id :: id in s.guest || id in s.unborn ==> id in s.handled)
    && (forall id :: id in s.guest ==> id !in s.unborn)
    && (forall id :: id in s.host ==> id in s.asked)
  }

  /** The guest's side of a state only grows, and results are final. */
  predicate Grows(s: Sys, s': Sys) {
    && (forall id :: id in s.guest ==>
          id in s'.guest && s'.guest[id].pid == s.guest[id].pid
          && (s.guest[id].result.Some? ==> s'.guest[id].result == s.guest[id].result))
    && s.unborn <= s'.unborn && s.early <= s'.early && s.sent <= s'.sent
  }

  lemma DoGrows(s: Sys, a: Action)
    requires Inv(s)
    ensures Grows(s, Do(s, a))
  {
    hide Lists, Apply, EventTrue, RecordTrue;
  }

  lemma TruthLasts(s: Sys, s': Sys)
    requires Grows(s, s')
    ensures forall e :: EventTrue(s, e) ==> EventTrue(s', e)
    ensures forall id, r :: RecordTrue(s, id, r) ==> RecordTrue(s', id, r)
  {
  }

  /** `r'` is as far along as `r`; once over, a record keeps its state, exit code and signal. */
  predicate Forward(r: Record, r': Record) {
    && Rank(r.state) <= Rank(r'.state)
    && (!Active(r) ==> r'.state == r.state && r'.exitCode == r.exitCode && r'.signal == r.signal)
  }

  /** An exit lands in `Stopped` exactly when a stop was requested, which events leave as it is. */
  predicate Landed(r: Record, r': Record) {
    && r'.stopRequested == r.stopRequested
    && (Active(r) && !Active(r') && !r'.state.Failed? ==> (r'.state.Stopped? <==> r.stopRequested))
  }

  /** A true line keeps a record true, moves it only forward, and leaves a terminal one alone. */
  lemma InfoKeeps(s: Sys, r: Record, info: Info)
    requires RecordTrue(s, info.id, r) && InfoTrue(s.guest, info)
    ensures var r' := ApplyInfo(r, info);
      && RecordTrue(s, info.id, r') && Forward(r, r') && Landed(r, r')
      && (if info.running then !r'.state.Starting? else !Active(r'))
  {
  }

  /** `ApplyInfos` keeps the table's keys, records and their direction, and settles every exit it lists. */
  lemma {:induction false} InfosKeep(s: Sys, rs: Records, infos: seq<Info>)
    requires forall info :: info in infos ==> InfoTrue(s.guest, info)
    requires forall id :: id in rs ==> RecordTrue(s, id, rs[id])
    ensures var rs' := ApplyInfos(rs, infos);
      && rs'.Keys == rs.Keys
      && (forall id :: id in rs ==> RecordTrue(s, id, rs'[id]) && Forward(rs[id], rs'[id]) && Landed(rs[id], rs'[id]))
      && (forall info :: info in infos && !info.running && info.id in rs ==> !Active(rs'[info.id]))
    decreases |infos|
  {
    if infos != [] {
      var info := infos[0];
      if info.id in rs {
        InfoKeeps(s, rs[info.id], info);
      }
      var rs1 := if info.id in rs then rs[info.id := ApplyInfo(rs[info.id], info)] else rs;
      hide RecordTrue, InfoTrue, ApplyInfo;
      InfosKeep(s, rs1, infos[1..]);
    }
  }

  /** A true event keeps every record true, moves it only forward, and has the effect it reports. */
  lemma EventKeeps(s: Sys, e: Event)
    requires EventTrue(s, e) && forall id :: id in s.host ==> RecordTrue(s, id, s.host[id])
    ensures var rs' := Apply(s.host, e);
      && rs'.Keys == s.host.Keys
      && (forall id :: id in rs' ==>
            RecordTrue(s, id, rs'[id]) && Forward(s.host[id], rs'[id]) && Landed(s.host[id], rs'[id]))
      && ((e.ExitedEvent? || e.ErrorEvent?) && e.id in rs' ==> !Active(rs'[e.id]))
      && (e.StartedEvent? && e.id in rs' ==> !rs'[e.id].state.Starting? && rs'[e.id].pid == Some(e.pid))
  {
    if e.ListResult? {
      InfosKeep(s, s.host, e.infos);
    }
  }

  /** A new event is true when it is written. */
  lemma NewEventTrue(s: Sys, a: Action, e: Event)
    requires Inv(s) && e in Do(s, a).sent && e !in s.sent
    ensures EventTrue(Do(s, a), e)
  {
  }

  lemma RecordsTrue(s: Sys, a: Action, id: Id)
    requires Inv(s) && id in Do(s, a).host
    ensures RecordTrue(Do(s, a), id, Do(s, a).host[id])
    ensures id in s.host ==> Forward(s.host[id], Do(s, a).host[id])
  {
    hide Lists, Apply, ApplyInfos;
    DoGrows(s, a);
    TruthLasts(s, Do(s, a));
    if a.Deliver? && a.e in s.sent {
      EventKeeps(s, a.e);
    }
  }

  lemma DoKeepsInv(s: Sys, a: Action)
    requires Inv(s)
    ensures Inv(Do(s, a))
  {
    var s' := Do(s, a);
    DoGrows(s, a);
    TruthLasts(s, s');
    forall e | e in s'.sent ensures EventTrue(s', e) {
      if e !in s.sent { NewEventTrue(s, a, e); }
    }
    forall id | id in s'.host ensures RecordTrue(s', id, s'.host[id]) {
      RecordsTrue(s, a, id);
    }
    Bookkeeping(s, a);
  }

  lemma Bookkeeping(s: Sys, a: Action)
    requires Inv(s)
    ensures var s' := Do(s, a);
      && (forall id :: id in s'.guest || id in s'.unborn ==> id in s'.handled)
      && (forall id :: id in s'.guest ==> id !in s'.unborn)
      && (forall id :: id in s'.host ==> id in s'.asked)
      && (forall id :: id in s.host ==> id in s'.host)
  {
    hide Lists, Apply, EventTrue, RecordTrue;
    if a.Deliver? && a.e in s.sent {
      EventKeeps(s, a.e);
    }
  }

  lemma {:induction false} RunKeepsInv(states: seq<Sys>, acts: seq<Action>, k: nat)
    requires Run(states, acts) && k < |states|
    ensures Inv(states[k])
  {
    if k > 0 {
      hide Do, Inv;
      RunKeepsInv(states, acts, k - 1);
      DoKeepsInv(states[k - 1], acts[k - 1]);
    }
  }

  /**
   Whatever is lost, repeated or reordered, hostd shows an exit code or signal only if it is the
   one guestd recorded, and an exited or stopped record equals guestd's entry.
   */
  lemma RecordsAgree(states: seq<Sys>, acts: seq<Action>, k: nat, id: Id)
    requires Run(states, acts) && k < |states| && id in states[k].host
    ensures var r := states[k].host[id];
      var guest := states[k].guest;
      && (r.exitCode.Some? || r.signal.Some? || r.state.Exited? || r.state.Stopped? ==>
            id in guest && guest[id].result == Some(Result(r.exitCode, r.signal)))
      && (r.state.Running? ==> id in guest)
      && (r.pid.Some? ==> id in guest && guest[id].pid == r.pid.value)
      && (r.state.Failed? ==> id in states[k].unborn || id in states[k].early)
  {
    hide Run;
    RunKeepsInv(states, acts, k);
  }

  /** Records move only forward, and a finished one keeps its state, exit code and signal for ever. */
  lemma {:induction false} RecordsMoveForward(states: seq<Sys>, acts: seq<Action>, i: nat, k: nat, id: Id)
    requires Run(states, acts) && i <= k < |states| && id in states[i].host
    ensures id in states[k].host && Forward(states[i].host[id], states[k].host[id])
    decreases k
  {
    if i < k {
      assert states[k] == Do(states[k - 1], acts[k - 1]);
      RunKeepsInv(states, acts, k - 1);
      hide Do, Inv;
      RecordsMoveForward(states, acts, i, k - 1, id);
      Bookkeeping(states[k - 1], acts[k - 1]);
      RecordsTrue(states[k - 1], acts[k - 1], id);
    }
  }

  lemma {:induction false} RunGrows(states: seq<Sys>, acts: seq<Action>, i: nat, k: nat)
    requires Run(states, acts) && i <= k < |states|
    ensures Grows(states[i], states[k])
    decreases k
  {
    if i < k {
      assert states[k] == Do(states[k - 1], acts[k - 1]);
      RunKeepsInv(states, acts, k - 1);
      hide Do, Inv;
      RunGrows(states, acts, i, k - 1);
      DoGrows(states[k - 1], acts[k - 1]);
    }
  }

  /**
   The resync: delivering a `list` answer written after the process was reaped settles the record,
   at guestd's result unless it had been marked failed.
   */
  lemma ListResyncs(states: seq<Sys>, acts: seq<Action>, i: nat, k: nat, infos: seq<Info>, id: Id)
    requires Run(states, acts) && i < k < |acts| && acts[i] == List(infos) && Lists(states[i].guest, infos)
    requires acts[k] == Deliver(ListResult(infos)) && id in states[k].host
    requires id in states[i].guest && states[i].guest[id].result.Some?
    ensures id in states[k + 1].host
    ensures var r := states[k + 1].host[id];
      !Active(r) && (r.state.Failed? || Some(Result(r.exitCode, r.signal)) == states[i].guest[id].result)
  {
    assert states[k + 1] == Do(states[k], acts[k]) && states[i + 1] == Do(states[i], acts[i]);
    assert ListResult(infos) in states[i + 1].sent && InfoOf(id, states[i].guest[id]) in infos;
    RunGrows(states, acts, i + 1, k);
    RunGrows(states, acts, i, k + 1);
    RunKeepsInv(states, acts, k);
    ListSettles(states[k], infos, InfoOf(id, states[i].guest[id]));
    RecordsAgree(states, acts, k + 1, id);
  }

  lemma ListSettles(s: Sys, infos: seq<Info>, info: Info)
    requires Inv(s) && ListResult(infos) in s.sent && info in infos && !info.running && info.id in s.host
    ensures var s' := Do(s, Deliver(ListResult(infos)));
      info.id in s'.host && !Active(s'.host[info.id])
  {
    assert EventTrue(s, ListResult(infos));
    InfosKeep(s, s.host, infos);
  }

  /** At step `j` an error about `id` that guestd wrote reached its active record. */
  predicate ErrorHits(s: Sys, a: Action, id: Id) {
    a == Deliver(ErrorEvent(id)) && a.e in s.sent && id in s.host && Active(s.host[id])
  }

  /** At step `j` guestd handled a stop for a workload it did not know. */
  predicate StopMisses(s: Sys, a: Action, id: Id) {
    a == GuestStop(id) && id in s.stops && id !in s.guest
  }

  lemma {:induction false} InfosNeverFail(rs: Records, infos: seq<Info>, id: Id)
    requires id in rs
    ensures id in ApplyInfos(rs, infos) && (ApplyInfos(rs, infos)[id].state.Failed? <==> rs[id].state.Failed?)
    decreases |infos|
  {
    if infos != [] {
      var info := infos[0];
      InfosNeverFail(if info.id in rs then rs[info.id := ApplyInfo(rs[info.id], info)] else rs, infos[1..], id);
    }
  }

  /** One step makes a record failed only by an error that hits it, and always then. */
  lemma FailsByError(s: Sys, a: Action, id: Id)
    requires Inv(s) && id in Do(s, a).host
    ensures Do(s, a).host[id].state.Failed? <==> (id in s.host && s.host[id].state.Failed?) || ErrorHits(s, a, id)
  {
    hide Lists, ApplyInfos;
    if a.Deliver? && a.e.ListResult? && id in s.host {
      InfosNeverFail(s.host, a.e.infos, id);
    }
    if a.Deliver? && a.e in s.sent {
      EventKeeps(s, a.e);
    }
  }

  predicate ErrorHit(states: seq<Sys>, acts: seq<Action>, k: nat, id: Id)
    requires k <= |acts| && k < |states|
  {
    exists j :: 0 <= j < k && ErrorHits(states[j], acts[j], id)
  }

  lemma ErrorHitMore(states: seq<Sys>, acts: seq<Action>, k: nat, id: Id)
    requires 0 < k <= |acts| && k < |states|
    ensures ErrorHit(states, acts, k, id)
            <==> ErrorHit(states, acts, k - 1, id) || ErrorHits(states[k - 1], acts[k - 1], id)
  {
    hide ErrorHits;
  }

  /** Over every run a record is failed exactly when some error guestd wrote reached it while it was active. */
  lemma {:induction false} FailedIffErrorHit(states: seq<Sys>, acts: seq<Action>, k: nat, id: Id)
    requires Run(states, acts) && k < |states| && id in states[k].host
    ensures states[k].host[id].state.Failed? <==> ErrorHit(states, acts, k, id)
    decreases k
  {
    if k > 0 {
      var s, a := states[k - 1], acts[k - 1];
      assert states[k] == Do(s, a);
      RunKeepsInv(states, acts, k - 1);
      FailsByError(s, a, id);
      ErrorHitMore(states, acts, k, id);
      if id in s.host {
        FailedIffErrorHit(states, acts, k - 1, id);
      } else {
        NoEarlierHit(states, acts, k - 1, id);
      }
      hide *;
    }
  }

  /** Before a record exists no error hits it. */
  lemma NoEarlierHit(states: seq<Sys>, acts: seq<Action>, k: nat, id: Id)
    requires Run(states, acts) && k < |states| && id !in states[k].host
    ensures !ErrorHit(states, acts, k, id)
  {
    hide Do;
    forall j | 0 <= j < k ensures !ErrorHits(states[j], acts[j], id) {
      if id in states[j].host { RecordsMoveForward(states, acts, j, k, id); }
    }
  }

  lemma StopStep(s: Sys, a: Action, id: Id)
    ensures id in Do(s, a).early <==> id in s.early || StopMisses(s, a, id)
    ensures ErrorEvent(id) in Do(s, a).sent && ErrorEvent(id) !in s.sent ==>
      id in Do(s, a).early || id in Do(s, a).unborn
    ensures id in Do(s, a).early && id !in s.early ==> ErrorEvent(id) in Do(s, a).sent
    ensures id in Do(s, a).unborn && id !in s.unborn ==> ErrorEvent(id) in Do(s, a).sent
    ensures s.sent <= Do(s, a).sent && s.unborn <= Do(s, a).unborn
  {
    hide Lists, Apply;
  }

  predicate StopMissed(states: seq<Sys>, acts: seq<Action>, k: nat, id: Id)
    requires k <= |acts| && k < |states|
  {
    exists i :: 0 <= i < k && StopMisses(states[i], acts[i], id)
  }

  lemma StopMissedMore(states: seq<Sys>, acts: seq<Action>, k: nat, id: Id)
    requires 0 < k <= |acts| && k < |states|
    ensures StopMissed(states, acts, k, id)
            <==> StopMissed(states, acts, k - 1, id) || StopMisses(states[k - 1], acts[k - 1], id)
  {
    hide StopMisses;
  }

  lemma {:induction false} EarlyIffMissed(states: seq<Sys>, acts: seq<Action>, k: nat, id: Id)
    requires Run(states, acts) && k < |states|
    ensures id in states[k].early <==> StopMissed(states, acts, k, id)
    decreases k
  {
    if k > 0 {
      EarlyIffMissed(states, acts, k - 1, id);
      assert states[k] == Do(states[k - 1], acts[k - 1]);
      StopStep(states[k - 1], acts[k - 1], id);
      StopMissedMore(states, acts, k, id);
      hide *;
    }
  }

  /**
   For a workload guestd spawned, an error was written exactly when a stop was handled before its
   start: while guestd did not know it yet.
   */
  lemma {:induction false} ErrorIffStopMissed(states: seq<Sys>, acts: seq<Action>, k: nat, id: Id)
    requires Run(states, acts) && k < |states|
    ensures id in states[k].early <==> StopMissed(states, acts, k, id)
    ensures ErrorEvent(id) in states[k].sent <==> id in states[k].early || id in states[k].unborn
    ensures id in states[k].guest ==> id !in states[k].unborn
    decreases k
  {
    EarlyIffMissed(states, acts, k, id);
    RunKeepsInv(states, acts, k);
    hide StopMissed;
    if k > 0 {
      assert states[k] == Do(states[k - 1], acts[k - 1]);
      ErrorIffStopMissed(states, acts, k - 1, id);
      hide Do, EventTrue, RecordTrue, Run;
      StopStep(states[k - 1], acts[k - 1], id);
    }
  }

  /**
   The exact condition: of a spawned and reaped workload whose record is over, the record shows
   guestd's result if and only if no error about it reached the record while it was active.
   */
  lemma ShowsResultIff(states: seq<Sys>, acts: seq<Action>, k: nat, id: Id)
    requires Run(states, acts) && k < |states| && id in states[k].host && !Active(states[k].host[id])
    requires id in states[k].guest && states[k].guest[id].result.Some?
    ensures var r := states[k].host[id];
      (!r.state.Failed? && Some(Result(r.exitCode, r.signal)) == states[k].guest[id].result)
      <==> !ErrorHit(states, acts, k, id)
  {
    hide Run;
    FailedIffErrorHit(states, acts, k, id);
    RecordsAgree(states, acts, k, id);
  }

  /**
   A run in which a stop overtakes its start on another connection: guestd answers that it does
   not know the workload, then starts it; the record is failed, for good, while the process runs.
   */
  lemma StopOvertakesStart(id: Id) returns (states: seq<Sys>, acts: seq<Action>)
    ensures Run(states, acts)
    ensures var s := states[|acts|];
      id in s.host && s.host[id].state.Failed? && id in s.guest && s.guest[id].result.None?
  {
    acts := [Register(id), RequestStop(id), GuestStop(id), GuestStart(id, 7, true), Deliver(ErrorEvent(id))];
    var s1 := Do(Initial(), acts[0]);
    var s2 := Do(s1, acts[1]);
    var s3 := Do(s2, acts[2]);
    var s4 := Do(s3, acts[3]);
    states := [Initial(), s1, s2, s3, s4, Do(s4, acts[4])];
  }
}
