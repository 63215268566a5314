/**
 The per-VM activity tracker (hostd/src/vmm/activity.rs). `now` stands for the clock's reading.
 */
module Activities {

  type VmId = string

  datatype Activity = Activity(inFlight: nat, last: nat)

  class ActivityTracker {
    var inner: map<VmId, Activity>
    /** The guards handed out and not yet dropped, by VM. */
    ghost var guards: multiset<VmId>
    /** The VMs forgotten at some time. */
    ghost var cleared: set<VmId>

    /** The count never exceeds the live guards, and equals them unless the VM was ever forgotten. */
    ghost predicate Valid()
      reads this
    {
      forall vm :: InFlight(vm) <= guards[vm] && (vm !in cleared ==> InFlight(vm) == guards[vm])
    }

    function InFlight(vm: VmId): nat
      reads this
    {
      if vm in inner then inner[vm].inFlight else 0
    }

    constructor ()
      ensures Valid() && inner == map[] && guards == multiset{} && cleared == {}
    {
      inner := map[];
      guards := multiset{};
      cleared := {};
    }

    method Track(vm: VmId, now: nat)
      requires Valid()
      modifies this
      ensures Valid() && cleared == old(cleared) && guards == old(guards) + multiset{vm}
      ensures inner == old(inner)[vm := Activity(old(InFlight(vm)) + 1, now)]
    {
      inner := inner[vm := Activity(InFlight(vm) + 1, now)];
      guards := guards + multiset{vm};
    }

    /** The guard's `drop`: counted off if the VM is known, and a sign of activity. */
    method DropGuard(vm: VmId, now: nat)
      requires Valid() && vm in guards
      modifies this
      ensures Valid() && cleared == old(cleared) && guards == old(guards) - multiset{vm}
      ensures inner.Keys == old(inner.Keys)
      ensures forall w :: w in inner ==>
        inner[w] == if w == vm then Activity(if old(inner)[w].inFlight > 0 then old(inner)[w].inFlight - 1 else 0, now)
                    else old(inner)[w]
      ensures vm !in cleared ==> InFlight(vm) == old(InFlight(vm)) - 1
    {
      if vm in inner {
        var n := inner[vm].inFlight;
        inner := inner[vm := Activity(if n > 0 then n - 1 else 0, now)];
      }
      guards := guards - multiset{vm};
    }

    method Clear(vm: VmId)
      requires Valid()
      modifies this
      ensures Valid() && inner == old(inner) - {vm} && guards == old(guards) && cleared == old(cleared) + {vm}
    {
      inner := inner - {vm};
      cleared := cleared + {vm};
    }
  }
}
