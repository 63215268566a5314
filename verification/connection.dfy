/**
 The slot that names the current connection, on either side: hostd's stored handle
 (hostd/src/vmm/firecracker/guest.rs) and guestd's writer (guestd/src/agent.rs). A connection is
 a number; a closing connection clears the slot only if it is still its own.
 */
module Connections {

  import opened Wrappers

  datatype ConnEvent = Installed(conn: nat) | Closed(conn: nat)

  /** The slot after a history. */
  function Slot(history: seq<ConnEvent>): Option<nat> {
    if history == [] then None
    else
      var before, e := Slot(history[..|history| - 1]), history[|history| - 1];
      match e
      case Installed(c) => Some(c)
      case Closed(c) => if before == Some(c) then None else before
  }

  /** Connection `c` was installed at `i`, none was installed after it, and it has not closed since. */
  predicate NewestOpen(history: seq<ConnEvent>, c: nat, i: nat) {
    && i < |history| && history[i] == Installed(c)
    && forall j :: i < j < |history| ==> !history[j].Installed? && history[j] != Closed(c)
  }

  /** The slot holds exactly the newest connection, for as long as that one is open. */
  lemma {:induction false} SlotIsNewestOpen(history: seq<ConnEvent>, c: nat)
    ensures Slot(history) == Some(c) <==> exists i :: NewestOpen(history, c, i)
  {
    if history != [] {
      var n := |history| - 1;
      var before, e := history[..n], history[n];
      SlotIsNewestOpen(before, c);
      if e == Installed(c) {
        assert NewestOpen(history, c, n);
      }
      assert forall i: nat :: i < n ==>
        (NewestOpen(history, c, i) <==> NewestOpen(before, c, i) && !e.Installed? && e != Closed(c));
    }
  }

  class ConnectionSlot {

    var current: Option<nat>
    ghost var history: seq<ConnEvent>

    ghost predicate Valid()
      reads this
    {
      current == Slot(history)
    }

    constructor ()
      ensures Valid() && history == []
    {
      current, history := None, [];
    }

    method Install(conn: nat)
      requires Valid()
      modifies this
      ensures Valid() && history == old(history) + [Installed(conn)]
    {
      current := Some(conn);
      history := history + [Installed(conn)];
    }

    method Clear(conn: nat)
      requires Valid()
      modifies this
      ensures Valid() && history == old(history) + [Closed(conn)]
    {
      if current == Some(conn) {
        current := None;
      }
      ghost var before := history;
      history := history + [Closed(conn)];
      assert history[..|history| - 1] == before;
    }
  }
}
