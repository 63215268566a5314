/**
 Writers against flushes (hostd/src/storage/volume.rs:242-246, 261-314).

 The serial model of `Volumes` takes a write, and a flush of one chunk, as single steps. Here each is
 split at its lock scopes: a writer changes a chunk file and only then marks the chunk dirty; a flush
 lists the dirty chunks, and each of its threads syncs a file and only then clears the mark. Any number
 of writers, threads and flushes overlap. Versions count the writes to a file.
 */
module FlushRaces {

  /** `unmarked` writers changed the file and have still to mark the chunk. */
  datatype Chunk = Chunk(written: nat, durable: nat, marked: bool, unmarked: nat)

  /** A flush thread with its group; `synced` says that it is between the two steps of the first chunk. */
  datatype Thread = Thread(todo: seq<nat>, synced: bool, failed: bool)

  datatype Vol = Vol(chunks: seq<Chunk>, threads: seq<Thread>)

  datatype Action =
    | WriteFile(i: nat)
    | Mark(i: nat)
    | Flush(groups: seq<seq<nat>>)
    | Sync(t: nat, i: nat)
    | Unmark(t: nat, i: nat)
    | Fail(t: nat)

  predicate Listed(groups: seq<seq<nat>>, i: nat) {
    exists g :: 0 <= g < |groups| && i in groups[g]
  }

  /** A thread that has not failed is at chunk `i`. */
  predicate AtChunk(v: Vol, t: nat, i: nat) {
    && t < |v.threads| && i < |v.chunks|
    && !v.threads[t].failed && v.threads[t].todo != [] && v.threads[t].todo[0] == i
  }

  ghost predicate Enabled(v: Vol, a: Action) {
    match a
    case WriteFile(i) => i < |v.chunks|
    case Mark(i) => i < |v.chunks| && v.chunks[i].unmarked > 0
    case Flush(groups) => forall i: nat :: Listed(groups, i) <==> i < |v.chunks| && v.chunks[i].marked
    case Sync(t, i) => AtChunk(v, t, i) && !v.threads[t].synced
    case Unmark(t, i) => AtChunk(v, t, i) && v.threads[t].synced
    case Fail(t) => t < |v.threads| && !v.threads[t].failed && v.threads[t].todo != []
  }

  function Act(v: Vol, a: Action): Vol
    requires Enabled(v, a)
  {
    match a
    case WriteFile(i) =>
      var c := v.chunks[i];
      v.(chunks := v.chunks[i := c.(written := c.written + 1, unmarked := c.unmarked + 1)])
    case Mark(i) =>
      var c := v.chunks[i];
      v.(chunks := v.chunks[i := c.(marked := true, unmarked := c.unmarked - 1)])
    case Flush(groups) =>
      v.(threads := v.threads + seq(|groups|, g requires 0 <= g < |groups| => Thread(groups[g], false, false)))
    case Sync(t, i) =>
      var c := v.chunks[i];
      v.(chunks := v.chunks[i := c.(durable := c.written)],
         threads := v.threads[t := v.threads[t].(synced := true)])
    case Unmark(t, i) =>
      v.(chunks := v.chunks[i := v.chunks[i].(marked := false)],
         threads := v.threads[t := Thread(v.threads[t].todo[1..], false, false)])
    case Fail(t) =>
      v.(threads := v.threads[t := v.threads[t].(synced := false, failed := true)])
  }

  /** Bytes that are not durable are marked, or their writer has not returned yet. */
  predicate Safe(c: Chunk) {
    c.written != c.durable ==> c.marked || c.unmarked > 0
  }

  ghost predicate AllSafe(v: Vol) {
    forall i :: 0 <= i < |v.chunks| ==> Safe(v.chunks[i])
  }

  /** A run starts with no flush going on. */
  ghost predicate Run(states: seq<Vol>, acts: seq<Action>) {
    && |states| == |acts| + 1
    && states[0].threads == []
    && (forall i :: 0 <= i < |states[0].chunks| ==> states[0].chunks[i].durable <= states[0].chunks[i].written)
    && forall k {:trigger acts[k]} :: 0 <= k < |acts| ==>
         Enabled(states[k], acts[k]) && states[k + 1] == Act(states[k], acts[k])
  }

  // ----- which runs lose a mark -----

  predicate Syncs(a: Action, i: nat) {
    a.Sync? && a.i == i
  }

  predicate Writes(a: Action, i: nat) {
    a.WriteFile? && a.i == i
  }

  /** Some thread synced chunk `i` before step `k`, and no write to it landed since the latest sync. */
  ghost predicate QuietSinceSync(acts: seq<Action>, k: nat, i: nat)
    requires k <= |acts|
  {
    exists j :: 0 <= j < k && Syncs(acts[j], i) && forall m :: j < m < k ==> !Writes(acts[m], i)
  }

  ghost predicate SyncedBefore(acts: seq<Action>, k: nat, i: nat)
    requires k <= |acts|
  {
    exists j :: 0 <= j < k && Syncs(acts[j], i)
  }

  lemma QuietMore(acts: seq<Action>, k: nat, i: nat)
    requires k < |acts|
    ensures QuietSinceSync(acts, k + 1, i)
            <==> Syncs(acts[k], i) || (QuietSinceSync(acts, k, i) && !Writes(acts[k], i))
    ensures SyncedBefore(acts, k + 1, i) <==> Syncs(acts[k], i) || SyncedBefore(acts, k, i)
  {
    if QuietSinceSync(acts, k, i) && !Writes(acts[k], i) {
      var j :| 0 <= j < k && Syncs(acts[j], i) && forall m :: j < m < k ==> !Writes(acts[m], i);
      assert forall m :: j < m < k + 1 ==> !Writes(acts[m], i);
    }
    if QuietSinceSync(acts, k + 1, i) && !Syncs(acts[k], i) {
      var j :| 0 <= j < k + 1 && Syncs(acts[j], i) && forall m :: j < m < k + 1 ==> !Writes(acts[m], i);
      assert j < k && forall m :: j < m < k ==> !Writes(acts[m], i);
    }
  }

  /** One step as one chunk sees it. */
  lemma ChunkStep(v: Vol, a: Action, i: nat)
    requires Enabled(v, a) && i < |v.chunks| && v.chunks[i].durable <= v.chunks[i].written
    ensures |Act(v, a).chunks| == |v.chunks|
    ensures var c, c' := v.chunks[i], Act(v, a).chunks[i];
      && c'.durable <= c'.written && c.durable <= c'.durable
      && (c'.written == c'.durable <==> Syncs(a, i) || (c.written == c.durable && !Writes(a, i)))
      && (Safe(c) ==> (!Safe(c') <==> a.Unmark? && a.i == i && c.written != c.durable && c.unmarked == 0))
  {
  }

  /** Once a chunk was synced, its file is ahead of what is durable exactly after a write since the latest sync. */
  lemma {:induction false} AheadIffWritten(states: seq<Vol>, acts: seq<Action>, k: nat, i: nat)
    requires Run(states, acts) && k < |states| && i < |states[0].chunks|
    ensures |states[k].chunks| == |states[0].chunks| && states[k].chunks[i].durable <= states[k].chunks[i].written
    ensures SyncedBefore(acts, k, i) ==>
      (states[k].chunks[i].written == states[k].chunks[i].durable <==> QuietSinceSync(acts, k, i))
    ensures QuietSinceSync(acts, k, i) ==> SyncedBefore(acts, k, i)
  {
    if k > 0 {
      AheadIffWritten(states, acts, k - 1, i);
      assert Enabled(states[k - 1], acts[k - 1]) && states[k] == Act(states[k - 1], acts[k - 1]);
      hide Act, Enabled, Safe, QuietSinceSync, SyncedBefore;
      ChunkStep(states[k - 1], acts[k - 1], i);
      QuietMore(acts, k - 1, i);
    }
  }

  /** A thread between its two steps has synced its chunk. */
  lemma {:induction false} SyncedThreads(states: seq<Vol>, acts: seq<Action>, k: nat, t: nat, i: nat)
    requires Run(states, acts) && k < |states| && AtChunk(states[k], t, i) && states[k].threads[t].synced
    ensures SyncedBefore(acts, k, i)
  {
    if k > 0 {
      var v, a := states[k - 1], acts[k - 1];
      assert Enabled(v, a) && states[k] == Act(v, a);
      if !Syncs(a, i) {
        assert AtChunk(v, t, i) && v.threads[t].synced;
        SyncedThreads(states, acts, k - 1, t, i);
      }
      hide SyncedBefore, Act, Enabled;
      QuietMore(acts, k - 1, i);
    }
  }

  /** At this unmark no bytes lose their mark. */
  ghost predicate Covers(states: seq<Vol>, acts: seq<Action>, k: nat)
    requires k < |acts| && k < |states|
  {
    var a := acts[k];
    a.Unmark? && a.i < |states[k].chunks| ==> QuietSinceSync(acts, k, a.i) || states[k].chunks[a.i].unmarked > 0
  }

  lemma {:induction false} SameChunks(states: seq<Vol>, acts: seq<Action>, k: nat)
    requires Run(states, acts) && k < |states|
    ensures |states[k].chunks| == |states[0].chunks|
  {
    if k > 0 {
      SameChunks(states, acts, k - 1);
      assert Enabled(states[k - 1], acts[k - 1]) && states[k] == Act(states[k - 1], acts[k - 1]);
    }
  }

  lemma SafeStep(states: seq<Vol>, acts: seq<Action>, k: nat)
    requires Run(states, acts) && k < |acts| && AllSafe(states[k])
    ensures AllSafe(states[k + 1]) <==> Covers(states, acts, k)
  {
    var v, a := states[k], acts[k];
    assert Enabled(v, a) && states[k + 1] == Act(v, a);
    if a.Unmark? { SyncedThreads(states, acts, k, a.t, a.i); }
    SameChunks(states, acts, k);
    hide Act, QuietSinceSync, SyncedBefore;
    forall i | 0 <= i < |v.chunks|
      ensures |states[k + 1].chunks| == |v.chunks|
      ensures !Safe(states[k + 1].chunks[i])
              <==> a.Unmark? && a.i == i && !QuietSinceSync(acts, k, i) && v.chunks[i].unmarked == 0
    {
      AheadIffWritten(states, acts, k, i);
      ChunkStep(v, a, i);
    }
  }

  /**
   Exactly which runs lose no mark: those in which, at every unmark, no write to the chunk landed since
   the latest sync of it by any thread, or some writer has still to mark the chunk.
   */
  lemma {:induction false} SafeIff(states: seq<Vol>, acts: seq<Action>, n: nat)
    requires Run(states, acts) && AllSafe(states[0]) && n < |states|
    ensures (forall k :: 0 <= k <= n ==> AllSafe(states[k])) <==> forall k :: 0 <= k < n ==> Covers(states, acts, k)
  {
    assert |states| == |acts| + 1;
    hide Run, Covers, AllSafe;
    if n > 0 {
      SafeIff(states, acts, n - 1);
      if AllSafe(states[n - 1]) { SafeStep(states, acts, n - 1); }
    }
  }

  /** A write to a chunk lands while no thread is between its two steps on it. */
  ghost predicate Apart(v: Vol, a: Action) {
    a.WriteFile? ==> forall t: nat :: AtChunk(v, t, a.i) ==> !v.threads[t].synced
  }

  ghost predicate SyncedAreDurable(v: Vol) {
    forall t: nat, i: nat :: AtChunk(v, t, i) && v.threads[t].synced ==> v.chunks[i].written == v.chunks[i].durable
  }

  /** A run in which no write lands on a chunk between a thread's two steps on it loses no mark. */
  lemma {:induction false} QuietRunIsSafe(states: seq<Vol>, acts: seq<Action>, n: nat)
    requires Run(states, acts) && AllSafe(states[0]) && n < |states|
    requires forall k :: 0 <= k < n ==> Apart(states[k], acts[k])
    ensures AllSafe(states[n]) && SyncedAreDurable(states[n])
  {
    if n > 0 {
      assert Enabled(states[n - 1], acts[n - 1]) && states[n] == Act(states[n - 1], acts[n - 1]);
      QuietRunIsSafe(states, acts, n - 1);
      QuietStep(states[n - 1], acts[n - 1]);
    }
  }

  lemma QuietStep(v: Vol, a: Action)
    requires Enabled(v, a) && Apart(v, a) && AllSafe(v) && SyncedAreDurable(v)
    ensures AllSafe(Act(v, a)) && SyncedAreDurable(Act(v, a))
  {
    var v' := Act(v, a);
    forall t: nat, i: nat | AtChunk(v', t, i) && v'.threads[t].synced
      ensures v'.chunks[i].written == v'.chunks[i].durable
    {
      assert Syncs(a, i) || (AtChunk(v, t, i) && v.threads[t].synced);
    }
  }

  // ----- what a flush makes durable -----

  /** The threads that the flush of step `b` started have done their groups without failing. */
  ghost predicate Succeeded(states: seq<Vol>, acts: seq<Action>, b: nat, e: nat)
    requires b < |acts| && b < |states| && e < |states|
  {
    && acts[b].Flush? && b < e
    && forall t :: |states[b].threads| <= t < |states[b].threads| + |acts[b].groups| ==>
         t < |states[e].threads| && states[e].threads[t].todo == [] && !states[e].threads[t].failed
  }

  /** Thread `t` has chunk `i` still to do, or has failed, or version `w` is durable. */
  predicate Doing(v: Vol, t: nat, i: nat, w: nat) {
    && t < |v.threads| && i < |v.chunks|
    && (v.chunks[i].durable >= w
        || (v.threads[t].todo != [] && v.threads[t].failed)
        || (i in v.threads[t].todo && !(v.threads[t].synced && AtChunk(v, t, i))))
  }

  lemma DoingStep(v: Vol, a: Action, t: nat, i: nat, w: nat)
    requires Enabled(v, a) && Doing(v, t, i, w)
    requires v.chunks[i].durable <= v.chunks[i].written && w <= v.chunks[i].written
    ensures Doing(Act(v, a), t, i, w) && w <= Act(v, a).chunks[i].written
  {
    var v' := Act(v, a);
    if a.Unmark? && a.t == t && i in v.threads[t].todo && !AtChunk(v, t, i) {
      assert v.threads[t].todo == [a.i] + v.threads[t].todo[1..];
    }
  }

  lemma {:induction false} DoingOn(states: seq<Vol>, acts: seq<Action>, b: nat, k: nat, t: nat, i: nat, w: nat)
    requires Run(states, acts) && b <= k < |states| && i < |states[0].chunks|
    requires Doing(states[b], t, i, w) && w <= states[b].chunks[i].written
    ensures Doing(states[k], t, i, w) && w <= states[k].chunks[i].written
    decreases k
  {
    if k > b {
      DoingOn(states, acts, b, k - 1, t, i, w);
      AheadIffWritten(states, acts, k - 1, i);
      assert Enabled(states[k - 1], acts[k - 1]) && states[k] == Act(states[k - 1], acts[k - 1]);
      hide Act, Doing;
      DoingStep(states[k - 1], acts[k - 1], t, i, w);
    }
  }

  /**
   Whatever runs beside it, a flush that succeeds has made durable all that was written to a chunk
   before it, if the writers had returned and no mark of the chunk was lost by then.
   */
  lemma FlushCovers(states: seq<Vol>, acts: seq<Action>, b: nat, e: nat, i: nat)
    requires Run(states, acts) && b < |acts| && e < |states| && Succeeded(states, acts, b, e) && i < |states[0].chunks|
    requires i < |states[b].chunks| && Safe(states[b].chunks[i]) && states[b].chunks[i].unmarked == 0
    ensures i < |states[e].chunks| && states[e].chunks[i].durable >= states[b].chunks[i].written
  {
    var v, a := states[b], acts[b];
    assert Enabled(v, a) && states[b + 1] == Act(v, a);
    AheadIffWritten(states, acts, b, i);
    AheadIffWritten(states, acts, e, i);
    var w := v.chunks[i].written;
    if v.chunks[i].marked {
      assert Listed(a.groups, i);
      var g :| 0 <= g < |a.groups| && i in a.groups[g];
      var t := |v.threads| + g;
      assert states[b + 1].threads[t] == Thread(a.groups[g], false, false);
      DoingOn(states, acts, b + 1, e, t, i, w);
    } else {
      DurableGrows(states, acts, b, e, i);
    }
  }

  lemma {:induction false} DurableGrows(states: seq<Vol>, acts: seq<Action>, b: nat, k: nat, i: nat)
    requires Run(states, acts) && b <= k < |states| && i < |states[0].chunks|
    ensures i < |states[b].chunks| && i < |states[k].chunks|
    ensures states[b].chunks[i].durable <= states[k].chunks[i].durable
    decreases k
  {
    SameChunks(states, acts, b);
    SameChunks(states, acts, k);
    if k > b {
      DurableGrows(states, acts, b, k - 1, i);
      AheadIffWritten(states, acts, k - 1, i);
      assert Enabled(states[k - 1], acts[k - 1]) && states[k] == Act(states[k - 1], acts[k - 1]);
      hide Act, Enabled;
      ChunkStep(states[k - 1], acts[k - 1], i);
    }
  }

  // ----- a lost mark -----

  /**
   One write is enough: it lands between the two steps of a flush, which takes its mark away; and the
   next flush succeeds at once, with bytes that are not durable.
   */
  lemma OneWriteIsLost() returns (states: seq<Vol>, acts: seq<Action>)
    ensures Run(states, acts) && AllSafe(states[0])
    ensures acts == [Flush([[0]]), Sync(0, 0), WriteFile(0), Mark(0), Unmark(0, 0), Flush([])]
    ensures Succeeded(states, acts, 5, 6) && states[6].chunks == [Chunk(2, 1, false, 0)]
  {
    acts := [Flush([[0]]), Sync(0, 0), WriteFile(0), Mark(0), Unmark(0, 0), Flush([])];
    var v0 := Vol([Chunk(1, 0, true, 0)], []);
    assert [[0]][0] == [0];
    assert Listed([[0]], 0);
    var v1 := Act(v0, acts[0]);
    assert v1.threads == [Thread([0], false, false)];
    var v2 := Act(v1, acts[1]);
    var v3 := Act(v2, acts[2]);
    var v4 := Act(v3, acts[3]);
    var v5 := Act(v4, acts[4]);
    var v6 := Act(v5, acts[5]);
    states := [v0, v1, v2, v3, v4, v5, v6];
  }
}
