/**
 Whole runs of a volume: what the device holds after any sequence of writes, reads and
 flushes, and what a crash leaves behind.
 */
module VolumeRuns {
  import opened Bytes
  import opened ChunkFiles
  import opened Volumes

  /** One operation; `Wrote` is the prefix a write got through, all of it when it succeeded. */
  datatype Op = Wrote(off: nat, data: seq<byte>) | DidRead | FlushOk | FlushFailed

  ghost predicate Step(cs: nat, size: nat, s: Store, op: Op, s': Store)
    requires cs > 0
  {
    match op
    case Wrote(off, data) => WriteStep(cs, size, s, off, data, s')
    case DidRead => s' == s
    case FlushOk => FlushStep(s, s') && s'.dirty == {}
    case FlushFailed => FlushStep(s, s')
  }

  ghost predicate Run(cs: nat, size: nat, states: seq<Store>, ops: seq<Op>)
    requires cs > 0
  {
    && |states| == |ops| + 1
    && forall k :: 0 <= k < |ops| ==> Step(cs, size, states[k], ops[k], states[k + 1])
  }

  /** The reference device: a flat array on which writes are splices and nothing else happens. */
  ghost function Replay(flat: seq<byte>, ops: seq<Op>): seq<byte>
    requires forall op :: op in ops && op.Wrote? ==> op.off + |op.data| <= |flat|
  {
    if ops == [] then flat
    else
      var prev := Replay(flat, ops[..|ops| - 1]);
      match ops[|ops| - 1]
      case Wrote(off, data) => if off + |data| <= |prev| then Splice(prev, off, data) else prev
      case _ => prev
  }

  /**
   A crash keeps every chunk whose bytes are all durable and may leave anything at all in
   the others; files then hold what the crash left.
   */
  ghost predicate CrashImage(s: Store, after: Files) {
    forall i: nat :: Content(s.files, i) == Durable(s.files, i) ==> Content(after, i) == Content(s.files, i)
  }

  lemma StepFacts(cs: nat, size: nat, s: Store, op: Op, s': Store)
    requires cs > 0 && Covered(s) && Step(cs, size, s, op, s')
    ensures Covered(s')
    ensures op.Wrote? ==> s'.dirty == s.dirty + ChunksIn(cs, op.off, |op.data|)
    ensures !op.Wrote? ==> s'.dirty <= s.dirty && Flat(s'.files, cs, size) == Flat(s.files, cs, size)
  {
    if op.FlushOk? || op.FlushFailed? {
      FlatSame(s.files, s'.files, cs, size);
    }
  }

  lemma {:induction false} RunCovered(cs: nat, size: nat, states: seq<Store>, ops: seq<Op>)
    requires cs > 0 && Run(cs, size, states, ops) && Covered(states[0])
    ensures forall k :: 0 <= k < |states| ==> Covered(states[k])
  {
    hide Covered, Step;
    if ops != [] {
      var n := |ops| - 1;
      RunCovered(cs, size, states[..n + 1], ops[..n]);
      assert forall k :: 0 <= k <= n ==> states[..n + 1][k] == states[k];
      StepFacts(cs, size, states[n], ops[n], states[n + 1]);
    }
  }

  /** Every run refines the flat device: chunks, cache, evictions and flushes are invisible. */
  lemma {:induction false} RunRefinesFlat(cs: nat, size: nat, states: seq<Store>, ops: seq<Op>)
    requires cs > 0 && Run(cs, size, states, ops) && Covered(states[0])
    ensures forall op :: op in ops && op.Wrote? ==> op.off + |op.data| <= size
    ensures Flat(states[|ops|].files, cs, size) == Replay(Flat(states[0].files, cs, size), ops)
  {
    hide Covered, Flat, Splice;
    RunCovered(cs, size, states, ops);
    forall op | op in ops && op.Wrote? ensures op.off + |op.data| <= size {
      var k :| 0 <= k < |ops| && ops[k] == op;
      assert Step(cs, size, states[k], ops[k], states[k + 1]);
    }
    if ops != [] {
      var n := |ops| - 1;
      RunRefinesFlat(cs, size, states[..n + 1], ops[..n]);
      StepFacts(cs, size, states[n], ops[n], states[n + 1]);
      assert states[..n + 1][n] == states[n];
    }
  }

  /** A new volume reads as zeros, and from there on as the flat device does. */
  lemma FreshRunRefinesFlat(cs: nat, size: nat, states: seq<Store>, ops: seq<Op>)
    requires cs > 0 && Run(cs, size, states, ops) && states[0] == Store(map[], {})
    ensures forall op :: op in ops && op.Wrote? ==> op.off + |op.data| <= size
    ensures Flat(states[|ops|].files, cs, size) == Replay(seq(size, _ => 0), ops)
  {
    RunRefinesFlat(cs, size, states, ops);
    assert Flat(map[], cs, size) == seq(size, _ => 0);
  }

  /** A chunk that no write touched after a flush is still clean, and its bytes are as they were. */
  lemma {:induction false} UntouchedSinceFlush(cs: nat, size: nat, states: seq<Store>, ops: seq<Op>, p: nat)
    requires cs > 0 && Run(cs, size, states, ops) && Covered(states[0]) && p < size
    requires ChunkOf(cs, p) !in states[0].dirty
    requires forall k :: 0 <= k < |ops| && ops[k].Wrote? ==>
               ChunkOf(cs, p) !in ChunksIn(cs, ops[k].off, |ops[k].data|)
    ensures ChunkOf(cs, p) !in states[|ops|].dirty
    ensures ByteAt(states[|ops|].files, cs, p) == ByteAt(states[0].files, cs, p)
  {
    hide Covered;
    RunCovered(cs, size, states, ops);
    if ops != [] {
      var n := |ops| - 1;
      UntouchedSinceFlush(cs, size, states[..n + 1], ops[..n], p);
      assert states[..n + 1][n] == states[n];
      var s, s' := states[n], states[n + 1];
      assert Step(cs, size, s, ops[n], s');
      StepFacts(cs, size, s, ops[n], s');
      if !ops[n].Wrote? {
        assert Flat(s'.files, cs, size)[p] == Flat(s.files, cs, size)[p];
      }
    }
  }

  /**
   Crash safety over whole runs: after a successful flush at step `f`, and whatever follows
   it, a crash leaves every byte whose chunk was not written since as it was at the flush.
   */
  lemma FlushedBytesSurviveCrash(cs: nat, size: nat, states: seq<Store>, ops: seq<Op>, f: nat, after: Files, p: nat)
    requires cs > 0 && Run(cs, size, states, ops) && Covered(states[0]) && p < size
    requires f < |ops| && ops[f].FlushOk?
    requires forall k :: f < k < |ops| && ops[k].Wrote? ==>
               ChunkOf(cs, p) !in ChunksIn(cs, ops[k].off, |ops[k].data|)
    requires CrashImage(states[|ops|], after)
    ensures ByteAt(after, cs, p) == Flat(states[f + 1].files, cs, size)[p]
  {
    hide ChunkOf, Within, ChunksIn;
    RunCovered(cs, size, states, ops);
    assert Step(cs, size, states[f], ops[f], states[f + 1]);
    var tailStates, tailOps := states[f + 1..], ops[f + 1..];
    forall k | 0 <= k < |tailOps| ensures Step(cs, size, tailStates[k], tailOps[k], tailStates[k + 1]) {
      assert Step(cs, size, states[f + 1 + k], ops[f + 1 + k], states[f + 1 + k + 1]);
    }
    UntouchedSinceFlush(cs, size, tailStates, tailOps, p);
    var last := states[|ops|];
    assert tailStates[|tailOps|] == last;
    assert Covered(last);
    var i := ChunkOf(cs, p);
    assert Content(last.files, i) == Durable(last.files, i);
    assert Content(after, i) == Content(last.files, i);
  }
}
