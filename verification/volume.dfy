/**
 The chunk-backed volume (hostd/src/storage/volume.rs): a flat block device kept in
 sparse chunk files, reached through the cache of `FdCaches`.

 `Store` is what a volume means: the chunk files and the set of dirty chunks. Each
 operation is proved to make one `WriteStep`, one `FlushStep`, or no step at all, and
 the run theorems in `VolumeRuns` are about every sequence of such steps.
 */
module Volumes {
  import opened Arith
  import opened Bytes
  import opened ChunkFiles
  import opened FdCaches

  const FLUSH_THREADS: nat := 8

  datatype Store = Store(files: Files, dirty: set<nat>)

  /** Only dirty chunks may hold bytes that are not durable yet. */
  ghost predicate Covered(s: Store) {
    forall i: nat :: Content(s.files, i) != Durable(s.files, i) ==> i in s.dirty
  }

  /** `data` was written at `off`: the device is spliced, the chunks are dirty, nothing became durable. */
  ghost predicate WriteStep(cs: nat, size: nat, s: Store, off: nat, data: seq<byte>, s': Store)
    requires cs > 0
  {
    && off + |data| <= size
    && Flat(s'.files, cs, size) == Splice(Flat(s.files, cs, size), off, data)
    && s'.dirty == s.dirty + ChunksIn(cs, off, |data|)
    && (forall i: nat :: Durable(s'.files, i) == Durable(s.files, i))
    && (forall i: nat :: i !in ChunksIn(cs, off, |data|) ==> Content(s'.files, i) == Content(s.files, i))
  }

  /** A flush attempt: no visible byte changes, and exactly the chunks leaving `dirty` became durable. */
  ghost predicate FlushStep(s: Store, s': Store) {
    && s'.dirty <= s.dirty
    && (forall i: nat :: Content(s'.files, i) == Content(s.files, i))
    && (forall i: nat :: Durable(s'.files, i)
                         == if i in s.dirty && i !in s'.dirty then Content(s.files, i) else Durable(s.files, i))
  }

  datatype FdResult = FdOpened | FdMissing | FdFailed | FdPanicked

  datatype IoResult = IoOk | IoFailed | IoPanicked

  class Volume {
    const size: nat
    const cs: nat
    const cache: FdCache
    const host: HostFs
    var dirty: set<nat>
    /** Set when a panic poisoned the cache's lock: no chunk can be opened after that. */
    var poisoned: bool

    ghost function View(): Store
      reads this, host
    {
      Store(host.files, dirty)
    }

    ghost predicate Valid()
      reads this, cache, host
    {
      && cs > 0
      && cache.Valid()
      && CleanSorted(cache.fds, cache.order, dirty)
      && (forall i :: i in dirty ==> i in cache.fds)
      && (forall i :: i in cache.fds ==> i in host.files)
      && Covered(View())
    }

    /** Open a volume directory: the chunk files are on disk, the cache is cold, nothing is dirty. */
    constructor Open(size: nat, cs: nat, cap: nat, files: Files)
      requires cs > 0 && forall i :: i in files ==> files[i].volatile == files[i].durable
      ensures Valid() && fresh(cache) && fresh(host)
      ensures this.size == size && this.cs == cs && cache.cap == cap
      ensures View() == Store(files, {}) && !poisoned
    {
      this.size, this.cs := size, cs;
      cache := new FdCache(cap);
      host := new HostFs(files);
      dirty, poisoned := {}, false;
    }

    /**
     An open file for chunk `idx`. On a miss the source panics exactly when at least `cap`
     chunks are dirty and the queue is shorter than the loop's `2 * cap` pops.
     */
    method ChunkFd(idx: nat, create: bool) returns (r: FdResult)
      requires Valid()
      modifies this`poisoned, cache, host
      ensures Valid()
      ensures forall i: nat :: Content(host.files, i) == Content(old(host.files), i)
      ensures forall i: nat :: Durable(host.files, i) == Durable(old(host.files), i)
      ensures !create ==> host.files == old(host.files)
      ensures r.FdOpened? ==> idx in cache.fds
      ensures r.FdMissing? ==> !create && idx !in host.files
      ensures r.FdPanicked? || r.FdOpened? ==>
                (r.FdPanicked? <==>
                 idx !in old(cache.fds) && |dirty| >= cache.cap && |old(cache.order)| < 2 * cache.cap)
      ensures poisoned <==> old(poisoned) || r.FdPanicked?
      ensures host.failures >= old(host.failures)
      ensures r.FdFailed? <==> old(poisoned) || host.failures > old(host.failures)
      ensures r.FdOpened? && idx in old(cache.fds) ==> CleanSorted(cache.fds, cache.order, dirty - {idx})
      ensures idx in old(cache.fds) && !old(poisoned) ==> r.FdOpened?
    {
      hide CleanSorted, WellFormed, LatestUse, Sweep;
      if poisoned {
        return FdFailed;
      }
      if idx in cache.fds {
        cache.Touch(idx, dirty);
        return FdOpened;
      }
      if create {
        var ok := host.OpenOrCreate(idx);
        if !ok {
          return FdFailed;
        }
      } else {
        var found := host.OpenExisting(idx);
        match found {
          case Opened =>
          case NotFound => return FdMissing;
          case OpenFailed => return FdFailed;
        }
      }
      var kept := cache.Insert(idx, dirty);
      if !kept {
        poisoned := true;
        return FdPanicked;
      }
      return FdOpened;
    }

    /** One chunk's part of a write: `data` goes to device offset `a`, within one chunk. */
    method WritePiece(a: nat, data: seq<byte>) returns (r: IoResult)
      requires Valid() && 0 < |data| <= cs - Within(cs, a) && a + |data| <= size
      modifies this, cache, host
      ensures Valid()
      ensures WriteStep(cs, size, old(View()), a, if r.IoOk? then data else [], View())
      ensures r.IoPanicked? ==> |dirty| >= cache.cap
      ensures poisoned <==> old(poisoned) || r.IoPanicked?
      ensures host.failures >= old(host.failures)
      ensures r.IoFailed? <==> old(poisoned) || host.failures > old(host.failures)
    {
      hide CleanSorted, WellFormed, LatestUse, Flat, Splice, ChunksIn, Overwrite, WriteStep, Covered;
      var idx, at := ChunkOf(cs, a), Within(cs, a);
      var fd := ChunkFd(idx, true);
      ghost var s1 := View();
      EmptyWrite(cs, size, old(View()), a, s1);
      if !fd.FdOpened? {
        return if fd.FdPanicked? then IoPanicked else IoFailed;
      }
      var ok := host.WriteAllAt(idx, at, data);
      if !ok {
        return IoFailed;
      }
      DirtyKeepsSorted(cache.fds, cache.order, dirty, idx);
      dirty := dirty + {idx};
      ChunkWriteStep(cs, size, s1, idx, at, a, data, View());
      WriteThen(cs, size, old(View()), a, [], s1, data, View());
      WriteKeepsCovered(cs, size, s1, a, data, View());
      assert [] + data == data;
      return IoOk;
    }

    /**
     Read or write `buf` at byte offset `off`. A write that stops part way has written some
     prefix; a read never changes the chunk files or the dirty set.
     */
    method DoIo(write: bool, off: nat, buf: array<byte>) returns (r: IoResult)
      requires Valid()
      modifies this, cache, host, buf
      ensures Valid()
      ensures off % 512 != 0 || buf.Length % 512 != 0 || off + buf.Length > size ==>
                r.IoFailed? && View() == old(View()) && buf[..] == old(buf[..])
      ensures write ==> buf[..] == old(buf[..])
      ensures write && off + buf.Length <= size ==>
                exists k :: 0 <= k <= buf.Length && WriteStep(cs, size, old(View()), off, buf[..k], View())
                            && (r.IoOk? ==> k == buf.Length)
      ensures !write ==> View() == old(View())
      ensures !write && r.IoOk? ==>
                off + buf.Length <= size && buf[..] == Flat(host.files, cs, size)[off..off + buf.Length]
      ensures r.IoPanicked? ==> |dirty| >= cache.cap
      ensures poisoned <==> old(poisoned) || r.IoPanicked?
      ensures host.failures >= old(host.failures)
      ensures r.IoFailed? <==>
                off % 512 != 0 || buf.Length % 512 != 0 || off + buf.Length > size
                || (old(poisoned) && buf.Length > 0) || host.failures > old(host.failures)
      ensures r.IoPanicked? ==> |old(dirty) + if write then ChunksIn(cs, off, buf.Length) else {}| >= cache.cap
    {
      var len := buf.Length;
      EmptyWrite(cs, size, View(), off, View());
      if off % 512 != 0 || len % 512 != 0 || off + len > size {
        assert write ==> buf[..0] == [];
        return IoFailed;
      }
      if write {
        r := WriteAll(off, buf);
        ghost var k :| 0 <= k <= len && WriteStep(cs, size, old(View()), off, buf[..k], View())
                       && (r.IoOk? ==> k == len);
        WriteMarks(cs, size, old(View()), off, buf[..k], len, View());
      } else {
        forall i | 0 <= i < len {
          buf[i] := 0;
        }
        r := ReadAll(off, buf);
      }
    }

    method WriteAll(off: nat, buf: array<byte>) returns (r: IoResult)
      requires Valid() && off + buf.Length <= size
      modifies this, cache, host
      ensures Valid()
      ensures exists k :: 0 <= k <= buf.Length && WriteStep(cs, size, old(View()), off, buf[..k], View())
                          && (r.IoOk? ==> k == buf.Length)
      ensures r.IoPanicked? ==> |dirty| >= cache.cap
      ensures poisoned <==> old(poisoned) || r.IoPanicked?
      ensures host.failures >= old(host.failures)
      ensures r.IoFailed? <==> (old(poisoned) && buf.Length > 0) || host.failures > old(host.failures)
    {
      hide Covered, CleanSorted, WellFormed, LatestUse, WriteStep, ChunkOf;
      var pos := 0;
      assert buf[..0] == [];
      EmptyWrite(cs, size, View(), off, View());
      while pos < buf.Length
        invariant Valid() && pos <= buf.Length
        invariant WriteStep(cs, size, old(View()), off, buf[..pos], View())
        invariant poisoned == old(poisoned) && (pos > 0 ==> !poisoned)
        invariant host.failures == old(host.failures)
      {
        var abs := off + pos;
        var inOff := Within(cs, abs);
        var n := if cs - inOff < buf.Length - pos then cs - inOff else buf.Length - pos;
        ghost var s := View();
        var data := buf[pos..pos + n];
        r := WritePiece(abs, data);
        WriteThen(cs, size, old(View()), off, buf[..pos], s, if r.IoOk? then data else [], View());
        if !r.IoOk? {
          assert buf[..pos] + [] == buf[..pos];
          return;
        }
        assert buf[..pos] + data == buf[..pos + n];
        pos := pos + n;
      }
      r := IoOk;
    }

    method ReadAll(off: nat, buf: array<byte>) returns (r: IoResult)
      requires Valid() && off + buf.Length <= size
      requires forall i :: 0 <= i < buf.Length ==> buf[i] == 0
      modifies this`poisoned, cache, host, buf
      ensures Valid() && View() == old(View())
      ensures r.IoOk? ==> buf[..] == Flat(host.files, cs, size)[off..off + buf.Length]
      ensures r.IoPanicked? ==> |dirty| >= cache.cap
      ensures poisoned <==> old(poisoned) || r.IoPanicked?
      ensures host.failures >= old(host.failures)
      ensures r.IoFailed? <==> (old(poisoned) && buf.Length > 0) || host.failures > old(host.failures)
    {
      hide Covered, CleanSorted, WellFormed, LatestUse, ByteAt, ByteOf, Content;
      var pos := 0;
      while pos < buf.Length
        invariant Valid() && View() == old(View()) && pos <= buf.Length
        invariant poisoned == old(poisoned) && (pos > 0 ==> !poisoned)
        invariant host.failures == old(host.failures)
        invariant forall i :: 0 <= i < pos ==> buf[i] == ByteAt(host.files, cs, off + i)
        invariant forall i :: pos <= i < buf.Length ==> buf[i] == 0
      {
        var abs := off + pos;
        var inOff := Within(cs, abs);
        var n := if cs - inOff < buf.Length - pos then cs - inOff else buf.Length - pos;
        var data;
        r, data := ReadPiece(abs, n);
        if !r.IoOk? {
          return;
        }
        forall i | 0 <= i < |data| {
          buf[pos + i] := data[i];
        }
        forall i | pos <= i < pos + n ensures buf[i] == ByteAt(host.files, cs, off + i) {
          Padded(data, i - pos);
        }
        pos := pos + n;
      }
      r := IoOk;
    }

    /** One chunk's part of a read: up to `n` bytes from device offset `a`, within one chunk; zeros are left out. */
    method ReadPiece(a: nat, n: nat) returns (r: IoResult, data: seq<byte>)
      requires Valid() && 0 < n <= cs - Within(cs, a)
      modifies this`poisoned, cache, host
      ensures Valid() && View() == old(View())
      ensures r.IoOk? ==>
                |data| <= n && forall i: nat :: a <= i < a + n ==> ByteAt(host.files, cs, i) == ByteOf(data, i - a)
      ensures r.IoPanicked? ==> |dirty| >= cache.cap
      ensures poisoned <==> old(poisoned) || r.IoPanicked?
      ensures host.failures >= old(host.failures)
      ensures r.IoFailed? <==> old(poisoned) || host.failures > old(host.failures)
    {
      hide Covered, CleanSorted, WellFormed, LatestUse;
      var idx, inOff := ChunkOf(cs, a), Within(cs, a);
      var fd := ChunkFd(idx, false);
      data := [];
      match fd {
        case FdFailed => return IoFailed, [];
        case FdPanicked => return IoPanicked, [];
        case FdMissing =>
        case FdOpened =>
          var ok, got := host.ReadAt(idx, inOff, n);
          if !ok {
            return IoFailed, [];
          }
          data := got;
      }
      PieceRead(host.files, cs, a, n, data);
      r := IoOk;
    }

    /**
     Make every dirty chunk durable. The chunks are dealt round-robin to at most eight
     threads; the threads' steps are taken in an arbitrary order, one chunk at a time, and a
     thread stops at its first error while the others go on.
     */
    method Flush() returns (r: IoResult)
      requires Valid()
      modifies this, cache, host
      ensures Valid() && FlushStep(old(View()), View())
      ensures r.IoOk? ==> dirty == {} && forall i: nat :: Durable(host.files, i) == Content(host.files, i)
      ensures !r.IoPanicked? && poisoned == old(poisoned)
      ensures host.failures >= old(host.failures)
      ensures r.IoFailed? <==> (poisoned && old(dirty) != {}) || host.failures > old(host.failures)
    {
      if dirty == {} {
        return IoOk;
      }
      var list := Enumerate(dirty);
      var groups := Deal(list, if |list| < FLUSH_THREADS then |list| else FLUSH_THREADS);
      var failed := FlushGroups(groups);
      r := if failed then IoFailed else IoOk;
    }

    method FlushGroups(groups: seq<seq<nat>>) returns (failed: bool)
      requires Valid()
      requires forall x :: Times(groups, x) == if x in dirty then 1 else 0
      modifies this, cache, host
      ensures Valid() && FlushStep(old(View()), View())
      ensures !failed ==> dirty == {}
      ensures poisoned == old(poisoned) && host.failures >= old(host.failures)
      ensures failed <==> (poisoned && old(dirty) != {}) || host.failures > old(host.failures)
    {
      hide Covered, CleanSorted, WellFormed, LatestUse;
      FlushNone(View());
      assert Pool(groups, dirty) && Whole(groups, dirty);
      hide FlushStep, Pool, Whole, Times, Total;
      var rest := groups;
      failed := false;
      while exists g :: 0 <= g < |rest| && rest[g] != []
        invariant Valid() && poisoned == old(poisoned) && host.failures >= old(host.failures)
        invariant FlushStep(old(View()), View())
        invariant Pool(rest, dirty) && (!failed ==> Whole(rest, dirty))
        invariant failed ==> old(dirty) != {} && (poisoned || host.failures > old(host.failures))
        invariant !failed ==> host.failures == old(host.failures) && (poisoned ==> dirty == old(dirty))
        decreases Total(rest)
      {
        var g :| 0 <= g < |rest| && rest[g] != [];
        PoolStep(rest, g, dirty);
        ghost var s := View();
        var ok := FlushChunk(rest[g][0]);
        FlushTwice(old(View()), s, View());
        assert old(dirty) != {} by { FlushShrinks(old(View()), s); }
        if ok {
          rest := rest[g := rest[g][1..]];
        } else {
          rest := rest[g := []];
          failed := true;
        }
      }
      if !failed { PoolEmpty(rest, dirty); }
    }

    /** One chunk of one flush thread: open, `fdatasync`, clear the mark. */
    method FlushChunk(idx: nat) returns (ok: bool)
      requires Valid() && idx in dirty
      modifies this, cache, host
      ensures Valid() && FlushStep(old(View()), View())
      ensures dirty == if ok then old(dirty) - {idx} else old(dirty)
      ensures poisoned == old(poisoned) && host.failures >= old(host.failures)
      ensures ok <==> !poisoned && host.failures == old(host.failures)
    {
      hide CleanSorted, WellFormed, LatestUse;
      var fd := ChunkFd(idx, false);
      if !fd.FdOpened? {
        return false;
      }
      ok := host.SyncData(idx);
      if ok {
        dirty := dirty - {idx};
      }
    }
  }

  // ----- steps -----

  /** A write marks no chunk outside its range. */
  lemma WriteMarks(cs: nat, size: nat, s: Store, off: nat, data: seq<byte>, len: nat, s': Store)
    requires cs > 0 && |data| <= len && WriteStep(cs, size, s, off, data, s')
    ensures |s'.dirty| <= |s.dirty + ChunksIn(cs, off, len)|
  {
    hide Flat, Splice, Durable, Content;
    ChunksInSplit(cs, off, |data|, len - |data|);
    SubsetSize(s'.dirty, s.dirty + ChunksIn(cs, off, len));
  }

  lemma Padded(data: seq<byte>, i: nat)
    ensures ByteOf(data, i) == if i < |data| then data[i] else 0
  {
  }

  /** What a chunk file gives for a piece within it is what the device holds there. */
  lemma PieceRead(files: Files, cs: nat, a: nat, n: nat, data: seq<byte>)
    requires cs > 0 && 0 < n <= cs - Within(cs, a)
    requires forall i: nat :: i < n ==> ByteOf(data, i) == ByteOf(Content(files, ChunkOf(cs, a)), Within(cs, a) + i)
    ensures forall j: nat :: a <= j < a + n ==> ByteAt(files, cs, j) == ByteOf(data, j - a)
  {
    forall j: nat | a <= j < a + n ensures ByteAt(files, cs, j) == ByteOf(data, j - a) {
      SameChunk(cs, a, j);
      assert ByteOf(data, j - a) == ByteOf(Content(files, ChunkOf(cs, a)), Within(cs, a) + (j - a));
    }
  }

  /** After a write the chunks that are not durable are marked, if they were before. */
  lemma WriteKeepsCovered(cs: nat, size: nat, s: Store, off: nat, data: seq<byte>, s': Store)
    requires cs > 0 && Covered(s) && WriteStep(cs, size, s, off, data, s')
    ensures Covered(s')
  {
    hide Flat, Splice, ChunksIn, Content, Durable;
  }

  lemma EmptyWrite(cs: nat, size: nat, s: Store, off: nat, s': Store)
    requires cs > 0 && s'.dirty == s.dirty
    requires forall i: nat :: Content(s'.files, i) == Content(s.files, i)
    requires forall i: nat :: Durable(s'.files, i) == Durable(s.files, i)
    ensures off <= size ==> WriteStep(cs, size, s, off, [], s')
  {
    FlatSame(s.files, s'.files, cs, size);
    assert ChunksIn(cs, off, 0) == {};
    if off <= size {
      assert Splice(Flat(s.files, cs, size), off, []) == Flat(s.files, cs, size);
    }
  }

  lemma ChunkWriteStep(cs: nat, size: nat, s: Store, idx: nat, at: nat, a: nat, data: seq<byte>, s': Store)
    requires cs > 0 && idx == ChunkOf(cs, a) && at == Within(cs, a) && idx in s.files
    requires 0 < |data| <= cs - at && a + |data| <= size
    requires s'.files == s.files[idx := s.files[idx].(volatile := Overwrite(s.files[idx].volatile, at, data))]
    requires s'.dirty == s.dirty + {idx}
    ensures WriteStep(cs, size, s, a, data, s')
  {
    hide Flat, Splice, Overwrite, ChunkOf, Within, ChunksIn;
    WriteIsSplice(s.files, s'.files, cs, size, a, data);
    ChunksInOne(cs, a, |data|);
  }

  /** Two writes side by side are one write. */
  lemma WriteThen(cs: nat, size: nat, s0: Store, off: nat, d1: seq<byte>, s1: Store, d2: seq<byte>, s2: Store)
    requires cs > 0 && WriteStep(cs, size, s0, off, d1, s1) && WriteStep(cs, size, s1, off + |d1|, d2, s2)
    ensures WriteStep(cs, size, s0, off, d1 + d2, s2)
  {
    hide ChunksIn, Flat, Splice, Content, Durable;
    var n := |d1 + d2|;
    assert n == |d1| + |d2|;
    SpliceTwice(Flat(s0.files, cs, size), off, d1, d2);
    ChunksInSplit(cs, off, |d1|, |d2|);
    assert ChunksIn(cs, off, n) == ChunksIn(cs, off, |d1|) + ChunksIn(cs, off + |d1|, |d2|);
  }

  lemma FlushNone(s: Store)
    ensures FlushStep(s, s)
  {
  }

  lemma FlushShrinks(s: Store, s': Store)
    requires FlushStep(s, s')
    ensures s'.dirty <= s.dirty
  {
  }

  lemma FlushTwice(s0: Store, s1: Store, s2: Store)
    requires FlushStep(s0, s1) && FlushStep(s1, s2)
    ensures FlushStep(s0, s2)
  {
  }

  lemma DirtyKeepsSorted(fds: map<nat, nat>, order: seq<Entry>, dirty: set<nat>, idx: nat)
    requires CleanSorted(fds, order, dirty)
    ensures CleanSorted(fds, order, dirty + {idx})
  {
    forall i, j | 0 <= i < j < |order|
      && Evictable(order[i], fds, dirty + {idx}) && Evictable(order[j], fds, dirty + {idx})
      ensures order[i].gen < order[j].gen
    {
      assert Evictable(order[i], fds, dirty) && Evictable(order[j], fds, dirty);
    }
  }

  // ----- dealing the dirty set to the flush threads -----

  function Occurs(s: seq<nat>, x: nat): nat {
    multiset(s)[x]
  }

  /** How often chunk `x` occurs in all groups together. */
  function Times(groups: seq<seq<nat>>, x: nat): nat {
    if groups == [] then 0 else Occurs(groups[0], x) + Times(groups[1..], x)
  }

  function Total(groups: seq<seq<nat>>): nat {
    if groups == [] then 0 else |groups[0]| + Total(groups[1..])
  }

  lemma {:induction false} TimesUpdate(groups: seq<seq<nat>>, g: nat, v: seq<nat>, x: nat)
    requires g < |groups|
    ensures Times(groups[g := v], x) + Occurs(groups[g], x) == Times(groups, x) + Occurs(v, x)
    ensures Total(groups[g := v]) + |groups[g]| == Total(groups) + |v|
  {
    if g == 0 {
      assert groups[0 := v][1..] == groups[1..];
    } else {
      assert groups[g := v][1..] == groups[1..][g - 1 := v];
      TimesUpdate(groups[1..], g - 1, v, x);
    }
  }

  /** Taking the head of a group, or dropping the group, shrinks the pool. */
  lemma TimesDrop(groups: seq<seq<nat>>, g: nat, x: nat)
    requires g < |groups| && groups[g] != []
    ensures Times(groups, x) == Times(groups[g := groups[g][1..]], x) + if x == groups[g][0] then 1 else 0
    ensures Times(groups[g := []], x) <= Times(groups, x)
    ensures Total(groups[g := groups[g][1..]]) < Total(groups) && Total(groups[g := []]) < Total(groups)
  {
    var tail := groups[g][1..];
    assert Occurs(groups[g], x) == Occurs(tail, x) + if x == groups[g][0] then 1 else 0 by {
      assert groups[g] == [groups[g][0]] + tail;
    }
    TimesUpdate(groups, g, tail, x);
    TimesUpdate(groups, g, [], x);
  }

  /** The groups hold dirty chunks only, none twice. */
  ghost predicate Pool(groups: seq<seq<nat>>, dirty: set<nat>) {
    forall x :: Times(groups, x) <= if x in dirty then 1 else 0
  }

  ghost predicate Whole(groups: seq<seq<nat>>, dirty: set<nat>) {
    forall x :: x in dirty ==> Times(groups, x) == 1
  }

  /** A thread's next chunk is dirty; it leaves the pool when done, and its group when it fails. */
  lemma PoolStep(groups: seq<seq<nat>>, g: nat, dirty: set<nat>)
    requires g < |groups| && groups[g] != [] && Pool(groups, dirty)
    ensures var idx, popped, dropped := groups[g][0], groups[g := groups[g][1..]], groups[g := []];
      && idx in dirty && Pool(popped, dirty - {idx}) && Pool(dropped, dirty)
      && (Whole(groups, dirty) ==> Whole(popped, dirty - {idx}))
      && Total(popped) < Total(groups) && Total(dropped) < Total(groups)
  {
    hide Times, Total;
    var idx, popped, dropped := groups[g][0], groups[g := groups[g][1..]], groups[g := []];
    TimesDrop(groups, g, idx);
    forall x ensures Times(groups, x) == Times(popped, x) + (if x == idx then 1 else 0)
                     && Times(dropped, x) <= Times(groups, x) {
      TimesDrop(groups, g, x);
    }
  }

  lemma PoolEmpty(groups: seq<seq<nat>>, dirty: set<nat>)
    requires Whole(groups, dirty) && forall g :: 0 <= g < |groups| ==> groups[g] == []
    ensures dirty == {}
  {
    forall x | x in dirty ensures false { TimesEmpty(groups, x); }
  }

  lemma {:induction false} TimesEmpty(groups: seq<seq<nat>>, x: nat)
    requires forall g :: 0 <= g < |groups| ==> groups[g] == []
    ensures Times(groups, x) == 0
  {
    if groups != [] {
      TimesEmpty(groups[1..], x);
    }
  }

  /** The elements of a set in some order, as iterating a hash set gives them. */
  method Enumerate(s: set<nat>) returns (list: seq<nat>)
    ensures forall x :: Occurs(list, x) == if x in s then 1 else 0
    ensures s != {} ==> list != []
  {
    list := [];
    var left := s;
    while left != {}
      invariant left <= s
      invariant forall x :: Occurs(list, x) == if x in s && x !in left then 1 else 0
      invariant left != s ==> list != []
      decreases |left|
    {
      var x :| x in left;
      list, left := list + [x], left - {x};
    }
  }

  /** Deal `list` round-robin into `n` groups: together the groups hold each element as often as `list`. */
  method Deal(list: seq<nat>, n: nat) returns (groups: seq<seq<nat>>)
    requires n > 0
    ensures |groups| == n && forall x :: Times(groups, x) == Occurs(list, x)
    ensures forall i :: 0 <= i < |list| ==> list[i] in groups[i % n]
  {
    groups := seq(n, _ => []);
    forall x ensures Times(groups, x) == 0 { TimesEmpty(groups, x); }
    var i := 0;
    while i < |list|
      invariant i <= |list| && |groups| == n
      invariant forall x :: Times(groups, x) == Occurs(list[..i], x)
      invariant forall k :: 0 <= k < i ==> list[k] in groups[k % n]
    {
      var g := i % n;
      var dealt := groups[g := groups[g] + [list[i]]];
      forall x ensures Times(dealt, x) == Occurs(list[..i + 1], x) {
        TimesUpdate(groups, g, groups[g] + [list[i]], x);
        assert list[..i + 1] == list[..i] + [list[i]];
      }
      groups := dealt;
      i := i + 1;
    }
    assert list[..i] == list;
  }
}
