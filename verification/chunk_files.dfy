/**
 Chunk files and the flat device they stand for (hostd/src/storage/volume.rs).

 A chunk file has the bytes a read sees now and the bytes the last `fdatasync` made
 durable. A missing file, and everything past a file's end, reads as zeros.
 */
module ChunkFiles {
  import opened Arith
  import opened Bytes

  datatype ChunkFile = ChunkFile(volatile: seq<byte>, durable: seq<byte>)

  type Files = map<nat, ChunkFile>

  function Content(files: Files, idx: nat): seq<byte> {
    if idx in files then files[idx].volatile else []
  }

  function Durable(files: Files, idx: nat): seq<byte> {
    if idx in files then files[idx].durable else []
  }

  function ByteOf(s: seq<byte>, i: nat): byte {
    if i < |s| then s[i] else 0
  }

  function ChunkOf(cs: nat, i: nat): nat
    requires cs > 0
  {
    i / cs
  }

  function Within(cs: nat, i: nat): nat
    requires cs > 0
  {
    i % cs
  }

  /** The byte of the device at offset `i`. */
  function ByteAt(files: Files, cs: nat, i: nat): byte
    requires cs > 0
  {
    ByteOf(Content(files, ChunkOf(cs, i)), Within(cs, i))
  }

  /** The device as one flat array. */
  function Flat(files: Files, cs: nat, size: nat): (r: seq<byte>)
    requires cs > 0
    ensures |r| == size && forall i :: 0 <= i < size ==> r[i] == ByteAt(files, cs, i)
  {
    seq(size, i requires 0 <= i < size => ByteAt(files, cs, i))
  }

  function Splice(s: seq<byte>, off: nat, data: seq<byte>): (r: seq<byte>)
    requires off + |data| <= |s|
    ensures |r| == |s|
    ensures forall i :: 0 <= i < |s| ==> r[i] == if off <= i < off + |data| then data[i - off] else s[i]
  {
    s[..off] + data + s[off + |data|..]
  }

  /** The chunks that `n` bytes from offset `off` fall into. */
  ghost function ChunksIn(cs: nat, off: nat, n: nat): set<nat>
    requires cs > 0
  {
    set i: nat | off <= i < off + n :: ChunkOf(cs, i)
  }

  /** `pwrite`: the file grows with zeros up to `at` if it is shorter. */
  function Overwrite(s: seq<byte>, at: nat, data: seq<byte>): (r: seq<byte>)
    ensures forall i: nat :: ByteOf(r, i) == if at <= i < at + |data| then data[i - at] else ByteOf(s, i)
  {
    var head := if at <= |s| then s[..at] else s + seq(at - |s|, _ => 0);
    var tail := if at + |data| <= |s| then s[at + |data|..] else [];
    assert forall i: nat :: i < at ==> head[i] == ByteOf(s, i);
    head + data + tail
  }

  // ----- chunk arithmetic -----

  /** Offsets in one chunk differ by as much as their places within the chunk do. */
  lemma SameChunk(cs: nat, a: nat, i: nat)
    requires cs > 0
    ensures ChunkOf(cs, i) == ChunkOf(cs, a) ==> i - a == Within(cs, i) - Within(cs, a)
    ensures a <= i < a + (cs - Within(cs, a)) ==> ChunkOf(cs, i) == ChunkOf(cs, a)
  {
    assert a == cs * (a / cs) + a % cs;
    assert i == cs * (i / cs) + i % cs;
    if a <= i < a + (cs - a % cs) {
      DivModUnique(cs, a / cs, a % cs + (i - a));
    }
  }

  /** Bytes that stay inside one chunk touch that chunk only. */
  lemma ChunksInOne(cs: nat, a: nat, n: nat)
    requires cs > 0 && 0 < n <= cs - Within(cs, a)
    ensures ChunksIn(cs, a, n) == {ChunkOf(cs, a)}
  {
    forall i: nat | a <= i < a + n ensures ChunkOf(cs, i) == ChunkOf(cs, a) {
      SameChunk(cs, a, i);
    }
    assert a <= a < a + n;
  }

  lemma ChunksInSplit(cs: nat, off: nat, m: nat, n: nat)
    requires cs > 0
    ensures ChunksIn(cs, off, m + n) == ChunksIn(cs, off, m) + ChunksIn(cs, off + m, n)
  {
    var all, front, back := ChunksIn(cs, off, m + n), ChunksIn(cs, off, m), ChunksIn(cs, off + m, n);
    forall i: nat | off <= i < off + m + n
      ensures ChunkOf(cs, i) in all && (ChunkOf(cs, i) in front || ChunkOf(cs, i) in back)
    {
    }
    assert all == front + back;
  }

  // ----- what file operations do to the device -----

  lemma FlatSame(files: Files, files': Files, cs: nat, size: nat)
    requires cs > 0 && forall i: nat :: Content(files', i) == Content(files, i)
    ensures Flat(files', cs, size) == Flat(files, cs, size)
  {
  }

  /** Writing within one chunk file is a splice of the device, whatever else the device holds. */
  lemma WriteIsSplice(files: Files, files': Files, cs: nat, size: nat, a: nat, data: seq<byte>)
    requires cs > 0 && |data| <= cs - Within(cs, a) && a + |data| <= size
    requires forall i: nat :: Content(files', i) ==
               if i == ChunkOf(cs, a) then Overwrite(Content(files, i), Within(cs, a), data) else Content(files, i)
    ensures Flat(files', cs, size) == Splice(Flat(files, cs, size), a, data)
  {
    var s := Splice(Flat(files, cs, size), a, data);
    forall i: nat | i < size ensures ByteAt(files', cs, i) == s[i] {
      SameChunk(cs, a, i);
    }
  }

  lemma SpliceTwice(s: seq<byte>, off: nat, d1: seq<byte>, d2: seq<byte>)
    requires off + |d1| + |d2| <= |s|
    ensures Splice(Splice(s, off, d1), off + |d1|, d2) == Splice(s, off, d1 + d2)
  {
  }

  // ----- the host's file calls -----

  datatype OpenResult = Opened | NotFound | OpenFailed

  /**
   The chunk directory on the host. Every call may fail, and a failed call changes
   nothing; a call that succeeds does all of its work.
   */
  class HostFs {
    var files: Files
    /** How many calls have failed. */
    ghost var failures: nat

    constructor (files: Files)
      ensures this.files == files && failures == 0
    {
      this.files, failures := files, 0;
    }

    method OpenOrCreate(idx: nat) returns (ok: bool)
      modifies this
      ensures ok ==> files == if idx in old(files) then old(files) else old(files)[idx := ChunkFile([], [])]
      ensures !ok ==> files == old(files)
      ensures failures == old(failures) + if ok then 0 else 1
    {
      ok := *;
      if !ok {
        failures := failures + 1;
      } else if idx !in files {
        files := files[idx := ChunkFile([], [])];
      }
    }

    method OpenExisting(idx: nat) returns (r: OpenResult)
      modifies this`failures
      ensures r.Opened? ==> idx in files
      ensures r.NotFound? ==> idx !in files
      ensures failures == old(failures) + if r.OpenFailed? then 1 else 0
    {
      var ok: bool := *;
      if !ok {
        failures := failures + 1;
        return OpenFailed;
      }
      r := if idx !in files then NotFound else Opened;
    }

    method WriteAllAt(idx: nat, at: nat, data: seq<byte>) returns (ok: bool)
      requires idx in files
      modifies this
      ensures ok ==>
        files == old(files)[idx := old(files)[idx].(volatile := Overwrite(old(files)[idx].volatile, at, data))]
      ensures !ok ==> files == old(files)
      ensures failures == old(failures) + if ok then 0 else 1
    {
      ok := *;
      if ok {
        files := files[idx := files[idx].(volatile := Overwrite(files[idx].volatile, at, data))];
      } else {
        failures := failures + 1;
      }
    }

    /** Up to `n` bytes from `at`, fewer when the file ends before. */
    method ReadAt(idx: nat, at: nat, n: nat) returns (ok: bool, data: seq<byte>)
      requires idx in files
      modifies this`failures
      ensures |data| <= n
      ensures ok ==> forall i: nat :: i < n ==> ByteOf(data, i) == ByteOf(files[idx].volatile, at + i)
      ensures failures == old(failures) + if ok then 0 else 1
    {
      ok := *;
      if !ok {
        failures := failures + 1;
      }
      var s := files[idx].volatile;
      data := if !ok || |s| <= at then [] else if |s| <= at + n then s[at..] else s[at..at + n];
    }

    method SyncData(idx: nat) returns (ok: bool)
      requires idx in files
      modifies this
      ensures ok ==> files == old(files)[idx := old(files)[idx].(durable := old(files)[idx].volatile)]
      ensures !ok ==> files == old(files)
      ensures failures == old(failures) + if ok then 0 else 1
    {
      ok := *;
      if ok {
        files := files[idx := files[idx].(durable := files[idx].volatile)];
      } else {
        failures := failures + 1;
      }
    }
  }
}
