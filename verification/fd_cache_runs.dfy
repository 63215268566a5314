/**
 Two runs of the open-file cache in which it does what its source does not expect
 (hostd/src/storage/volume.rs:185-212).
 */
module FdCacheRuns {

  import opened FdCaches

  /** One call of `chunk_fd` for an existing file, and the chunks that are dirty at that time. */
  datatype Use = Use(idx: nat, dirty: set<nat>)

  /** The cache after a run of such calls; a hit queues a new entry, and a miss sweeps as well. */
  function Cached(cap: nat, uses: seq<Use>): Swept {
    if uses == [] then Swept(map[], [])
    else
      var before := Cached(cap, uses[..|uses| - 1]);
      var use := uses[|uses| - 1];
      var fds, order := before.fds[use.idx := |uses|], before.order + [Entry(use.idx, |uses|)];
      if use.idx in before.fds then Swept(fds, order) else Sweep(fds, order, use.dirty, cap, 2 * cap)
  }

  function Chunks(uses: seq<Use>): seq<nat> {
    seq(|uses|, i requires 0 <= i < |uses| => uses[i].idx)
  }

  const Thrice := [Use(0, {}), Use(0, {}), Use(0, {})]

  const Stale := [Entry(0, 1), Entry(0, 2), Entry(0, 3)]

  /** What `FdCache` needs before a use of `dirty`, in its state after those uses. */
  ghost predicate Ready(cap: nat, uses: seq<Use>, dirty: set<nat>) {
    var c := Cached(cap, uses);
    && WellFormed(c.fds, c.order, |uses|) && LatestUse(c.fds, Chunks(uses))
    && CleanSorted(c.fds, c.order, dirty) && forall x :: x in dirty ==> x in c.fds
  }

  lemma CachedMore(cap: nat, uses: seq<Use>, use: Use)
    ensures var before := Cached(cap, uses);
      var fds, order := before.fds[use.idx := |uses| + 1], before.order + [Entry(use.idx, |uses| + 1)];
      Cached(cap, uses + [use]) ==
      if use.idx in before.fds then Swept(fds, order) else Sweep(fds, order, use.dirty, cap, 2 * cap)
  {
    assert (uses + [use])[..|uses|] == uses;
  }

  lemma OneFile()
    ensures Cached(1, [Use(0, {})]) == Swept(map[0 := 1], [Entry(0, 1)])
  {
    CachedMore(1, [], Use(0, {}));
    assert [] + [Use(0, {})] == [Use(0, {})] && [] + [Entry(0, 1)] == [Entry(0, 1)];
    SweepStep(map[0 := 1], [Entry(0, 1)], {}, 1, 2);
  }

  /**
   With room for one file, open chunk 0, write it, and open chunk 1: the file just opened is closed
   again, and the call panics.
   */
  lemma PanicWitness()
    ensures Ready(1, [Use(0, {})], {0})
    ensures Cached(1, [Use(0, {}), Use(1, {0})]) == Swept(map[0 := 1], [Entry(0, 1)])
  {
    OneFile();
    CachedMore(1, [Use(0, {})], Use(1, {0}));
    assert [Use(0, {})] + [Use(1, {0})] == [Use(0, {}), Use(1, {0})];
    assert map[0 := 1][1 := 2] == map[0 := 1, 1 := 2];
    assert [Entry(0, 1)] + [Entry(1, 2)] == [Entry(0, 1), Entry(1, 2)];
    ReadyWithOne();
    hide *;
    DirtyThenClosed();
  }

  lemma ReadyWithOne()
    requires Cached(1, [Use(0, {})]) == Swept(map[0 := 1], [Entry(0, 1)])
    ensures Ready(1, [Use(0, {})], {0})
  {
    hide Cached;
    assert Chunks([Use(0, {})]) == [0];
  }

  lemma ReadyWithThree()
    requires Cached(1, Thrice) == Swept(map[0 := 3], Stale)
    ensures Ready(1, Thrice, {})
  {
    hide Cached;
    assert Chunks(Thrice) == [0, 0, 0];
  }

  lemma DirtyThenClosed()
    ensures Sweep(map[0 := 1, 1 := 2], [Entry(0, 1), Entry(1, 2)], {0}, 1, 2) == Swept(map[0 := 1], [Entry(0, 1)])
  {
    var fds := map[0 := 1, 1 := 2];
    assert fds.Keys == {0, 1} && fds - {1} == map[0 := 1] && map[0 := 1].Keys == {0};
    var q, r := [Entry(0, 1), Entry(1, 2)], [Entry(1, 2), Entry(0, 1)];
    assert q[1..] + [q[0]] == r && r[1..] == [Entry(0, 1)];
    SweepStep(fds, q, {0}, 1, 2);
    SweepStep(fds, r, {0}, 1, 1);
    SweepStep(map[0 := 1], [Entry(0, 1)], {0}, 1, 0);
  }

  lemma ThreeUses()
    ensures Cached(1, Thrice) == Swept(map[0 := 3], Stale)
  {
    var u := Use(0, {});
    OneFile();
    CachedMore(1, [u], u);
    CachedMore(1, [u, u], u);
    hide Cached, Sweep;
    assert [u] + [u] == [u, u] && [u, u] + [u] == Thrice;
    assert [Entry(0, 1)] + [Entry(0, 2)] == [Entry(0, 1), Entry(0, 2)];
    assert [Entry(0, 1), Entry(0, 2)] + [Entry(0, 3)] == Stale;
  }

  /**
   With room for one file, use chunk 0 three times and then chunk 1, nothing being dirty: two stale
   entries use up the two pops, and both files stay open.
   */
  lemma AboveCapWitness()
    ensures Ready(1, Thrice, {})
    ensures Cached(1, Thrice + [Use(1, {})]).fds == map[0 := 3][1 := 4]
  {
    ThreeUses();
    ReadyWithThree();
    CachedMore(1, Thrice, Use(1, {}));
    TwoStalePops();
    hide *;
  }

  lemma TwoStalePops()
    ensures var fds := map[0 := 3][1 := 4]; Sweep(fds, Stale + [Entry(1, 4)], {}, 1, 2).fds == fds
  {
    var fds := map[0 := 3][1 := 4];
    assert fds.Keys == {0, 1};
    var q := Stale + [Entry(1, 4)];
    assert q[0] == Entry(0, 1) && q[1..][0] == Entry(0, 2);
    SweepStep(fds, q, {}, 1, 2);
    SweepStep(fds, q[1..], {}, 1, 1);
    SweepStep(fds, q[1..][1..], {}, 1, 0);
  }
}
