/**
 The cache of open chunk files behind a volume (hostd/src/storage/volume.rs).

 The cache is a map from chunk index to the generation of its latest use, plus a
 queue of `(idx, gen)` entries. A queue entry is live only while its generation is
 still the one in the map; using a chunk again leaves its older entry behind as a
 stale one. `Sweep` is the bounded eviction loop written as a function, so that
 what it keeps and what it drops can be stated for every queue.
 */
module FdCaches {

  import opened Arith

  datatype Entry = Entry(idx: nat, gen: nat)

  datatype Swept = Swept(fds: map<nat, nat>, order: seq<Entry>)

  predicate IsLive(e: Entry, fds: map<nat, nat>) {
    e.idx in fds && fds[e.idx] == e.gen
  }

  /** Distinct generations, none from the future, and one queue entry for every cached chunk. */
  ghost predicate WellFormed(fds: map<nat, nat>, order: seq<Entry>, nextGen: nat) {
    && (forall i, j :: 0 <= i < j < |order| ==> order[i].gen != order[j].gen)
    && (forall e :: e in order ==> e.gen <= nextGen)
    && (forall x :: x in fds ==> Entry(x, fds[x]) in order)
  }

  /** The live entries of clean chunks stand in the queue from least to most recently used. */
  ghost predicate CleanSorted(fds: map<nat, nat>, order: seq<Entry>, dirty: set<nat>) {
    forall i, j :: 0 <= i < j < |order| && Evictable(order[i], fds, dirty) && Evictable(order[j], fds, dirty) ==>
      order[i].gen < order[j].gen
  }

  predicate Evictable(e: Entry, fds: map<nat, nat>, dirty: set<nat>) {
    IsLive(e, fds) && e.idx !in dirty
  }

  /** The chunks that popping all of `q` would close. */
  ghost function Victims(q: seq<Entry>, fds: map<nat, nat>, dirty: set<nat>): set<nat> {
    set e | e in q && Evictable(e, fds, dirty) :: e.idx
  }

  /** The chunks that popping all of `q` would leave cached. */
  ghost function Remaining(q: seq<Entry>, fds: map<nat, nat>, dirty: set<nat>): (r: set<nat>)
    ensures |r| <= |fds|
  {
    var rest := set x | x in fds && x !in Victims(q, fds, dirty);
    SubsetSize(rest, fds.Keys);
    rest
  }

  /** One turn of the eviction loop: drop a stale entry, rotate a dirty one, close a clean one. */
  function Pop(fds: map<nat, nat>, order: seq<Entry>, dirty: set<nat>): Swept
    requires order != []
  {
    if !IsLive(order[0], fds) then Swept(fds, order[1..])
    else if order[0].idx in dirty then Swept(fds, order[1..] + [order[0]])
    else Swept(fds - {order[0].idx}, order[1..])
  }

  /** The eviction loop: at most `pops` turns while more than `cap` chunks are cached. */
  function Sweep(fds: map<nat, nat>, order: seq<Entry>, dirty: set<nat>, cap: nat, pops: nat): Swept
    decreases pops
  {
    if |fds| <= cap || pops == 0 || order == [] then Swept(fds, order)
    else var r := Pop(fds, order, dirty); Sweep(r.fds, r.order, dirty, cap, pops - 1)
  }

  // ----- one pop -----

  lemma PopKeeps(fds: map<nat, nat>, order: seq<Entry>, dirty: set<nat>, nextGen: nat)
    requires WellFormed(fds, order, nextGen) && order != []
    ensures var r := Pop(fds, order, dirty);
            && WellFormed(r.fds, r.order, nextGen)
            && (forall x :: x in r.fds ==> x in fds && r.fds[x] == fds[x])
            && (forall x :: x in fds && x in dirty ==> x in r.fds)
            && (Evictable(order[0], fds, dirty) ==> order[0].idx !in r.fds)
  {
    var r := Pop(fds, order, dirty);
    forall x | x in r.fds
      ensures Entry(x, r.fds[x]) in r.order
    {
      assert Entry(x, fds[x]) in order;
      if order[0] == Entry(x, fds[x]) && r.order != order[1..] {
        assert r.order[|r.order| - 1] == order[0];
      } else {
        assert Entry(x, fds[x]) in order[1..];
      }
    }
  }

  lemma VictimsSkip(p: seq<Entry>, fds: map<nat, nat>, dirty: set<nat>)
    requires p != [] && !Evictable(p[0], fds, dirty)
    ensures Victims(p[1..], fds, dirty) == Victims(p, fds, dirty)
  {
    hide Evictable;
    forall f | f in p ensures f == p[0] || f in p[1..] {}
  }

  lemma VictimsClose(p: seq<Entry>, fds: map<nat, nat>, dirty: set<nat>)
    requires p != [] && Evictable(p[0], fds, dirty)
    requires forall i :: 0 < i < |p| ==> p[0].gen != p[i].gen
    ensures Victims(p, fds, dirty) == Victims(p[1..], fds - {p[0].idx}, dirty) + {p[0].idx}
    ensures p[0].idx !in Victims(p[1..], fds - {p[0].idx}, dirty)
  {
    var e := p[0];
    var smaller := fds - {e.idx};
    forall f | f in p && f != e ensures Evictable(f, fds, dirty) <==> Evictable(f, smaller, dirty) {
      var i :| 0 < i < |p| && p[i] == f;
    }
    forall f | f in p[1..] ensures f != e {
      var i :| 0 < i < |p| && p[i] == f;
    }
  }

  /** A pop from the prefix `p` leaves the chunks that survive all of `p` unchanged. */
  lemma PopVictims(p: seq<Entry>, rest: seq<Entry>, fds: map<nat, nat>, dirty: set<nat>, nextGen: nat)
    requires p != [] && WellFormed(fds, p + rest, nextGen)
    ensures var r := Pop(fds, p + rest, dirty);
            Remaining(p[1..], r.fds, dirty) == Remaining(p, fds, dirty)
  {
    var order := p + rest;
    assert order[0] == p[0];
    forall i | 0 < i < |p| ensures p[0].gen != p[i].gen {
      assert order[i] == p[i];
    }
    hide Victims, WellFormed;
    if Evictable(p[0], fds, dirty) {
      VictimsClose(p, fds, dirty);
    } else {
      VictimsSkip(p, fds, dirty);
    }
  }

  /** A pop from in front of a clean live entry leaves that entry live, one place nearer the front. */
  lemma PopInFront(p: seq<Entry>, e: Entry, rest: seq<Entry>, fds: map<nat, nat>, dirty: set<nat>, nextGen: nat)
    returns (later: seq<Entry>)
    requires p != [] && WellFormed(fds, p + [e] + rest, nextGen) && Evictable(e, fds, dirty)
    ensures var r := Pop(fds, p + [e] + rest, dirty);
            r.order == p[1..] + [e] + later && Evictable(e, r.fds, dirty)
  {
    var order := p + [e] + rest;
    assert order[0] == p[0] && order[|p|] == e;
    assert order[0].gen != order[|p|].gen;
    assert order[1..] == p[1..] + [e] + rest;
    later := if Pop(fds, order, dirty).order == order[1..] then rest else rest + [p[0]];
    assert order[1..] + [p[0]] == p[1..] + [e] + (rest + [p[0]]);
  }

  lemma PopPrefix(p: seq<Entry>, rest: seq<Entry>, fds: map<nat, nat>, dirty: set<nat>)
    returns (later: seq<Entry>)
    requires p != []
    ensures Pop(fds, p + rest, dirty).order == p[1..] + later
  {
    var order := p + rest;
    assert order[0] == p[0] && order[1..] == p[1..] + rest;
    later := if Pop(fds, order, dirty).order == order[1..] then rest else rest + [p[0]];
    assert order[1..] + [p[0]] == p[1..] + (rest + [p[0]]);
  }

  lemma PopKeepsSorted(fds: map<nat, nat>, order: seq<Entry>, dirty: set<nat>, nextGen: nat)
    requires WellFormed(fds, order, nextGen) && CleanSorted(fds, order, dirty) && order != []
    ensures var r := Pop(fds, order, dirty);
            && CleanSorted(r.fds, r.order, dirty)
            && (forall v, s :: v in fds && v !in r.fds && s in r.fds && s !in dirty ==> fds[v] < fds[s])
  {
    var r := Pop(fds, order, dirty);
    forall v, s | v in fds && v !in r.fds && s in r.fds && s !in dirty ensures fds[v] < fds[s] {
      assert Entry(s, fds[s]) in order;
      var j :| 0 <= j < |order| && order[j] == Entry(s, fds[s]);
      assert Evictable(order[0], fds, dirty) && Evictable(order[j], fds, dirty);
    }
    forall i, j | 0 <= i < j < |r.order| && Evictable(r.order[i], r.fds, dirty) && Evictable(r.order[j], r.fds, dirty)
      ensures r.order[i].gen < r.order[j].gen
    {
      assert r.order[i] == order[i + 1] && r.order[j] == order[j + 1];
      assert Evictable(order[i + 1], fds, dirty) && Evictable(order[j + 1], fds, dirty);
    }
  }

  // ----- the whole loop -----

  lemma SweepStep(fds: map<nat, nat>, order: seq<Entry>, dirty: set<nat>, cap: nat, pops: nat)
    ensures |fds| <= cap || pops == 0 || order == [] ==> Sweep(fds, order, dirty, cap, pops) == Swept(fds, order)
    ensures |fds| > cap && pops > 0 && order != [] ==>
              var r := Pop(fds, order, dirty);
              Sweep(fds, order, dirty, cap, pops) == Sweep(r.fds, r.order, dirty, cap, pops - 1)
  {
  }

  /** The loop keeps the queue well formed, closes nothing dirty, and changes no generation. */
  lemma {:induction false} SweepKeeps(fds: map<nat, nat>, order: seq<Entry>, dirty: set<nat>, cap: nat, pops: nat,
                                      nextGen: nat)
    requires WellFormed(fds, order, nextGen)
    ensures var r := Sweep(fds, order, dirty, cap, pops);
            && WellFormed(r.fds, r.order, nextGen)
            && (forall x :: x in r.fds ==> x in fds && r.fds[x] == fds[x])
            && (forall x :: x in fds && x in dirty ==> x in r.fds)
    decreases pops
  {
    hide WellFormed;
    if |fds| > cap && pops > 0 && order != [] {
      PopKeeps(fds, order, dirty, nextGen);
      var r := Pop(fds, order, dirty);
      SweepKeeps(r.fds, r.order, dirty, cap, pops - 1, nextGen);
    }
  }

  /**
   When a clean live entry `e` survives: exactly when the loop stops before reaching it, which
   it does when the pops run out in front of `e` or enough chunks in front of it are closed.
   */
  lemma {:induction false} SweepSurvival(fds: map<nat, nat>, p: seq<Entry>, e: Entry, rest: seq<Entry>,
                                         dirty: set<nat>, cap: nat, pops: nat, nextGen: nat, order: seq<Entry>)
    requires order == p + [e] + rest && WellFormed(fds, order, nextGen) && Evictable(e, fds, dirty)
    ensures e.idx !in Sweep(fds, order, dirty, cap, pops).fds
            <==> |p| < pops && |Remaining(p, fds, dirty)| > cap
    decreases pops
  {
    assert e.idx in fds;
    hide *;
    SweepStep(fds, order, dirty, cap, pops);
    if |fds| > cap && pops > 0 {
      assert order[|p|] == e;
      if |p| == 0 {
        assert p == [];
        NoVictims(fds, dirty);
        SweepClosesFront(fds, order, dirty, cap, pops, nextGen);
      } else {
        var r, later := SurvivalStep(fds, p, e, rest, dirty, nextGen, order);
        SweepSurvival(r.fds, p[1..], e, later, dirty, cap, pops - 1, nextGen, r.order);
      }
    }
  }

  lemma SurvivalStep(fds: map<nat, nat>, p: seq<Entry>, e: Entry, rest: seq<Entry>, dirty: set<nat>, nextGen: nat,
                     order: seq<Entry>)
    returns (r: Swept, later: seq<Entry>)
    requires order == p + [e] + rest && p != [] && WellFormed(fds, order, nextGen) && Evictable(e, fds, dirty)
    ensures r == Pop(fds, order, dirty) && r.order == p[1..] + [e] + later
    ensures WellFormed(r.fds, r.order, nextGen) && Evictable(e, r.fds, dirty)
    ensures Remaining(p[1..], r.fds, dirty) == Remaining(p, fds, dirty)
  {
    hide *;
    r := Pop(fds, order, dirty);
    PopKeeps(fds, order, dirty, nextGen);
    later := PopInFront(p, e, rest, fds, dirty, nextGen);
    assert p + ([e] + rest) == order;
    PopVictims(p, [e] + rest, fds, dirty, nextGen);
  }

  /** A clean live entry at the front is closed for good. */
  lemma SweepClosesFront(fds: map<nat, nat>, order: seq<Entry>, dirty: set<nat>, cap: nat, pops: nat, nextGen: nat)
    requires order != [] && WellFormed(fds, order, nextGen) && Evictable(order[0], fds, dirty)
    requires |fds| > cap && pops > 0
    ensures order[0].idx !in Sweep(fds, order, dirty, cap, pops).fds
  {
    hide *;
    var r := Pop(fds, order, dirty);
    PopKeeps(fds, order, dirty, nextGen);
    SweepStep(fds, order, dirty, cap, pops);
    SweepKeeps(r.fds, r.order, dirty, cap, pops - 1, nextGen);
  }

  lemma NoVictims(fds: map<nat, nat>, dirty: set<nat>)
    ensures Remaining([], fds, dirty) == fds.Keys
  {
  }

  /** Popping all of a prefix `p` brings the cache down to `cap` exactly when `p` holds enough victims. */
  lemma {:induction false} SweepReachesCap(fds: map<nat, nat>, p: seq<Entry>, rest: seq<Entry>, dirty: set<nat>,
                                           cap: nat, pops: nat, nextGen: nat)
    requires WellFormed(fds, p + rest, nextGen) && |p| <= pops
    ensures |Remaining(p, fds, dirty)| <= cap ==> |Sweep(fds, p + rest, dirty, cap, pops).fds| <= cap
    ensures |p| == pops && |Remaining(p, fds, dirty)| > cap ==>
              |Sweep(fds, p + rest, dirty, cap, pops).fds| > cap
    decreases pops
  {
    hide *;
    var order := p + rest;
    SweepStep(fds, order, dirty, cap, pops);
    if p == [] {
      NoVictims(fds, dirty);
    } else if |fds| > cap {
      var r := Pop(fds, order, dirty);
      PopKeeps(fds, order, dirty, nextGen);
      PopVictims(p, rest, fds, dirty, nextGen);
      var later := PopPrefix(p, rest, fds, dirty);
      SweepReachesCap(r.fds, p[1..], later, dirty, cap, pops - 1, nextGen);
    }
  }

  /**
   When the loop ends within the capacity: exactly when the entries it can reach, the first
   `pops` of the queue, hold enough victims. Stale entries use up pops, so this can fail.
   */
  lemma SweepWithinCap(fds: map<nat, nat>, order: seq<Entry>, dirty: set<nat>, cap: nat, pops: nat, nextGen: nat)
    requires WellFormed(fds, order, nextGen)
    ensures var reach := if pops < |order| then pops else |order|;
            |Sweep(fds, order, dirty, cap, pops).fds| <= cap <==> |Remaining(order[..reach], fds, dirty)| <= cap
  {
    var reach := if pops < |order| then pops else |order|;
    assert order == order[..reach] + order[reach..];
    SweepReachesCap(fds, order[..reach], order[reach..], dirty, cap, pops, nextGen);
    if reach < pops {
      assert order[..reach] == order;
      var r := Sweep(fds, order, dirty, cap, pops);
      SweepKeeps(fds, order, dirty, cap, pops, nextGen);
      forall x | x in Remaining(order, fds, dirty) ensures x in r.fds {
        assert Entry(x, fds[x]) in order;
        if x !in dirty { assert Evictable(Entry(x, fds[x]), fds, dirty); }
      }
      SubsetSize(Remaining(order, fds, dirty), r.fds.Keys);
    }
  }

  /** A cached chunk has one live queue entry and no other. */
  lemma OneLiveEntry(fds: map<nat, nat>, order: seq<Entry>, nextGen: nat, x: nat) returns (i: nat)
    requires WellFormed(fds, order, nextGen) && x in fds
    ensures i < |order| && order[i] == Entry(x, fds[x])
    ensures forall j :: 0 <= j < |order| && order[j].idx == x && IsLive(order[j], fds) ==> j == i
  {
    assert Entry(x, fds[x]) in order;
    i :| 0 <= i < |order| && order[i] == Entry(x, fds[x]);
  }

  /** Every closed chunk was used less recently than every clean chunk that stays. */
  lemma {:induction false} SweepClosesOldest(fds: map<nat, nat>, order: seq<Entry>, dirty: set<nat>, cap: nat,
                                             pops: nat, nextGen: nat)
    requires WellFormed(fds, order, nextGen) && CleanSorted(fds, order, dirty)
    ensures var r := Sweep(fds, order, dirty, cap, pops);
            && CleanSorted(r.fds, r.order, dirty)
            && (forall x :: x in r.fds ==> x in fds && r.fds[x] == fds[x])
            && (forall v, s :: v in fds && v !in r.fds && s in r.fds && s !in dirty ==> fds[v] < fds[s])
    decreases pops
  {
    hide WellFormed, CleanSorted;
    if |fds| > cap && pops > 0 && order != [] {
      var r := Pop(fds, order, dirty);
      PopKeeps(fds, order, dirty, nextGen);
      PopKeepsSorted(fds, order, dirty, nextGen);
      SweepClosesOldest(r.fds, r.order, dirty, cap, pops - 1, nextGen);
    }
  }

  // ----- one use of a chunk -----

  /** Giving `idx` a newer generation and queueing it keeps the queue well formed and sorted. */
  lemma UseKeeps(fds: map<nat, nat>, order: seq<Entry>, idx: nat, gen: nat, dirty: set<nat>)
    requires gen > 0 && WellFormed(fds, order, gen - 1) && CleanSorted(fds, order, dirty)
    ensures WellFormed(fds[idx := gen], order + [Entry(idx, gen)], gen)
    ensures CleanSorted(fds[idx := gen], order + [Entry(idx, gen)], dirty)
    ensures CleanSorted(fds[idx := gen], order + [Entry(idx, gen)], dirty - {idx})
  {
    var fds', order' := fds[idx := gen], order + [Entry(idx, gen)];
    assert order'[|order|] == Entry(idx, gen);
    forall x | x in fds' ensures Entry(x, fds'[x]) in order' {
      if x != idx { assert Entry(x, fds[x]) in order; }
    }
    forall e | e in order' ensures e.gen <= gen {
      if e != Entry(idx, gen) { assert e in order; }
    }
    forall i, j | 0 <= i < j < |order'|
      ensures order'[i].gen != order'[j].gen
      ensures Evictable(order'[i], fds', dirty - {idx}) && Evictable(order'[j], fds', dirty - {idx}) ==>
                order'[i].gen < order'[j].gen
    {
      assert order'[i] in order;
      if j < |order| {
        assert order'[j] in order;
        if Evictable(order'[i], fds', dirty - {idx}) && Evictable(order'[j], fds', dirty - {idx}) {
          assert Evictable(order[i], fds, dirty) && Evictable(order[j], fds, dirty);
        }
      }
    }
  }

  /** What the loop does to a queue whose newest entry is the chunk just added. */
  lemma InsertFacts(fds: map<nat, nat>, order: seq<Entry>, idx: nat, gen: nat, dirty: set<nat>, cap: nat)
    requires gen > 0 && WellFormed(fds, order, gen - 1) && CleanSorted(fds, order, dirty)
    requires idx !in fds && (forall x :: x in dirty ==> x in fds)
    ensures var fds0, order0 := fds[idx := gen], order + [Entry(idx, gen)];
            var r := Sweep(fds0, order0, dirty, cap, 2 * cap);
            && WellFormed(r.fds, r.order, gen)
            && CleanSorted(r.fds, r.order, dirty)
            && (forall x :: x in dirty ==> x in r.fds)
            && (forall x :: x in r.fds ==> x in fds0 && r.fds[x] == fds0[x])
            && (idx !in r.fds <==> |dirty| >= cap && |order| < 2 * cap)
            && (forall v, s :: v in fds0 && v !in r.fds && s in r.fds && s !in dirty ==> fds0[v] < fds0[s])
            && (|dirty| < cap && |order| <= 2 * cap ==> |r.fds| <= cap)
  {
    var e := Entry(idx, gen);
    var fds0 := fds[idx := gen];
    UseKeeps(fds, order, idx, gen, dirty);
    CleanAreVictims(fds, order, idx, gen, dirty);
    assert Evictable(e, fds0, dirty);
    hide *;
    SweptFacts(fds0, order, e, dirty, cap);
  }

  lemma SweptFacts(fds0: map<nat, nat>, order: seq<Entry>, e: Entry, dirty: set<nat>, cap: nat)
    requires WellFormed(fds0, order + [e], e.gen) && CleanSorted(fds0, order + [e], dirty)
    requires Evictable(e, fds0, dirty) && forall x :: x in dirty ==> x in fds0
    requires Remaining(order, fds0, dirty) == dirty + {e.idx} && |dirty + {e.idx}| == |dirty| + 1
    ensures var r := Sweep(fds0, order + [e], dirty, cap, 2 * cap);
            && WellFormed(r.fds, r.order, e.gen)
            && CleanSorted(r.fds, r.order, dirty)
            && (forall x :: x in dirty ==> x in r.fds)
            && (forall x :: x in r.fds ==> x in fds0 && r.fds[x] == fds0[x])
            && (e.idx !in r.fds <==> |dirty| >= cap && |order| < 2 * cap)
            && (forall v, s :: v in fds0 && v !in r.fds && s in r.fds && s !in dirty ==> fds0[v] < fds0[s])
            && (|dirty| < cap && |order| <= 2 * cap ==> |r.fds| <= cap)
  {
    hide *;
    SweepKeeps(fds0, order + [e], dirty, cap, 2 * cap, e.gen);
    SweepClosesOldest(fds0, order + [e], dirty, cap, 2 * cap, e.gen);
    SweptSizes(fds0, order, e, dirty, cap);
  }

  lemma SweptSizes(fds0: map<nat, nat>, order: seq<Entry>, e: Entry, dirty: set<nat>, cap: nat)
    requires WellFormed(fds0, order + [e], e.gen) && CleanSorted(fds0, order + [e], dirty)
    requires Evictable(e, fds0, dirty)
    requires Remaining(order, fds0, dirty) == dirty + {e.idx} && |dirty + {e.idx}| == |dirty| + 1
    ensures var r := Sweep(fds0, order + [e], dirty, cap, 2 * cap);
            && (e.idx !in r.fds <==> |dirty| >= cap && |order| < 2 * cap)
            && (|dirty| < cap && |order| <= 2 * cap ==> |r.fds| <= cap)
  {
    hide *;
    assert order + [e] == order + [e] + [];
    SweepSurvival(fds0, order, e, [], dirty, cap, 2 * cap, e.gen, order + [e]);
    if |order| <= 2 * cap {
      SweepReachesCap(fds0, order, [e], dirty, cap, 2 * cap, e.gen);
    }
  }

  lemma CleanAreVictims(fds: map<nat, nat>, order: seq<Entry>, idx: nat, gen: nat, dirty: set<nat>)
    requires gen > 0 && WellFormed(fds, order, gen - 1) && idx !in fds
    requires forall x :: x in dirty ==> x in fds
    ensures Remaining(order, fds[idx := gen], dirty) == dirty + {idx}
    ensures |dirty + {idx}| == |dirty| + 1
  {
    var fds0 := fds[idx := gen];
    var v := Victims(order, fds0, dirty);
    forall x | x in fds && x !in dirty ensures x in v {
      var f := Entry(x, fds[x]);
      assert f in order && Evictable(f, fds0, dirty);
    }
    assert idx !in v;
    forall x: nat ensures x in Remaining(order, fds0, dirty) <==> x in dirty + {idx} {
      if x in dirty { assert x !in v; }
    }
  }

  /** Generation `g` stands for the `g`-th use: each cached chunk carries that of its latest one. */
  ghost predicate LatestUse(fds: map<nat, nat>, history: seq<nat>) {
    forall x :: x in fds ==>
      && 1 <= fds[x] <= |history|
      && history[fds[x] - 1] == x
      && (forall k :: fds[x] <= k < |history| ==> history[k] != x)
  }

  lemma UseIsLatest(fds: map<nat, nat>, history: seq<nat>, idx: nat)
    requires LatestUse(fds, history)
    ensures LatestUse(fds[idx := |history| + 1], history + [idx])
  {
  }

  /** The open-file cache itself. An open file is named by its chunk index. */
  class FdCache {
    var fds: map<nat, nat>
    var order: seq<Entry>
    var nextGen: nat
    const cap: nat
    /** Every chunk handed out so far, oldest first. */
    ghost var history: seq<nat>

    constructor (cap: nat)
      ensures this.cap == cap && fds == map[] && order == [] && nextGen == 0 && history == []
    {
      this.cap := cap;
      fds, order, nextGen, history := map[], [], 0, [];
    }

    ghost predicate Valid()
      reads this
    {
      nextGen == |history| && WellFormed(fds, order, nextGen) && LatestUse(fds, history)
    }

    /** A cache hit: the chunk becomes the most recently used one. */
    method Touch(idx: nat, ghost dirty: set<nat>)
      requires Valid() && idx in fds && CleanSorted(fds, order, dirty)
      modifies this
      ensures Valid() && CleanSorted(fds, order, dirty)
      ensures history == old(history) + [idx]
      ensures fds == old(fds)[idx := nextGen] && order == old(order) + [Entry(idx, nextGen)]
      ensures CleanSorted(fds, order, dirty - {idx})
    {
      hide WellFormed, CleanSorted, LatestUse;
      UseKeeps(fds, order, idx, nextGen + 1, dirty);
      UseIsLatest(fds, history, idx);
      nextGen := nextGen + 1;
      fds := fds[idx := nextGen];
      order := order + [Entry(idx, nextGen)];
      history := history + [idx];
    }

    /** The eviction loop: dirty chunks are rotated to the back, never closed. */
    method CloseWhileOver(dirty: set<nat>)
      modifies this`fds, this`order
      ensures Swept(fds, order) == Sweep(old(fds), old(order), dirty, cap, 2 * cap)
    {
      hide Sweep;
      var pops := 0;
      while |fds| > cap && pops < 2 * cap
        invariant pops <= 2 * cap
        invariant Sweep(fds, order, dirty, cap, 2 * cap - pops) == Sweep(old(fds), old(order), dirty, cap, 2 * cap)
      {
        SweepStep(fds, order, dirty, cap, 2 * cap - pops);
        pops := pops + 1;
        if order == [] {
          break;
        }
        var victim := order[0];
        order := order[1..];
        if !IsLive(victim, fds) {
          continue;
        }
        if victim.idx in dirty {
          order := order + [victim];
          continue;
        }
        fds := fds - {victim.idx};
      }
      SweepStep(fds, order, dirty, cap, 2 * cap - pops);
    }

    /**
     A cache miss: add the chunk, then close clean chunks while over capacity. `kept` is false
     when the loop closed the very chunk just added, which is where the source panics.
     */
    method Insert(idx: nat, dirty: set<nat>) returns (kept: bool)
      requires Valid() && idx !in fds && CleanSorted(fds, order, dirty)
      requires forall x :: x in dirty ==> x in fds
      modifies this
      ensures Valid() && CleanSorted(fds, order, dirty)
      ensures history == old(history) + [idx]
      ensures Swept(fds, order)
              == Sweep(old(fds)[idx := nextGen], old(order) + [Entry(idx, nextGen)], dirty, cap, 2 * cap)
      ensures kept <==> idx in fds
      ensures !kept <==> |dirty| >= cap && |old(order)| < 2 * cap
      ensures forall x :: x in dirty ==> x in fds
      ensures forall x :: x in fds && x != idx ==> x in old(fds) && fds[x] == old(fds)[x]
      ensures forall v, s :: v in old(fds) && v !in fds && s in fds && s !in dirty ==> old(fds)[v] < fds[s]
      ensures |dirty| < cap && |old(order)| <= 2 * cap ==> |fds| <= cap
    {
      hide WellFormed, CleanSorted, LatestUse;
      UseIsLatest(fds, history, idx);
      ghost var was, queue := fds, order;
      nextGen := nextGen + 1;
      fds := fds[idx := nextGen];
      order := order + [Entry(idx, nextGen)];
      history := history + [idx];
      ghost var fds0 := fds;
      CloseWhileOver(dirty);
      hide *;
      InsertFacts(was, queue, idx, nextGen, dirty, cap);
      assert LatestUse(fds, history) by {
        LatestUseShrinks(fds0, fds, history);
      }
      kept := idx in fds;
    }
  }

  lemma LatestUseShrinks(fds: map<nat, nat>, fds': map<nat, nat>, history: seq<nat>)
    requires LatestUse(fds, history)
    requires forall x :: x in fds' ==> x in fds && fds'[x] == fds[x]
    ensures LatestUse(fds', history)
  {
  }
}
