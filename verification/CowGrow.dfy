/** How the file of a redo log grows. */
module CowGrow {
  import opened CowState
  import opened CowInvariant
  import opened CowAdd
  import opened CowRun

  /** The length of a file of a0 sectors once free sectors are in use: extended by whole increments,
      and by no more of them than it takes. */
  function Extended(a0: int, free: int): int
  {
    if free <= a0 then a0 else a0 + (free - a0 + SIZE_INCREMENT - 1) / SIZE_INCREMENT * SIZE_INCREMENT
  }

  ghost predicate Covered(ext: map<int, Use>, granularity: int, p: int)
  {
    exists a :: a in ext && a <= p < a + Len(ext[a], granularity)
  }

  /** Starting from free sector f0 and a file of a0 sectors: every sector since is part of a leaf block or
      a grain handed out, and the file is as long as they need. */
  ghost predicate Compact(s: State, h: History, f0: int, a0: int)
  {
    && f0 <= s.freeSector && s.allocSectors == Extended(a0, s.freeSector)
    && forall p :: f0 <= p < s.freeSector ==> Covered(h.extents, s.granularity, p)
  }

  lemma GrowLength(free: int, increment: int, a0: int)
    requires 0 < increment <= SIZE_INCREMENT
    ensures var alloc := Extended(a0, free);
      free <= alloc && Extended(a0, free + increment) == if free + increment > alloc then alloc + SIZE_INCREMENT else alloc
  {
  }

  /** One run handed out. */
  lemma GrowCompact(s: State, h: History, s': State, h': History, use: Use, f0: int, a0: int)
    requires Inv(s, h) && Compact(s, h, f0, a0) && 0 < Len(use, s.granularity) <= SIZE_INCREMENT
    requires var g := Grow(s, Len(use, s.granularity)); s'.freeSector == g.freeSector && s'.allocSectors == g.allocSectors
    requires s'.granularity == s.granularity && h'.extents == h.extents[s.freeSector := use]
    ensures Compact(s', h', f0, a0)
  {
    hide RootsOk, LeavesOk, FinishedOk, CacheOk, MirrorOk, PinsOk, CmdsOk, ApartOk, QueueOk, ContentOk, Extended;
    GrowLength(s.freeSector, Len(use, s.granularity), a0);
    GranularityPositive(h.extents, s.rootOffset, |s.rootEntries|, s.freeSector, s.granularity);
    forall p | f0 <= p < s'.freeSector ensures Covered(h'.extents, s'.granularity, p) {
      if p < s.freeSector {
        assert Covered(h.extents, s.granularity, p);
        var a :| a in h.extents && a <= p < a + Len(h.extents[a], s.granularity);
        assert a in h'.extents && h'.extents[a] == h.extents[a];
      } else {
        assert s.freeSector in h'.extents && h'.extents[s.freeSector] == use;
      }
    }
  }

  /** Nothing handed out. */
  ghost predicate SameSize(s: State, s': State)
  {
    s'.freeSector == s.freeSector && s'.allocSectors == s.allocSectors && s'.granularity == s.granularity
  }

  lemma {:induction false} StartSize(s: State, i: nat)
    requires s.granularity > 0 && i <= |s.active|
    ensures SameSize(s, StartFrom(s, i))
    decreases |s.active| - i
  {
    hide UpdateCache;
    if i < |s.active| && IsWaiting(s, s.active[i]) {
      StartSize(StartMeta(s, s.active[i]), i + 1);
    }
  }

  lemma AddCompact(s: State, h: History, id: int, sector: int, words: seq<int>, f0: int, a0: int)
    requires Inv(s, h) && AddEnabled(s, id, sector, words) && Compact(s, h, f0, a0)
    ensures Compact(Add(s, id, sector, words), h.(extents := AddExtents(s, h.extents, id, sector, words)), f0, a0)
  {
    hide Inv, CanLookup, SlotFor, InFlight, ToGrain, Entry, Compact, Looked, Insert, Pinned;
    var g := ToGrain(s.granularity, sector);
    WithLeafInv(s, h, g.root);
    var s1, h1 := WithLeaf(s, g.root), h.(extents := LeafExtents(s, h.extents, g.root));
    if s.rootEntries[g.root] == 0 {
      GrowCompact(s, h, s1, h1, LeafOf(g.root), f0, a0);
    } else {
      SameCompact(s, h, s1, h1, f0, a0);
    }
    var s2 := Add(s, id, sector, words);
    var h2 := h.(extents := AddExtents(s, h.extents, id, sector, words));
    var slot := SlotFor(s.cache, LeafSector(s, g.root));
    assert ToGrain(s1.granularity, sector) == g;
    if Entry(s1, slot, g.pos) == 0 {
      assert h2.extents == h1.extents[s1.freeSector := GrainOf(g)];
      GrowCompact(s1, h1, s2, h2, GrainOf(g), f0, a0);
    } else {
      SameCompact(s1, h1, s2, h2, f0, a0);
    }
  }

  lemma SameCompact(s: State, h: History, s': State, h': History, f0: int, a0: int)
    requires Compact(s, h, f0, a0) && SameSize(s, s') && h'.extents == h.extents
    ensures Compact(s', h', f0, a0)
  {
    hide Covered, Extended;
  }

  lemma StepCompact(s: State, h: History, e: Event, f0: int, a0: int)
    requires Inv(s, h) && Compact(s, h, f0, a0)
    ensures Compact(Step(s, e), Track(h, s, e), f0, a0)
  {
    hide Inv, Compact, Add, AddExtents, AddEnabled, DataLanded, MetaLanded, Looked, UpdateCache, Unpinned, CanLookup;
    if !Enabled(s, e) {
    } else if e.AddGrain? {
      AddCompact(s, h, e.id, e.sector, e.words, f0, a0);
    } else {
      if e.DataWriteDone? {
        var s1 := Moved(Enqueued(s, e.id));
        StartSize(s1, 0);
      }
      SameCompact(s, h, Step(s, e), Track(h, s, e), f0, a0);
    }
  }

  /** Over every run the free sector moves by exactly the leaf blocks and grains handed out, and the file is
      extended by whole increments, only when the free sector passes its end. */
  lemma {:induction false} RunCompact(s: State, h: History, events: seq<Event>)
    requires Inv(s, h)
    ensures Compact(Run(s, events), RunHistory(h, s, events), s.freeSector, s.allocSectors)
    decreases |events|
  {
    hide Step, Track, RootsOk, LeavesOk, FinishedOk, CacheOk, MirrorOk, PinsOk, CmdsOk, ApartOk, QueueOk, ContentOk, ExtentsOk;
    if events != [] {
      hide Inv, Compact;
      var front := events[..|events| - 1];
      RunCompact(s, h, front);
      RunInv(s, h, front);
      StepCompact(Run(s, front), RunHistory(h, s, front), events[|events| - 1], s.freeSector, s.allocSectors);
    }
  }
}
