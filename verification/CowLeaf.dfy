/** Bringing a leaf block into the cache, read from disk or made afresh, keeps the invariant. */
module CowLeaf {
  import opened CowDisk
  import opened CowState
  import opened CowCommands
  import opened CowCache
  import opened CowInvariant
  import opened CowFrame

  lemma PinnedPositive(cache: seq<Pair>, cmds: map<int, Command>, id: int, c: int)
    requires PinsOk(cache, cmds) && id in cmds && 0 <= c < |cache| && c in Pins(cmds[id].metaData)
    ensures cache[c].numWrites > 0
  {
    hide Pins;
    assert id in PinSet(cmds, c);
  }

  lemma LookedPins(cache: seq<Pair>, time: nat, d: Disk, sector: int, read: bool, cmds: map<int, Command>)
    requires CanLookup(cache, sector) && PinsOk(cache, cmds)
    ensures PinsOk(Looked(cache, time, d, sector, read), cmds)
  {
    hide Looked, CanLookup, SlotFor, PinSet;
    LookedIs(cache, time, d, sector, read);
    var c' := Looked(cache, time, d, sector, read);
    forall c | 0 <= c < |c'| ensures c'[c].numWrites == |PinSet(cmds, c)| {
      assert cache[c].numWrites == |PinSet(cmds, c)|;
    }
  }

  /** The cache after a lookup, with the contents of the slot looked up replaced or not. */
  ghost predicate Fetched(cache: seq<Pair>, cache': seq<Pair>, sector: int, slot: int)
  {
    && 0 <= slot < |cache| && |cache'| == |cache| && cache'[slot].sectorOffset == sector
    && (forall c :: 0 <= c < |cache| && c != slot ==> cache'[c] == cache[c])
    && (forall c :: 0 <= c < |cache| && cache[c].numWrites > 0 ==> cache'[c].sectorOffset == cache[c].sectorOffset && cache'[c].leaf == cache[c].leaf)
    && (cache[slot].sectorOffset == sector ==> cache'[slot].leaf == cache[slot].leaf)
    && (cache[slot].sectorOffset != sector ==> forall c :: 0 <= c < |cache| ==> cache[c].sectorOffset != sector)
  }

  lemma LookedFetched(cache: seq<Pair>, time: nat, d: Disk, sector: int, read: bool)
    requires CanLookup(cache, sector)
    ensures Fetched(cache, Looked(cache, time, d, sector, read), sector, SlotFor(cache, sector))
  {
    hide Looked, CanLookup, SlotFor;
    LookedIs(cache, time, d, sector, read);
  }

  lemma FetchedCache(cache: seq<Pair>, cache': seq<Pair>, sector: int, slot: int, roots: seq<int>, roots': seq<int>)
    requires Fetched(cache, cache', sector, slot) && CacheOk(cache, roots) && IsRoot(sector, roots') && |cache'[slot].leaf| == LEAF_ENTRIES
    requires forall i :: 0 <= i < |roots'| ==> roots'[i] < NULL_SECTOR
    requires forall a :: IsRoot(a, roots) ==> IsRoot(a, roots')
    ensures CacheOk(cache', roots')
  {
    hide IsRoot;
    forall i, j | 0 <= i < j < |cache'| && cache'[i].sectorOffset != NULL_SECTOR
      ensures cache'[i].sectorOffset != cache'[j].sectorOffset
    {
      assert cache[i].sectorOffset != NULL_SECTOR ==> cache[i].sectorOffset != cache[j].sectorOffset;
    }
  }

  lemma FetchedCmds(s: State, cache': seq<Pair>, sector: int, slot: int, d': Disk, roots': seq<int>, ext: map<int, Use>, ext': map<int, Use>, finished: set<int>)
    requires s.granularity > 0 && RootsOk(s.disk, s.rootOffset, s.rootEntries, ext)
    requires KeepsRuns(s.disk, d', ext, s.granularity, 0) && 0 !in ext
    requires Grown(s.rootEntries, roots', ext, ext', finished, finished)
    requires Fetched(s.cache, cache', sector, slot) && PinsOk(s.cache, s.cmds)
    requires CmdsOk(s.cmds, s.granularity, s.cache, s.rootEntries, ext, s.disk, finished)
    ensures CmdsOk(s.cmds, s.granularity, cache', roots', ext', d', finished)
  {
    hide RootsOk, KeepsRuns, Grown, CmdOk, PinsOk, Pins;
    forall id | id in s.cmds ensures CmdOk(s.cmds[id], s.granularity, cache', roots', ext', d', finished) {
      var cmd := s.cmds[id];
      forall c | c in Pins(cmd.metaData) && 0 <= c < |s.cache| ensures cache'[c].sectorOffset == s.cache[c].sectorOffset {
        PinnedPositive(s.cache, s.cmds, id, c);
      }
      assert CmdOk(cmd, s.granularity, s.cache, s.rootEntries, ext, s.disk, finished);
      WritesNotNull(cmd, s.granularity, s.cache, s.rootEntries, ext, s.disk, finished);
      CmdKept(cmd, s.cache, cache', s.disk, d', s.rootOffset, s.rootEntries, roots', ext, ext', finished, finished, s.granularity, 0);
    }
  }

  lemma WritesNotNull(cmd: Command, granularity: int, cache: seq<Pair>, roots: seq<int>, ext: map<int, Use>, d: Disk, finished: set<int>)
    requires granularity > 0 && CmdOk(cmd, granularity, cache, roots, ext, d, finished)
    ensures forall w :: w in cmd.writes ==> w.at in ext
  {
    hide Updates, At, UpdateOk, Landed;
    forall w | w in cmd.writes ensures w.at in ext {
      assert WriteOk(w, cmd.ioState, Updates(cmd.metaData, granularity), granularity, roots, ext, d);
    }
  }

  /** The updates in progress concern pinned slots. */
  lemma ProgPinned(s: State, u: Update)
    requires s.granularity > 0 && PinsOk(s.cache, s.cmds) && u in ProgUpdates(s.active, s.cmds, s.granularity) && 0 <= u.slot < |s.cache|
    ensures s.cache[u.slot].numWrites > 0
  {
    hide PinsOk, Pins, Updates;
    UpdatePinned(s.cmds[s.active[0]].metaData, s.granularity);
    PinnedPositive(s.cache, s.cmds, s.active[0], u.slot);
  }

  lemma ProgShown(s: State, cache': seq<Pair>, sector: int, slot: int)
    requires s.granularity > 0 && PinsOk(s.cache, s.cmds) && Fetched(s.cache, cache', sector, slot)
    requires forall u :: u in ProgUpdates(s.active, s.cmds, s.granularity) ==> Shows(s.cache, u)
    ensures forall u :: u in ProgUpdates(s.active, s.cmds, s.granularity) ==> Shows(cache', u)
  {
    hide PinsOk, ProgUpdates;
    forall u | u in ProgUpdates(s.active, s.cmds, s.granularity) ensures Shows(cache', u) {
      assert Shows(s.cache, u);
      ProgPinned(s, u);
    }
  }

  // ----- a leaf block read from disk

  lemma OldLeafMirror(s: State, sector: int)
    requires s.granularity > 0 && CanLookup(s.cache, sector) && PinsOk(s.cache, s.cmds)
    requires MirrorOk(s.cache, s.disk, ProgUpdates(s.active, s.cmds, s.granularity))
    requires forall c :: 0 <= c < |s.cache| ==> |s.cache[c].leaf| == LEAF_ENTRIES
    ensures var cache' := Looked(s.cache, s.cacheTime + 1, s.disk, sector, true);
      && MirrorOk(cache', s.disk, ProgUpdates(s.active, s.cmds, s.granularity))
      && |cache'[SlotFor(s.cache, sector)].leaf| == LEAF_ENTRIES
  {
    hide PinsOk, ProgUpdates, Looked, CanLookup, SlotFor, Shows, Targets, At;
    var cache' := Looked(s.cache, s.cacheTime + 1, s.disk, sector, true);
    LookedIs(s.cache, s.cacheTime + 1, s.disk, sector, true);
    LookedFetched(s.cache, s.cacheTime + 1, s.disk, sector, true);
    ProgShown(s, cache', sector, SlotFor(s.cache, sector));
  }

  lemma OldLeafInv(s: State, h: History, sector: int)
    requires Inv(s, h) && CanLookup(s.cache, sector) && IsRoot(sector, s.rootEntries)
    ensures Inv(OldLeaf(s, sector), h)
    ensures OldLeaf(s, sector).cache[SlotFor(s.cache, sector)].sectorOffset == sector
  {
    hide RootsOk, LeavesOk, FinishedOk, CacheOk, MirrorOk, PinsOk, CmdsOk, ApartOk, QueueOk, ContentOk;
    hide Looked, CanLookup, SlotFor, ProgUpdates, IsRoot, Fetched, Grown, KeepsRuns;
    var slot := SlotFor(s.cache, sector);
    var cache' := Looked(s.cache, s.cacheTime + 1, s.disk, sector, true);
    LookedFetched(s.cache, s.cacheTime + 1, s.disk, sector, true);
    LookedIs(s.cache, s.cacheTime + 1, s.disk, sector, true);
    LookedPins(s.cache, s.cacheTime + 1, s.disk, sector, true, s.cmds);
    CacheSizes(s.cache, s.rootEntries);
    OldLeafMirror(s, sector);
    FetchedCache(s.cache, cache', sector, slot, s.rootEntries, s.rootEntries);
    GrownSame(s.rootEntries, h.extents, h.finished);
    SameRuns(s.disk, h.extents, s.granularity);
    FetchedCmds(s, cache', sector, slot, s.disk, s.rootEntries, h.extents, h.extents, h.finished);
  }

  lemma SameRuns(d: Disk, ext: map<int, Use>, granularity: int)
    ensures KeepsRuns(d, d, ext, granularity, 0)
  {
  }

  lemma CacheSizes(cache: seq<Pair>, roots: seq<int>)
    requires CacheOk(cache, roots)
    ensures |cache| == CACHE_ENTRIES
    ensures forall c :: 0 <= c < |cache| ==> |cache[c].leaf| == LEAF_ENTRIES
    ensures forall i :: 0 <= i < |roots| ==> roots[i] < NULL_SECTOR
  {
  }

  // ----- a new leaf block

  function NewDisk(d: Disk, sector: int, rootOffset: int, roots: seq<int>): Disk
  {
    PutBlock(PutBlock(d, sector, Zeros(LEAF_ENTRIES)), rootOffset, roots)
  }

  ghost predicate ZeroLeaf(d: Disk, sector: int)
  {
    forall p :: 0 <= p < LEAF_ENTRIES ==> At(d, sector, p) == 0 && Has(d, sector, p)
  }

  /** The zeroed block, the new root table, and nothing else touched. */
  lemma NewDiskIs(d: Disk, ext: map<int, Use>, free: int, rootOffset: int, roots: seq<int>, granularity: int)
    requires ExtentsOk(ext, rootOffset, |roots|, free, granularity)
    ensures var d1 := PutBlock(d, free, Zeros(LEAF_ENTRIES));
      Keeps(d, d1, rootOffset, |roots|, ext, granularity, 0) && Within(d, d1, free, LEAF_ENTRIES) && ZeroLeaf(d1, free)
    ensures var d2 := NewDisk(d, free, rootOffset, roots);
      && KeepsRuns(d, d2, ext, granularity, 0)
      && (forall i :: 0 <= i < |roots| ==> At(d2, rootOffset, i) == roots[i])
      && ZeroLeaf(d2, free)
      && (forall a: int :: a in d ==> a in d2)
  {
    hide Within, PutBlock, At, Has, Zeros, Clear;
    var d1 := PutBlock(d, free, Zeros(LEAF_ENTRIES));
    var d2 := PutBlock(d1, rootOffset, roots);
    assert |Zeros(LEAF_ENTRIES)| == LEAF_ENTRIES && forall p :: 0 <= p < LEAF_ENTRIES ==> Zeros(LEAF_ENTRIES)[p] == 0 by { ZerosAre(LEAF_ENTRIES); }
    PutBlockAt(d, free, Zeros(LEAF_ENTRIES));
    PutBlockAt(d1, rootOffset, roots);
    PutBlockMore(d, free, Zeros(LEAF_ENTRIES));
    PutBlockMore(d1, rootOffset, roots);
    FreshKeeps(d, d1, ext, rootOffset, |roots|, free, granularity, LEAF_ENTRIES);
    TableKeeps(d1, d2, ext, rootOffset, |roots|, free, granularity);
    RunsTwice(d, d1, d2, ext, granularity);
    assert Clear(rootOffset, |roots|, free, LEAF_ENTRIES) by { FreeClear(rootOffset, |roots|, free); }
    WithinSame(d1, d2, rootOffset, |roots|, free, LEAF_ENTRIES);
  }

  lemma FreeClear(rootOffset: int, roots: int, free: int)
    requires SECTOR_WORDS * rootOffset + roots <= SECTOR_WORDS * free
    ensures Clear(rootOffset, roots, free, LEAF_ENTRIES)
  {
  }

  lemma ZerosAre(n: nat)
    ensures |Zeros(n)| == n && forall p :: 0 <= p < n ==> Zeros(n)[p] == 0
  {
  }

  lemma PutBlockMore(d: Disk, s: int, words: seq<int>)
    ensures forall a: int :: a in d ==> a in PutBlock(d, s, words)
  {
  }

  lemma RunsTwice(d: Disk, d1: Disk, d2: Disk, ext: map<int, Use>, granularity: int)
    requires KeepsRuns(d, d1, ext, granularity, 0) && KeepsRuns(d1, d2, ext, granularity, 0)
    ensures KeepsRuns(d, d2, ext, granularity, 0)
  {
    hide Len;
    forall a | a in ext && a != 0 ensures Same(d, d2, a, SECTOR_WORDS * Len(ext[a], granularity)) {
      var n := SECTOR_WORDS * Len(ext[a], granularity);
      assert Same(d, d1, a, n) && Same(d1, d2, a, n);
    }
  }

  lemma FreshExtent(ext: map<int, Use>, rootOffset: int, roots: int, free: int, granularity: int, u: Use)
    requires ExtentsOk(ext, rootOffset, roots, free, granularity)
    requires u.GrainOf? ==> IsGrain(u.grain, roots)
    ensures free !in ext
    ensures ExtentsOk(ext[free := u], rootOffset, roots, free + Len(u, granularity), granularity)
  {
  }

  lemma NewRoots(s: State, h: History, root: int)
    requires 0 <= root < |s.rootEntries| && s.rootEntries[root] == 0
    requires ExtentsOk(h.extents, s.rootOffset, |s.rootEntries|, s.freeSector, s.granularity)
    requires RootsOk(s.disk, s.rootOffset, s.rootEntries, h.extents)
    requires LeavesOk(s.disk, s.rootEntries, h.extents, h.finished)
    ensures var roots := s.rootEntries[root := s.freeSector]; var d2 := NewDisk(s.disk, s.freeSector, s.rootOffset, roots);
      var ext := h.extents[s.freeSector := LeafOf(root)];
      RootsOk(d2, s.rootOffset, roots, ext) && LeavesOk(d2, roots, ext, h.finished)
      && Grown(s.rootEntries, roots, h.extents, ext, h.finished, h.finished)
  {
    hide At, Has, NewDisk, KeepsRuns, ExtentsOk;
    var a := s.freeSector;
    var roots := s.rootEntries[root := a];
    var d2 := NewDisk(s.disk, a, s.rootOffset, roots);
    var ext := h.extents[a := LeafOf(root)];
    FreshExtent(h.extents, s.rootOffset, |s.rootEntries|, a, s.granularity, LeafOf(root));
    FreeIs(h.extents, s.rootOffset, |s.rootEntries|, a, s.granularity);
    NewDiskIs(s.disk, h.extents, a, s.rootOffset, roots, s.granularity);
    forall i | 0 <= i < |roots| && i != root && roots[i] != 0 ensures Filled(d2, roots[i], LEAF_ENTRIES) {
      FilledKept(s.disk, d2, roots[i], LEAF_ENTRIES);
    }
    assert Filled(d2, a, LEAF_ENTRIES);
    forall i, p | 0 <= i < |roots| && roots[i] != 0 && 0 <= p < LEAF_ENTRIES
      ensures EntryOk(At(d2, roots[i], p), Grain(i, p), ext, h.finished)
    {
      if i == root {
        assert At(d2, a, p) == 0;
      } else {
        LeafSame(s.disk, d2, s.rootOffset, s.rootEntries, h.extents, s.granularity, 0, i, p);
        assert EntryOk(At(s.disk, s.rootEntries[i], p), Grain(i, p), h.extents, h.finished);
      }
    }
  }

  lemma FreeIs(ext: map<int, Use>, rootOffset: int, roots: int, free: int, granularity: int)
    requires ExtentsOk(ext, rootOffset, roots, free, granularity)
    ensures free > 0 && 0 !in ext && granularity > 0
  {
  }

  lemma NewContent(s: State, h: History, root: int, d2: Disk)
    requires 0 <= root < |s.rootEntries| && s.rootEntries[root] == 0 && s.granularity > 0
    requires ExtentsOk(h.extents, s.rootOffset, |s.rootEntries|, s.freeSector, s.granularity)
    requires RootsOk(s.disk, s.rootOffset, s.rootEntries, h.extents) && LeavesOk(s.disk, s.rootEntries, h.extents, h.finished)
    requires KeepsRuns(s.disk, d2, h.extents, s.granularity, 0) && ZeroLeaf(d2, s.freeSector)
    requires forall i :: 0 <= i < |s.rootEntries| ==> At(d2, s.rootOffset, i) == if i == root then s.freeSector else s.rootEntries[i]
    ensures forall g :: IsGrain(g, |s.rootEntries|) ==> Resolve(d2, s.rootOffset, s.granularity, g) == Resolve(s.disk, s.rootOffset, s.granularity, g)
  {
    hide At, Has, KeepsRuns, ExtentsOk, LeavesOk, Words;
    FreeIs(h.extents, s.rootOffset, |s.rootEntries|, s.freeSector, s.granularity);
    forall g | IsGrain(g, |s.rootEntries|)
      ensures Resolve(d2, s.rootOffset, s.granularity, g) == Resolve(s.disk, s.rootOffset, s.granularity, g)
    {
      if g.root == root {
        assert At(d2, s.freeSector, g.pos) == 0;
        assert At(s.disk, s.rootOffset, root) == 0;
      } else {
        hide Resolve;
        ResolveKept(s.disk, d2, s.rootOffset, s.rootEntries, h.extents, h.finished, s.granularity, 0, g);
      }
    }
  }

  lemma NewMirror(s: State, h: History, root: int, cache': seq<Pair>, slot: int, d2: Disk)
    requires s.granularity > 0 && 0 !in h.extents && RootsOk(s.disk, s.rootOffset, s.rootEntries, h.extents)
    requires KeepsRuns(s.disk, d2, h.extents, s.granularity, 0) && ZeroLeaf(d2, s.freeSector)
    requires PinsOk(s.cache, s.cmds) && CacheOk(s.cache, s.rootEntries)
    requires MirrorOk(s.cache, s.disk, ProgUpdates(s.active, s.cmds, s.granularity))
    requires Fetched(s.cache, cache', s.freeSector, slot) && cache'[slot].leaf == Zeros(LEAF_ENTRIES)
    ensures MirrorOk(cache', d2, ProgUpdates(s.active, s.cmds, s.granularity))
  {
    hide PinsOk, ProgUpdates, Shows, Targets, At, Has, KeepsRuns, RootsOk, IsRoot, Distinct;
    ZerosAre(LEAF_ENTRIES);
    MirrorKept(s.cache, s.disk, d2, ProgUpdates(s.active, s.cmds, s.granularity), s.rootOffset, s.rootEntries, h.extents, s.granularity, 0);
    ProgShown(s, cache', s.freeSector, slot);
  }

  lemma NewIsRoot(roots: seq<int>, root: int, sector: int, free: int)
    requires 0 <= root < |roots| && roots[root] == 0 && free > 0
    ensures IsRoot(free, roots[root := free])
    ensures forall a :: IsRoot(a, roots) ==> IsRoot(a, roots[root := free])
  {
    assert roots[root := free][root] == free;
    forall a | IsRoot(a, roots) ensures IsRoot(a, roots[root := free]) {
      var i :| 0 <= i < |roots| && roots[i] == a;
      assert roots[root := free][i] == a;
    }
  }

  lemma NotCached(s: State, h: History)
    requires ExtentsOk(h.extents, s.rootOffset, |s.rootEntries|, s.freeSector, s.granularity) && s.freeSector < NULL_SECTOR
    requires RootsOk(s.disk, s.rootOffset, s.rootEntries, h.extents) && CacheOk(s.cache, s.rootEntries)
    ensures forall c :: 0 <= c < |s.cache| ==> s.cache[c].sectorOffset != s.freeSector
  {
    hide Distinct, At;
    forall c | 0 <= c < |s.cache| ensures s.cache[c].sectorOffset != s.freeSector {
      if s.cache[c].sectorOffset != NULL_SECTOR {
        var i := IsRootAt(s.cache[c].sectorOffset, s.disk, s.rootOffset, s.rootEntries, h.extents);
      }
    }
  }

  /** The cache NewLeaf leaves: the slot fetched, and its contents zeroed. */
  lemma NewFetched(s: State, sector: int)
    requires CanLookup(s.cache, sector) && forall c :: 0 <= c < |s.cache| ==> s.cache[c].sectorOffset != sector
    ensures var c1 := Looked(s.cache, s.cacheTime + 1, s.disk, sector, false); var slot := SlotFor(s.cache, sector);
      slot < |c1| && Fetched(s.cache, c1[slot := c1[slot].(leaf := Zeros(LEAF_ENTRIES))], sector, slot)
    ensures s.cache[SlotFor(s.cache, sector)].numWrites <= 0
  {
    hide Looked, CanLookup, SlotFor, Zeros;
    LookedIs(s.cache, s.cacheTime + 1, s.disk, sector, false);
  }

  lemma ZeroedPins(cache: seq<Pair>, cmds: map<int, Command>, slot: int, leaf: seq<int>)
    requires PinsOk(cache, cmds) && 0 <= slot < |cache|
    ensures PinsOk(cache[slot := cache[slot].(leaf := leaf)], cmds)
  {
    hide PinSet;
  }

  lemma NewLeafInv(s: State, h: History, root: int)
    requires Inv(s, h) && 0 <= root < |s.rootEntries| && s.rootEntries[root] == 0
    requires CanLookup(s.cache, s.freeSector) && s.freeSector + LEAF_SECTORS < NULL_SECTOR
    ensures Inv(NewLeaf(s, root), h.(extents := h.extents[s.freeSector := LeafOf(root)]))
    ensures NewLeaf(s, root).cache[SlotFor(s.cache, s.freeSector)].sectorOffset == s.freeSector
  {
    hide RootsOk, LeavesOk, FinishedOk, CacheOk, MirrorOk, PinsOk, CmdsOk, ApartOk, QueueOk, ContentOk, ExtentsOk;
    hide Looked, CanLookup, SlotFor, ProgUpdates, IsRoot, Fetched, Grown, KeepsRuns, NewDisk, ZeroLeaf, Within, Zeros, PutBlock, At;
    var a := s.freeSector;
    var s' := NewLeaf(s, root);
    var ext' := h.extents[a := LeafOf(root)];
    var slot := SlotFor(s.cache, a);
    var c1 := Looked(s.cache, s.cacheTime + 1, s.disk, a, false);
    FreeIs(h.extents, s.rootOffset, |s.rootEntries|, a, s.granularity);
    FreshExtent(h.extents, s.rootOffset, |s.rootEntries|, a, s.granularity, LeafOf(root));
    NewRoots(s, h, root);
    NewDiskAt(s, h, root);
    var d2 := NewDisk(s.disk, a, s.rootOffset, s'.rootEntries);
    assert s'.disk == d2 by { NewLeafDisk(s, root); }
    NotCached(s, h);
    NewFetched(s, a);
    LookedPins(s.cache, s.cacheTime + 1, s.disk, a, false, s.cmds);
    ZeroedPins(c1, s.cmds, slot, Zeros(LEAF_ENTRIES));
    assert Fetched(s.cache, s'.cache, a, slot) && s'.cache[slot].leaf == Zeros(LEAF_ENTRIES) && s'.cache[slot].sectorOffset == a by {
      NewLeafSlot(s, root);
    }
    ZerosAre(LEAF_ENTRIES);
    NewIsRoot(s.rootEntries, root, a, a);
    CacheSizes(s.cache, s.rootEntries);
    FetchedCache(s.cache, s'.cache, a, slot, s.rootEntries, s'.rootEntries);
    NewMirror(s, h, root, s'.cache, slot, d2);
    FetchedCmds(s, s'.cache, a, slot, d2, s'.rootEntries, h.extents, ext', h.finished);
    FinishedKept(s.disk, d2, h.extents, ext', h.finished, s.granularity);
    NewContent(s, h, root, d2);
    assert ContentOk(d2, s.rootOffset, |s.rootEntries|, s.granularity, s.cmds, h.initial, h.completed) by {
      SameContent(s.disk, d2, s.rootOffset, |s.rootEntries|, s.granularity, s.cmds, h.initial, h.completed);
    }
  }

  lemma NewLeafSlot(s: State, root: int)
    requires 0 <= root < |s.rootEntries| && CanLookup(s.cache, s.freeSector)
    requires forall c :: 0 <= c < |s.cache| ==> s.cache[c].sectorOffset != s.freeSector
    ensures var slot := SlotFor(s.cache, s.freeSector); var cache' := NewLeaf(s, root).cache;
      Fetched(s.cache, cache', s.freeSector, slot) && cache'[slot].leaf == Zeros(LEAF_ENTRIES) && cache'[slot].sectorOffset == s.freeSector
  {
    hide CanLookup, SlotFor, Zeros, Looked, PutBlock;
    NewFetched(s, s.freeSector);
  }

  lemma NewLeafDisk(s: State, root: int)
    requires 0 <= root < |s.rootEntries| && CanLookup(s.cache, s.freeSector)
    ensures NewLeaf(s, root).disk == NewDisk(s.disk, s.freeSector, s.rootOffset, s.rootEntries[root := s.freeSector])
  {
    hide CanLookup, SlotFor, Zeros, Looked, PutBlock;
  }

  lemma NewDiskAt(s: State, h: History, root: int)
    requires 0 <= root < |s.rootEntries| && ExtentsOk(h.extents, s.rootOffset, |s.rootEntries|, s.freeSector, s.granularity)
    requires RootsOk(s.disk, s.rootOffset, s.rootEntries, h.extents)
    ensures var d2 := NewDisk(s.disk, s.freeSector, s.rootOffset, s.rootEntries[root := s.freeSector]);
      && KeepsRuns(s.disk, d2, h.extents, s.granularity, 0) && ZeroLeaf(d2, s.freeSector)
      && (forall i :: 0 <= i < |s.rootEntries| ==> At(d2, s.rootOffset, i) == if i == root then s.freeSector else s.rootEntries[i])
      && (forall a: int :: a in s.disk ==> a in d2)
  {
    hide At, Has, KeepsRuns, ExtentsOk, NewDisk, ZeroLeaf;
    NewDiskIs(s.disk, h.extents, s.freeSector, s.rootOffset, s.rootEntries[root := s.freeSector], s.granularity);
  }

  lemma SameContent(d: Disk, d': Disk, rootOffset: int, roots: int, granularity: int, cmds: map<int, Command>, initial: map<Grain, seq<int>>, completed: seq<seq<GrainWrite>>)
    requires ContentOk(d, rootOffset, roots, granularity, cmds, initial, completed)
    requires forall g :: IsGrain(g, roots) ==> Resolve(d', rootOffset, granularity, g) == Resolve(d, rootOffset, granularity, g)
    ensures ContentOk(d', rootOffset, roots, granularity, cmds, initial, completed)
  {
    hide Resolve, LastWrite, Busy;
  }
}
