/** What of the invariant a disk write elsewhere, or a larger allocation, leaves alone. */
module CowFrame {
  import opened CowDisk
  import opened CowState
  import opened CowCommands
  import opened CowCache
  import opened CowInvariant

  /** The images agree on the root table and on every run handed out but the one at x; no word is lost. */
  ghost predicate Keeps(d: Disk, d': Disk, rootOffset: int, roots: int, ext: map<int, Use>, granularity: int, x: int)
  {
    && (forall a: int :: a in d ==> a in d')
    && Same(d, d', rootOffset, roots)
    && KeepsRuns(d, d', ext, granularity, x)
  }

  ghost predicate KeepsRuns(d: Disk, d': Disk, ext: map<int, Use>, granularity: int, x: int)
  {
    forall a :: a in ext && a != x ==> Same(d, d', a, SECTOR_WORDS * Len(ext[a], granularity))
  }

  /** The allocation only grows: root entries already set stay, runs keep their use, finished grains stay. */
  ghost predicate Grown(roots: seq<int>, roots': seq<int>, ext: map<int, Use>, ext': map<int, Use>, finished: set<int>, finished': set<int>)
  {
    && |roots'| == |roots| && (forall i :: 0 <= i < |roots| && roots[i] != 0 ==> roots'[i] == roots[i])
    && (forall a :: a in ext ==> a in ext' && ext'[a] == ext[a])
    && finished <= finished'
  }

  lemma GrownSame(roots: seq<int>, ext: map<int, Use>, finished: set<int>)
    ensures Grown(roots, roots, ext, ext, finished, finished)
  {
  }

  lemma RunClear(ext: map<int, Use>, rootOffset: int, roots: int, free: int, granularity: int, a: int, x: int, n: int)
    requires ExtentsOk(ext, rootOffset, roots, free, granularity) && a in ext && x in ext && a != x
    requires n <= SECTOR_WORDS * Len(ext[x], granularity)
    ensures Clear(x, n, a, SECTOR_WORDS * Len(ext[a], granularity))
    ensures Clear(x, n, rootOffset, roots)
  {
  }

  /** A write inside one run leaves the others alone. */
  lemma InsideKeeps(d: Disk, d': Disk, ext: map<int, Use>, rootOffset: int, roots: int, free: int, granularity: int, x: int, n: int)
    requires ExtentsOk(ext, rootOffset, roots, free, granularity) && x in ext
    requires 0 <= n <= SECTOR_WORDS * Len(ext[x], granularity) && Within(d, d', x, n) && forall a: int :: a in d ==> a in d'
    ensures Keeps(d, d', rootOffset, roots, ext, granularity, x)
  {
    hide ExtentsOk, Within, Same, Len, Clear;
    forall a | a in ext && a != x ensures Same(d, d', a, SECTOR_WORDS * Len(ext[a], granularity)) {
      RunClear(ext, rootOffset, roots, free, granularity, a, x, n);
      WithinSame(d, d', x, n, a, SECTOR_WORDS * Len(ext[a], granularity));
    }
    assert Clear(x, n, rootOffset, roots) by { TableClear(ext, rootOffset, roots, free, granularity, x, n); }
    WithinSame(d, d', x, n, rootOffset, roots);
  }

  lemma TableClear(ext: map<int, Use>, rootOffset: int, roots: int, free: int, granularity: int, x: int, n: int)
    requires ExtentsOk(ext, rootOffset, roots, free, granularity) && x in ext
    ensures Clear(x, n, rootOffset, roots)
  {
  }

  /** A write to sectors not handed out leaves everything alone. */
  lemma FreshKeeps(d: Disk, d': Disk, ext: map<int, Use>, rootOffset: int, roots: int, free: int, granularity: int, n: int)
    requires ExtentsOk(ext, rootOffset, roots, free, granularity)
    requires 0 <= n && Within(d, d', free, n) && forall a: int :: a in d ==> a in d'
    ensures Keeps(d, d', rootOffset, roots, ext, granularity, 0)
  {
    hide Within, Same;
    forall a | a in ext ensures Same(d, d', a, SECTOR_WORDS * Len(ext[a], granularity)) {
      WithinSame(d, d', free, n, a, SECTOR_WORDS * Len(ext[a], granularity));
    }
    WithinSame(d, d', free, n, rootOffset, roots);
  }

  /** A write of the root table leaves every run alone. */
  lemma TableKeeps(d: Disk, d': Disk, ext: map<int, Use>, rootOffset: int, roots: int, free: int, granularity: int)
    requires ExtentsOk(ext, rootOffset, roots, free, granularity)
    requires Within(d, d', rootOffset, roots)
    ensures KeepsRuns(d, d', ext, granularity, 0)
  {
    hide Within, Same;
    forall a | a in ext ensures Same(d, d', a, SECTOR_WORDS * Len(ext[a], granularity)) {
      WithinSame(d, d', rootOffset, roots, a, SECTOR_WORDS * Len(ext[a], granularity));
    }
  }

  // ----- the parts of the invariant

  lemma LeafSame(d: Disk, d': Disk, rootOffset: int, roots: seq<int>, ext: map<int, Use>, granularity: int, x: int, i: int, p: int)
    requires RootsOk(d, rootOffset, roots, ext) && KeepsRuns(d, d', ext, granularity, x)
    requires 0 <= i < |roots| && roots[i] != 0 && roots[i] != x && 0 <= p < LEAF_ENTRIES
    ensures At(d', roots[i], p) == At(d, roots[i], p) && Has(d', roots[i], p)
  {
    hide At, Has;
    assert Has(d, roots[i], p);
    assert Same(d, d', roots[i], SECTOR_WORDS * Len(ext[roots[i]], granularity));
  }

  lemma RootsKept(d: Disk, d': Disk, rootOffset: int, roots: seq<int>, ext: map<int, Use>, granularity: int, x: int)
    requires RootsOk(d, rootOffset, roots, ext) && Keeps(d, d', rootOffset, |roots|, ext, granularity, x)
    ensures RootsOk(d', rootOffset, roots, ext)
  {
    hide At, Has;
    forall i | 0 <= i < |roots|
      ensures At(d', rootOffset, i) == roots[i] && (roots[i] != 0 ==> Filled(d', roots[i], LEAF_ENTRIES))
    {
      if roots[i] != 0 {
        FilledKept(d, d', roots[i], LEAF_ENTRIES);
      }
    }
  }

  lemma FilledKept(d: Disk, d': Disk, sector: int, n: int)
    requires Filled(d, sector, n) && forall a: int :: a in d ==> a in d'
    ensures Filled(d', sector, n)
  {
    forall i | 0 <= i < n ensures Has(d', sector, i) {
      assert Has(d, sector, i);
    }
  }

  lemma LeavesKept(d: Disk, d': Disk, rootOffset: int, roots: seq<int>, ext: map<int, Use>, finished: set<int>, granularity: int, x: int)
    requires RootsOk(d, rootOffset, roots, ext) && KeepsRuns(d, d', ext, granularity, x)
    requires x in ext ==> ext[x].GrainOf?
    requires LeavesOk(d, roots, ext, finished)
    ensures LeavesOk(d', roots, ext, finished)
  {
    hide At, Has, EntryOk, KeepsRuns;
    forall i, p | 0 <= i < |roots| && roots[i] != 0 && 0 <= p < LEAF_ENTRIES
      ensures EntryOk(At(d', roots[i], p), Grain(i, p), ext, finished)
    {
      LeafSame(d, d', rootOffset, roots, ext, granularity, x, i, p);
      assert EntryOk(At(d, roots[i], p), Grain(i, p), ext, finished);
    }
  }

  lemma LeavesGrown(d: Disk, roots: seq<int>, roots': seq<int>, ext: map<int, Use>, ext': map<int, Use>, finished: set<int>, finished': set<int>)
    requires Grown(roots, roots', ext, ext', finished, finished') && LeavesOk(d, roots, ext, finished) && roots' == roots
    ensures LeavesOk(d, roots', ext', finished')
  {
    hide At;
  }

  lemma FinishedKept(d: Disk, d': Disk, ext: map<int, Use>, ext': map<int, Use>, finished: set<int>, granularity: int)
    requires FinishedOk(d, ext, finished, granularity) && forall a: int :: a in d ==> a in d'
    requires forall a :: a in ext ==> a in ext' && ext'[a] == ext[a]
    ensures FinishedOk(d', ext', finished, granularity)
  {
    forall a | a in finished ensures Filled(d', a, SECTOR_WORDS * granularity) {
      FilledKept(d, d', a, SECTOR_WORDS * granularity);
    }
  }

  lemma IsRootAt(sector: int, d: Disk, rootOffset: int, roots: seq<int>, ext: map<int, Use>) returns (i: int)
    requires IsRoot(sector, roots) && RootsOk(d, rootOffset, roots, ext)
    ensures 0 <= i < |roots| && roots[i] == sector && sector in ext && ext[sector] == LeafOf(i) && sector != 0
  {
    i :| 0 <= i < |roots| && roots[i] == sector;
  }

  lemma MirrorKept(cache: seq<Pair>, d: Disk, d': Disk, us: set<Update>, rootOffset: int, roots: seq<int>, ext: map<int, Use>, granularity: int, x: int)
    requires RootsOk(d, rootOffset, roots, ext) && KeepsRuns(d, d', ext, granularity, x)
    requires x in ext ==> ext[x].GrainOf?
    requires CacheOk(cache, roots) && MirrorOk(cache, d, us)
    ensures MirrorOk(cache, d', us)
  {
    hide At, Has, KeepsRuns, RootsOk, Targets, Shows, Distinct, IsRoot;
    forall c, p | 0 <= c < |cache| && cache[c].sectorOffset != NULL_SECTOR && 0 <= p < |cache[c].leaf|
      ensures At(d', cache[c].sectorOffset, p) == At(d, cache[c].sectorOffset, p)
    {
      var i := IsRootAt(cache[c].sectorOffset, d, rootOffset, roots, ext);
      LeafSame(d, d', rootOffset, roots, ext, granularity, x, i, p);
    }
  }

  lemma UpdateKept(u: Update, io: IOState, cache: seq<Pair>, cache': seq<Pair>, d: Disk, d': Disk, rootOffset: int, roots: seq<int>, roots': seq<int>, ext: map<int, Use>, ext': map<int, Use>, finished: set<int>, finished': set<int>, granularity: int, x: int)
    requires RootsOk(d, rootOffset, roots, ext) && KeepsRuns(d, d', ext, granularity, x)
    requires Grown(roots, roots', ext, ext', finished, finished')
    requires x in ext ==> ext[x].GrainOf?
    requires UpdateOk(u, io, cache, roots, ext, d, finished)
    requires |cache'| == |cache| && cache'[u.slot].sectorOffset == cache[u.slot].sectorOffset
    ensures UpdateOk(u, io, cache', roots', ext', d', finished')
  {
    hide At, Has, KeepsRuns;
    LeafSame(d, d', rootOffset, roots, ext, granularity, x, u.grain.root, u.grain.pos);
  }

  lemma WriteKept(w: GrainWrite, io: IOState, us: set<Update>, d: Disk, d': Disk, rootOffset: int, roots: seq<int>, roots': seq<int>, ext: map<int, Use>, ext': map<int, Use>, finished: set<int>, finished': set<int>, granularity: int, x: int)
    requires RootsOk(d, rootOffset, roots, ext) && KeepsRuns(d, d', ext, granularity, x)
    requires Grown(roots, roots', ext, ext', finished, finished')
    requires x in ext ==> ext[x].GrainOf?
    requires WriteOk(w, io, us, granularity, roots, ext, d) && (Queued(io) ==> w.at != x)
    ensures WriteOk(w, io, us, granularity, roots', ext', d')
  {
    hide At, Has, KeepsRuns;
    LeafSame(d, d', rootOffset, roots, ext, granularity, x, w.grain.root, w.grain.pos);
    if Queued(io) {
      LandedKept(w, d, d', ext, granularity, x);
    }
  }

  lemma LandedKept(w: GrainWrite, d: Disk, d': Disk, ext: map<int, Use>, granularity: int, x: int)
    requires KeepsRuns(d, d', ext, granularity, x) && w.at != x && w.at in ext && ext[w.at].GrainOf?
    requires |w.words| == SECTOR_WORDS * granularity && Landed(d, w.at, w.words)
    ensures Landed(d', w.at, w.words)
  {
    hide At, Has;
    assert Same(d, d', w.at, SECTOR_WORDS * granularity);
  }

  /** A command's own facts survive a change of the rest. */
  lemma CmdKept(cmd: Command, cache: seq<Pair>, cache': seq<Pair>, d: Disk, d': Disk, rootOffset: int, roots: seq<int>, roots': seq<int>, ext: map<int, Use>, ext': map<int, Use>, finished: set<int>, finished': set<int>, granularity: int, x: int)
    requires granularity > 0 && RootsOk(d, rootOffset, roots, ext) && KeepsRuns(d, d', ext, granularity, x)
    requires Grown(roots, roots', ext, ext', finished, finished')
    requires x in ext ==> ext[x].GrainOf?
    requires CmdOk(cmd, granularity, cache, roots, ext, d, finished)
    requires Queued(cmd.ioState) ==> forall w :: w in cmd.writes ==> w.at != x
    requires |cache'| == |cache| && forall c :: c in Pins(cmd.metaData) && 0 <= c < |cache| ==> cache'[c].sectorOffset == cache[c].sectorOffset
    ensures CmdOk(cmd, granularity, cache', roots', ext', d', finished')
  {
    hide UpdateOk, WriteOk, RootsOk, KeepsRuns, Grown, NodesOk, Updates, Pins, WriteAt;
    var us := Updates(cmd.metaData, granularity);
    UpdatePinned(cmd.metaData, granularity);
    forall u | u in us ensures UpdateOk(u, cmd.ioState, cache', roots', ext', d', finished') {
      assert 0 <= u.slot < |cache| by { UpdateSlot(u, cmd.ioState, cache, roots, ext, d, finished); }
      UpdateKept(u, cmd.ioState, cache, cache', d, d', rootOffset, roots, roots', ext, ext', finished, finished', granularity, x);
    }
    forall w | w in cmd.writes ensures WriteOk(w, cmd.ioState, us, granularity, roots', ext', d') {
      WriteKept(w, cmd.ioState, us, d, d', rootOffset, roots, roots', ext, ext', finished, finished', granularity, x);
    }
  }

  lemma UpdateSlot(u: Update, io: IOState, cache: seq<Pair>, roots: seq<int>, ext: map<int, Use>, d: Disk, finished: set<int>)
    requires UpdateOk(u, io, cache, roots, ext, d, finished)
    ensures 0 <= u.slot < |cache|
  {
  }

  lemma ResolveKept(d: Disk, d': Disk, rootOffset: int, roots: seq<int>, ext: map<int, Use>, finished: set<int>, granularity: int, x: int, g: Grain)
    requires granularity > 0 && RootsOk(d, rootOffset, roots, ext) && LeavesOk(d, roots, ext, finished) && IsGrain(g, |roots|)
    requires KeepsRuns(d, d', ext, granularity, x) && At(d', rootOffset, g.root) == roots[g.root]
    requires x in ext ==> ext[x].GrainOf? && ext[x].grain != g
    ensures Resolve(d', rootOffset, granularity, g) == Resolve(d, rootOffset, granularity, g)
  {
    hide At, Has, KeepsRuns, Words;
    var r := roots[g.root];
    if r != 0 {
      LeafSame(d, d', rootOffset, roots, ext, granularity, x, g.root, g.pos);
      var e := At(d, r, g.pos);
      assert EntryOk(e, Grain(g.root, g.pos), ext, finished);
      if e != 0 {
        RunSame(d, d', ext, granularity, x, e);
        SameWords(d, d', e, SECTOR_WORDS * granularity);
      }
    }
  }

  lemma RunSame(d: Disk, d': Disk, ext: map<int, Use>, granularity: int, x: int, e: int)
    requires KeepsRuns(d, d', ext, granularity, x) && e in ext && e != x
    ensures Same(d, d', e, SECTOR_WORDS * Len(ext[e], granularity))
  {
  }
}
