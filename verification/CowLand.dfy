/** Words of data and metadata writes reaching the disk, in any order, keep the invariant. */
module CowLand {
  import opened CowDisk
  import opened CowState
  import opened CowCommands
  import opened CowCache
  import opened CowInvariant
  import opened CowFrame
  import opened CowLeaf
  import opened CowAdd

  // ----- data

  lemma WriteIs(s: State, h: History, id: int, w: GrainWrite)
    requires Inv(s, h) && id in s.cmds && w in s.cmds[id].writes
    ensures s.granularity > 0
    ensures IsGrain(w.grain, |s.rootEntries|) && s.rootEntries[w.grain.root] != 0 && |w.words| == SECTOR_WORDS * s.granularity
    ensures w.at in h.extents && h.extents[w.at] == GrainOf(w.grain) && w.at > 0
  {
    hide RootsOk, LeavesOk, FinishedOk, CacheOk, MirrorOk, PinsOk, ApartOk, QueueOk, ContentOk, Updates, NodesOk, At, Landed, HasUpdate, UpdateOk;
    assert CmdOk(s.cmds[id], s.granularity, s.cache, s.rootEntries, h.extents, s.disk, h.finished);
  }

  /** Writes of different grains go to different places. */
  lemma OtherPlace(s: State, h: History, id: int, w: GrainWrite, id': int, w': GrainWrite)
    requires Inv(s, h) && id in s.cmds && w in s.cmds[id].writes && id' in s.cmds && w' in s.cmds[id'].writes && id != id'
    ensures w.at != w'.at && w.grain != w'.grain
  {
    hide RootsOk, LeavesOk, FinishedOk, CacheOk, MirrorOk, PinsOk, QueueOk, ContentOk, CmdsOk, ExtentsOk;
    WriteIs(s, h, id, w);
    WriteIs(s, h, id', w');
    assert Writes(s.cmds[id], w.grain);
    assert Writes(s.cmds[id'], w'.grain);
  }

  lemma PutKeeps(s: State, h: History, x: int, i: int, v: int)
    requires ExtentsOk(h.extents, s.rootOffset, |s.rootEntries|, s.freeSector, s.granularity)
    requires x in h.extents && 0 <= i < SECTOR_WORDS * Len(h.extents[x], s.granularity)
    ensures Keeps(s.disk, PutWord(s.disk, x, i, v), s.rootOffset, |s.rootEntries|, h.extents, s.granularity, x)
  {
    hide ExtentsOk, Within, PutWord, Len, At, Has;
    var n := SECTOR_WORDS * Len(h.extents[x], s.granularity);
    PutWordAt(s.disk, x, i, v, n);
    PutWordMore(s.disk, x, i, v);
    InsideKeeps(s.disk, PutWord(s.disk, x, i, v), h.extents, s.rootOffset, |s.rootEntries|, s.freeSector, s.granularity, x, n);
  }

  lemma PutWordMore(d: Disk, s: int, i: int, v: int)
    ensures forall a: int :: a in d ==> a in PutWord(d, s, i, v)
  {
  }

  lemma LandDataInv(s: State, h: History, id: int, i: int, w: int)
    requires Inv(s, h) && Enabled(s, LandData(id, i, w))
    ensures Inv(Step(s, LandData(id, i, w)), h)
  {
    hide RootsOk, LeavesOk, FinishedOk, CacheOk, MirrorOk, PinsOk, QueueOk, ContentOk, ExtentsOk, ProgUpdates, ApartOk, CmdsOk, PutWord, Keeps;
    var s' := Step(s, LandData(id, i, w));
    var g := s.cmds[id].writes[i];
    WriteIs(s, h, id, g);
    PutKeeps(s, h, g.at, w, g.words[w]);
    assert KeepsRuns(s.disk, s'.disk, h.extents, s.granularity, g.at) && (forall a: int :: a in s.disk ==> a in s'.disk) by { KeepsIs(s, h, s'.disk, g.at); }
    RootsKept(s.disk, s'.disk, s.rootOffset, s.rootEntries, h.extents, s.granularity, g.at);
    LeavesKept(s.disk, s'.disk, s.rootOffset, s.rootEntries, h.extents, h.finished, s.granularity, g.at);
    FinishedKept(s.disk, s'.disk, h.extents, h.extents, h.finished, s.granularity);
    MirrorKept(s.cache, s.disk, s'.disk, ProgUpdates(s.active, s.cmds, s.granularity), s.rootOffset, s.rootEntries, h.extents, s.granularity, g.at);
    LandCmds(s, h, id, g, s'.disk);
    LandContent(s, h, id, g, s'.disk);
  }

  lemma KeepsIs(s: State, h: History, d': Disk, x: int)
    requires Keeps(s.disk, d', s.rootOffset, |s.rootEntries|, h.extents, s.granularity, x)
    ensures KeepsRuns(s.disk, d', h.extents, s.granularity, x) && forall a: int :: a in s.disk ==> a in d'
    ensures Same(s.disk, d', s.rootOffset, |s.rootEntries|)
  {
  }

  lemma LandCmds(s: State, h: History, id: int, g: GrainWrite, d': Disk)
    requires Inv(s, h) && InState(s, id, DataWriteProg) && g in s.cmds[id].writes
    requires KeepsRuns(s.disk, d', h.extents, s.granularity, g.at)
    ensures s.granularity > 0 && CmdsOk(s.cmds, s.granularity, s.cache, s.rootEntries, h.extents, d', h.finished)
  {
    hide LeavesOk, FinishedOk, CacheOk, MirrorOk, PinsOk, QueueOk, ContentOk, ExtentsOk, ProgUpdates, ApartOk, CmdOk, KeepsRuns, RootsOk, Grown, Pins;
    WriteIs(s, h, id, g);
    GrownSame(s.rootEntries, h.extents, h.finished);
    forall x | x in s.cmds ensures CmdOk(s.cmds[x], s.granularity, s.cache, s.rootEntries, h.extents, d', h.finished) {
      if Queued(s.cmds[x].ioState) {
        forall w | w in s.cmds[x].writes ensures w.at != g.at {
          OtherPlace(s, h, id, g, x, w);
        }
      }
      CmdKept(s.cmds[x], s.cache, s.cache, s.disk, d', s.rootOffset, s.rootEntries, s.rootEntries, h.extents, h.extents, h.finished, h.finished, s.granularity, g.at);
    }
  }

  lemma LandContent(s: State, h: History, id: int, g: GrainWrite, d': Disk)
    requires Inv(s, h) && InState(s, id, DataWriteProg) && g in s.cmds[id].writes
    requires Keeps(s.disk, d', s.rootOffset, |s.rootEntries|, h.extents, s.granularity, g.at)
    ensures ContentOk(d', s.rootOffset, |s.rootEntries|, s.granularity, s.cmds, h.initial, h.completed)
  {
    hide LeavesOk, FinishedOk, CacheOk, MirrorOk, PinsOk, QueueOk, ExtentsOk, ProgUpdates, ApartOk, CmdsOk, KeepsRuns, Resolve, LastWrite, Filled, At;
    WriteIs(s, h, id, g);
    assert Writes(s.cmds[id], g.grain);
    assert Busy(s.cmds, g.grain);
    forall x: Grain | IsGrain(x, |s.rootEntries|) && !Busy(s.cmds, x)
      ensures Resolve(d', s.rootOffset, s.granularity, x) == LastWrite(h.initial, h.completed, x)
    {
      ResolveKept(s.disk, d', s.rootOffset, s.rootEntries, h.extents, h.finished, s.granularity, g.at, x);
    }
  }

  // ----- metadata

  /** The head of active is the one command with a metadata write in progress. */
  lemma HeadIs(s: State, h: History, id: int)
    requires Inv(s, h) && InState(s, id, MetaDataWriteProg)
    ensures s.active != [] && s.active[0] == id && s.cmds[id].metaData != []
    ensures s.granularity > 0 && ProgUpdates(s.active, s.cmds, s.granularity) == Updates(s.cmds[id].metaData, s.granularity)
  {
    hide RootsOk, LeavesOk, FinishedOk, CacheOk, MirrorOk, PinsOk, ContentOk, CmdsOk, ApartOk, Updates;
    var q := s.active + s.ready;
    assert id in q;
    var i :| 0 <= i < |q| && q[i] == id;
    assert i == 0;
  }

  /** A word of a metadata write: it is on disk already, or it sets the entry of one grain of the command. */
  lemma LandWord(s: State, h: History, id: int, n: int, p: int) returns (r: int)
    requires Inv(s, h) && Enabled(s, LandMeta(id, n, p))
    ensures var slot := s.cmds[id].metaData[n].slot; var v := s.cache[slot].leaf[p];
      && s.granularity > 0 && 0 <= r < |s.rootEntries| && s.rootEntries[r] != 0 && s.cache[slot].sectorOffset == s.rootEntries[r]
      && (|| v == At(s.disk, s.rootEntries[r], p)
          || (At(s.disk, s.rootEntries[r], p) == 0 && Update(slot, Grain(r, p), v) in Updates(s.cmds[id].metaData, s.granularity)))
  {
    hide LeavesOk, FinishedOk, PinsOk, ContentOk, ApartOk, Updates, QueueOk, RootsOk, ProgUpdates, At, WriteOk, ExtentsOk, Distinct;
    HeadIs(s, h, id);
    var cmd := s.cmds[id];
    assert CmdOk(cmd, s.granularity, s.cache, s.rootEntries, h.extents, s.disk, h.finished);
    NodeUpdate(cmd.metaData, s.granularity, n, 0);
    var slot := cmd.metaData[n].slot;
    var u0 := Update(slot, ToGrain(s.granularity, cmd.metaData[n].metaPair[0].sector), cmd.metaData[n].metaPair[0].metaSector);
    assert UpdateOk(u0, cmd.ioState, s.cache, s.rootEntries, h.extents, s.disk, h.finished);
    r := u0.grain.root;
    var v := s.cache[slot].leaf[p];
    if v != At(s.disk, s.rootEntries[r], p) {
      assert Targets(Updates(cmd.metaData, s.granularity), slot, p, v);
      var u :| u in Updates(cmd.metaData, s.granularity) && u.slot == slot && u.grain.pos == p && u.sector == v;
      SameGrain(u, cmd.ioState, s.cache, s.disk, s.rootOffset, s.rootEntries, h.extents, h.finished, Grain(r, p));
    }
  }

  lemma PutSame(d: Disk, sector: int, p: int, v: int)
    requires Has(d, sector, p) && At(d, sector, p) == v
    ensures PutWord(d, sector, p, v) == d
  {
  }

  /** The leaf entries after one of them is set. */
  ghost predicate OneEntry(d: Disk, d': Disk, roots: seq<int>, g: Grain, v: int)
  {
    forall i, p :: 0 <= i < |roots| && roots[i] != 0 && 0 <= p < LEAF_ENTRIES ==>
      At(d', roots[i], p) == if i == g.root && p == g.pos then v else At(d, roots[i], p)
  }

  lemma LandEntry(s: State, h: History, g: Grain, v: int)
    requires Inv(s, h) && IsGrain(g, |s.rootEntries|) && s.rootEntries[g.root] != 0
    ensures var d' := PutWord(s.disk, s.rootEntries[g.root], g.pos, v);
      && Keeps(s.disk, d', s.rootOffset, |s.rootEntries|, h.extents, s.granularity, s.rootEntries[g.root])
      && OneEntry(s.disk, d', s.rootEntries, g, v)
  {
    hide LeavesOk, FinishedOk, CacheOk, MirrorOk, PinsOk, QueueOk, ExtentsOk, ProgUpdates, ApartOk, CmdsOk, KeepsRuns, ContentOk, Within, At, Has, PutWord, Filled;
    var x := s.rootEntries[g.root];
    var d' := PutWord(s.disk, x, g.pos, v);
    PutKeeps(s, h, x, g.pos, v);
    PutWordAt(s.disk, x, g.pos, v, LEAF_ENTRIES);
    forall i, p | 0 <= i < |s.rootEntries| && s.rootEntries[i] != 0 && 0 <= p < LEAF_ENTRIES
      ensures At(d', s.rootEntries[i], p) == if i == g.root && p == g.pos then v else At(s.disk, s.rootEntries[i], p)
    {
      if i != g.root {
        assert s.rootEntries[i] != x;
        LeafSame(s.disk, d', s.rootOffset, s.rootEntries, h.extents, s.granularity, x, i, p);
      }
    }
  }

  lemma EntryLeaves(d: Disk, d': Disk, roots: seq<int>, ext: map<int, Use>, finished: set<int>, g: Grain, v: int)
    requires LeavesOk(d, roots, ext, finished) && OneEntry(d, d', roots, g, v) && EntryOk(v, g, ext, finished)
    ensures LeavesOk(d', roots, ext, finished)
  {
    hide At, EntryOk;
    forall i, p | 0 <= i < |roots| && roots[i] != 0 && 0 <= p < LEAF_ENTRIES
      ensures EntryOk(At(d', roots[i], p), Grain(i, p), ext, finished)
    {
      assert EntryOk(At(d, roots[i], p), Grain(i, p), ext, finished);
    }
  }

  lemma EntryMirror(s: State, h: History, d': Disk, us: set<Update>, slot: int, g: Grain, v: int)
    requires RootsOk(s.disk, s.rootOffset, s.rootEntries, h.extents) && CacheOk(s.cache, s.rootEntries) && MirrorOk(s.cache, s.disk, us)
    requires IsGrain(g, |s.rootEntries|) && s.rootEntries[g.root] != 0 && OneEntry(s.disk, d', s.rootEntries, g, v)
    requires 0 <= slot < |s.cache| && s.cache[slot].sectorOffset == s.rootEntries[g.root] && s.cache[slot].leaf[g.pos] == v
    ensures MirrorOk(s.cache, d', us)
  {
    hide At, Targets, Shows, IsRoot, RootsOk;
    forall c, p | 0 <= c < |s.cache| && s.cache[c].sectorOffset != NULL_SECTOR && 0 <= p < |s.cache[c].leaf|
      ensures s.cache[c].leaf[p] == At(d', s.cache[c].sectorOffset, p)
        || (At(d', s.cache[c].sectorOffset, p) == 0 && Targets(us, c, p, s.cache[c].leaf[p]))
    {
      var i := IsRootAt(s.cache[c].sectorOffset, s.disk, s.rootOffset, s.rootEntries, h.extents);
      assert At(d', s.rootEntries[i], p) == if i == g.root && p == g.pos then v else At(s.disk, s.rootEntries[i], p);
    }
  }

  lemma EntryCmd(cmd: Command, mine: bool, granularity: int, cache: seq<Pair>, roots: seq<int>, ext: map<int, Use>, d: Disk, d': Disk, finished: set<int>, g: Grain, v: int)
    requires granularity > 0 && CmdOk(cmd, granularity, cache, roots, ext, d, finished)
    requires IsGrain(g, |roots|) && OneEntry(d, d', roots, g, v) && KeepsRuns(d, d', ext, granularity, roots[g.root])
    requires roots[g.root] in ext && ext[roots[g.root]].LeafOf? && At(d, roots[g.root], g.pos) == 0 && 0 !in ext
    requires if mine then cmd.ioState == MetaDataWriteProg else !Writes(cmd, g)
    ensures CmdOk(cmd, granularity, cache, roots, ext, d', finished)
  {
    hide At, NodesOk, Updates, KeepsRuns, Landed;
    var us := Updates(cmd.metaData, granularity);
    forall u | u in us ensures UpdateOk(u, cmd.ioState, cache, roots, ext, d', finished) {
      assert UpdateOk(u, cmd.ioState, cache, roots, ext, d, finished);
      assert WriteAt(cmd.writes, u.grain, u.sector);
      if !mine {
        var w :| w in cmd.writes && w.grain == u.grain && w.at == u.sector;
        assert Writes(cmd, u.grain);
      }
    }
    forall w | w in cmd.writes ensures WriteOk(w, cmd.ioState, us, granularity, roots, ext, d') {
      assert WriteOk(w, cmd.ioState, us, granularity, roots, ext, d);
      if !mine {
        assert Writes(cmd, w.grain);
      }
      if Queued(cmd.ioState) {
        LandedKept(w, d, d', ext, granularity, roots[g.root]);
      }
    }
  }

  lemma EntryContent(s: State, h: History, id: int, d': Disk, g: Grain, v: int)
    requires Inv(s, h) && InState(s, id, MetaDataWriteProg) && Writes(s.cmds[id], g)
    requires IsGrain(g, |s.rootEntries|) && s.rootEntries[g.root] != 0
    requires Keeps(s.disk, d', s.rootOffset, |s.rootEntries|, h.extents, s.granularity, s.rootEntries[g.root])
    requires OneEntry(s.disk, d', s.rootEntries, g, v)
    ensures ContentOk(d', s.rootOffset, |s.rootEntries|, s.granularity, s.cmds, h.initial, h.completed)
  {
    hide FinishedOk, CacheOk, MirrorOk, PinsOk, QueueOk, ProgUpdates, ApartOk, CmdsOk, KeepsRuns, LastWrite, Filled, At, Has, Words, LeavesOk, ExtentsOk;
    GranularityPositive(h.extents, s.rootOffset, |s.rootEntries|, s.freeSector, s.granularity);
    forall x: Grain | IsGrain(x, |s.rootEntries|) && !Busy(s.cmds, x)
      ensures Resolve(d', s.rootOffset, s.granularity, x) == LastWrite(h.initial, h.completed, x)
    {
      assert x != g;
      assert At(d', s.rootOffset, x.root) == At(s.disk, s.rootOffset, x.root) == s.rootEntries[x.root];
      var r := s.rootEntries[x.root];
      if r != 0 {
        assert At(d', r, x.pos) == At(s.disk, r, x.pos);
        var e := At(s.disk, r, x.pos);
        if e != 0 {
          LeafEntryOk(s.disk, s.rootEntries, h.extents, h.finished, x);
          RunSame(s.disk, d', h.extents, s.granularity, s.rootEntries[g.root], e);
          SameWords(s.disk, d', e, SECTOR_WORDS * s.granularity);
        }
      }
    }
  }

  lemma SetEntryInv(s: State, h: History, id: int, u: Update)
    requires Inv(s, h) && InState(s, id, MetaDataWriteProg) && s.granularity > 0 && u in Updates(s.cmds[id].metaData, s.granularity)
    requires IsGrain(u.grain, |s.rootEntries|) && s.rootEntries[u.grain.root] != 0 && At(s.disk, s.rootEntries[u.grain.root], u.grain.pos) == 0
    requires 0 <= u.slot < |s.cache| && s.cache[u.slot].sectorOffset == s.rootEntries[u.grain.root] && |s.cache[u.slot].leaf| == LEAF_ENTRIES
    requires s.cache[u.slot].leaf[u.grain.pos] == u.sector
    ensures Inv(s.(disk := PutWord(s.disk, s.rootEntries[u.grain.root], u.grain.pos, u.sector)), h)
  {
    hide LeavesOk, FinishedOk, CacheOk, MirrorOk, PinsOk, QueueOk, ExtentsOk, ProgUpdates, ApartOk, RootsOk, KeepsRuns, OneEntry, ContentOk, CmdOk, At, Updates, PutWord, Keeps;
    var d' := PutWord(s.disk, s.rootEntries[u.grain.root], u.grain.pos, u.sector);
    var x := s.rootEntries[u.grain.root];
    LandEntry(s, h, u.grain, u.sector);
    KeepsIs(s, h, d', x);
    GranularityPositive(h.extents, s.rootOffset, |s.rootEntries|, s.freeSector, s.granularity);
    OneCmd(s.cmds, id, s.granularity, s.cache, s.rootEntries, h.extents, s.disk, h.finished);
    UpdateFacts(s.cmds[id], u, s.granularity, s.cache, s.rootEntries, h.extents, s.disk, h.finished);
    RootRun(s.disk, s.rootOffset, s.rootEntries, h.extents, u.grain.root);
    HeadIs(s, h, id);
    RootsKept(s.disk, d', s.rootOffset, s.rootEntries, h.extents, s.granularity, x);
    EntryLeaves(s.disk, d', s.rootEntries, h.extents, h.finished, u.grain, u.sector);
    FinishedKept(s.disk, d', h.extents, h.extents, h.finished, s.granularity);
    EntryMirror(s, h, d', ProgUpdates(s.active, s.cmds, s.granularity), u.slot, u.grain, u.sector);
    EntryContent(s, h, id, d', u.grain, u.sector);
    forall y | y in s.cmds ensures CmdOk(s.cmds[y], s.granularity, s.cache, s.rootEntries, h.extents, d', h.finished) {
      NotMine(s, h, id, y, u.grain);
      EntryCmd(s.cmds[y], y == id, s.granularity, s.cache, s.rootEntries, h.extents, s.disk, d', h.finished, u.grain, u.sector);
    }
  }

  lemma NotMine(s: State, h: History, id: int, y: int, g: Grain)
    requires ApartOk(s.cmds, s.nextId) && id in s.cmds && y in s.cmds && Writes(s.cmds[id], g)
    ensures y != id ==> !Writes(s.cmds[y], g)
  {
    hide Writes;
  }

  lemma RootRun(d: Disk, rootOffset: int, roots: seq<int>, ext: map<int, Use>, i: int)
    requires RootsOk(d, rootOffset, roots, ext) && 0 <= i < |roots| && roots[i] != 0
    ensures roots[i] in ext && ext[roots[i]] == LeafOf(i)
  {
    hide At;
  }

  lemma UpdateFacts(cmd: Command, u: Update, granularity: int, cache: seq<Pair>, roots: seq<int>, ext: map<int, Use>, d: Disk, finished: set<int>)
    requires granularity > 0 && CmdOk(cmd, granularity, cache, roots, ext, d, finished) && u in Updates(cmd.metaData, granularity)
    ensures UpdateOk(u, cmd.ioState, cache, roots, ext, d, finished) && WriteAt(cmd.writes, u.grain, u.sector)
    ensures Writes(cmd, u.grain)
    ensures Queued(cmd.ioState) ==> EntryOk(u.sector, u.grain, ext, finished)
  {
    hide Updates, At, NodesOk, WriteOk, UpdateOk;
    assert UpdateOk(u, cmd.ioState, cache, roots, ext, d, finished);
    var w :| w in cmd.writes && w.grain == u.grain && w.at == u.sector;
    if Queued(cmd.ioState) {
      UpdateEntry(u, cmd.ioState, cache, roots, ext, d, finished);
    }
  }

  lemma UpdateEntry(u: Update, io: IOState, cache: seq<Pair>, roots: seq<int>, ext: map<int, Use>, d: Disk, finished: set<int>)
    requires UpdateOk(u, io, cache, roots, ext, d, finished) && Queued(io)
    ensures EntryOk(u.sector, u.grain, ext, finished)
  {
  }

  lemma LandMetaInv(s: State, h: History, id: int, n: int, p: int)
    requires Inv(s, h) && Enabled(s, LandMeta(id, n, p))
    ensures Inv(Step(s, LandMeta(id, n, p)), h)
  {
    hide InvWith, At, Updates, PutWord, Has;
    var r := LandWord(s, h, id, n, p);
    var slot := s.cmds[id].metaData[n].slot;
    var v := s.cache[slot].leaf[p];
    if v == At(s.disk, s.rootEntries[r], p) {
      assert Has(s.disk, s.rootEntries[r], p) by { LeafHas(s, h, r, p); }
      PutSame(s.disk, s.rootEntries[r], p, v);
    } else {
      LeafSizes(s, h);
      SetEntryInv(s, h, id, Update(slot, Grain(r, p), v));
    }
  }

  lemma LeafHas(s: State, h: History, r: int, p: int)
    requires Inv(s, h) && 0 <= r < |s.rootEntries| && s.rootEntries[r] != 0 && 0 <= p < LEAF_ENTRIES
    ensures Has(s.disk, s.rootEntries[r], p)
  {
    hide LeavesOk, FinishedOk, CacheOk, MirrorOk, PinsOk, QueueOk, ExtentsOk, ApartOk, CmdsOk, ContentOk, At, Has;
    assert Filled(s.disk, s.rootEntries[r], LEAF_ENTRIES);
  }

  lemma LeafSizes(s: State, h: History)
    requires Inv(s, h)
    ensures forall c :: 0 <= c < |s.cache| ==> |s.cache[c].leaf| == LEAF_ENTRIES
  {
    hide LeavesOk, FinishedOk, MirrorOk, PinsOk, QueueOk, ExtentsOk, ApartOk, CmdsOk, ContentOk, RootsOk;
  }
}
