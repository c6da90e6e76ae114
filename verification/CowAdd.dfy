/** Preparing a write: starting a command, adding a grain to it, issuing it and giving it up keep the invariant. */
module CowAdd {
  import opened CowDisk
  import opened CowState
  import opened CowCommands
  import opened CowCache
  import opened CowInvariant
  import opened CowFrame
  import opened CowLeaf

  // ----- commands that are not queued come and go

  /** The tables of commands differ at most in the one. */
  ghost predicate OnlyAt(cmds: map<int, Command>, cmds': map<int, Command>, id: int)
  {
    && (forall x :: x in cmds && x != id ==> x in cmds' && cmds'[x] == cmds[x])
    && (forall x :: x in cmds' && x != id ==> x in cmds && cmds'[x] == cmds[x])
  }

  ghost function PinsOf(cmds: map<int, Command>, id: int): set<int>
  {
    if id in cmds then Pins(cmds[id].metaData) else {}
  }

  lemma QueueOther(active: seq<int>, ready: seq<int>, cmds: map<int, Command>, cmds': map<int, Command>, queued: seq<int>, retired: nat, head: IOState, id: int)
    requires QueueOk(active, ready, cmds, queued, retired, head) && Queued(head)
    requires id in cmds ==> !Queued(cmds[id].ioState)
    requires id in cmds' ==> !Queued(cmds'[id].ioState)
    requires OnlyAt(cmds, cmds', id)
    ensures QueueOk(active, ready, cmds', queued, retired, head)
  {
    hide Line;
    LineOther(active + ready, cmds, cmds', head, id);
  }

  lemma LineOther(q: seq<int>, cmds: map<int, Command>, cmds': map<int, Command>, head: IOState, id: int)
    requires Line(q, cmds, head) && Queued(head) && OnlyAt(cmds, cmds', id)
    requires id in cmds ==> !Queued(cmds[id].ioState)
    requires id in cmds' ==> !Queued(cmds'[id].ioState)
    ensures Line(q, cmds', head)
  {
    forall i | 0 <= i < |q| ensures q[i] in cmds' && cmds'[q[i]] == cmds[q[i]] {
      var x := q[i];
      assert x in cmds && Queued(cmds[x].ioState) by { LineQueued(q, cmds, head, i); }
      assert x != id;
    }
  }

  lemma LineQueued(q: seq<int>, cmds: map<int, Command>, head: IOState, i: int)
    requires Line(q, cmds, head) && Queued(head) && 0 <= i < |q|
    ensures q[i] in cmds && Queued(cmds[q[i]].ioState)
  {
  }

  lemma ProgOther(active: seq<int>, cmds: map<int, Command>, cmds': map<int, Command>, granularity: int, id: int)
    requires granularity > 0
    requires id in cmds ==> cmds[id].ioState != MetaDataWriteProg
    requires id in cmds' ==> cmds'[id].ioState != MetaDataWriteProg
    requires OnlyAt(cmds, cmds', id)
    ensures ProgUpdates(active, cmds', granularity) == ProgUpdates(active, cmds, granularity)
  {
    hide Updates;
    if active != [] && active[0] != id {
      assert active[0] in cmds <==> active[0] in cmds';
    }
  }

  lemma BusyMore(d: Disk, rootOffset: int, roots: int, granularity: int, cmds: map<int, Command>, cmds': map<int, Command>, initial: map<Grain, seq<int>>, completed: seq<seq<GrainWrite>>)
    requires ContentOk(d, rootOffset, roots, granularity, cmds, initial, completed)
    requires forall g :: Busy(cmds, g) ==> Busy(cmds', g)
    ensures ContentOk(d, rootOffset, roots, granularity, cmds', initial, completed)
  {
    hide Resolve, LastWrite, Busy;
  }

  lemma StillBusy(cmds: map<int, Command>, cmds': map<int, Command>, id: int)
    requires id in cmds ==> cmds[id].ioState == Initialized
    requires forall x :: x != id && x in cmds ==> x in cmds' && cmds'[x] == cmds[x]
    ensures forall g :: Busy(cmds, g) ==> Busy(cmds', g)
  {
    forall g | Busy(cmds, g) ensures Busy(cmds', g) {
      var x :| x in cmds && cmds[x].ioState != Initialized && Writes(cmds[x], g);
      assert x in cmds' && cmds'[x] == cmds[x];
    }
  }

  lemma SamePins(cache: seq<Pair>, cmds: map<int, Command>, cmds': map<int, Command>, id: int)
    requires PinsOk(cache, cmds) && OnlyAt(cmds, cmds', id) && PinsOf(cmds, id) == PinsOf(cmds', id)
    ensures PinsOk(cache, cmds')
  {
    hide Pins;
    forall c | 0 <= c < |cache| ensures cache[c].numWrites == |PinSet(cmds', c)| {
      forall x ensures x in PinSet(cmds', c) <==> x in PinSet(cmds, c) {
        if x == id {
          assert c in PinsOf(cmds, id) <==> c in PinsOf(cmds', id);
        }
      }
      assert PinSet(cmds', c) == PinSet(cmds, c);
    }
  }

  // ----- a command begins

  lemma BeginInv(s: State, h: History)
    requires Inv(s, h)
    ensures Inv(Step(s, Begin), h)
  {
    hide RootsOk, LeavesOk, FinishedOk, CacheOk, MirrorOk, PinsOk, QueueOk, ContentOk, ExtentsOk, ProgUpdates, Busy, Pins, Updates;
    var s' := Step(s, Begin);
    var id := s.nextId;
    assert id !in s.cmds by { FreshId(s.cmds, s.nextId); }
    GranularityPositive(h.extents, s.rootOffset, |s.rootEntries|, s.freeSector, s.granularity);
    NoNodes(s.granularity);
    QueueOther(s.active, s.ready, s.cmds, s'.cmds, h.queued, h.retired, MetaDataWriteProg, id);
    ProgOther(s.active, s.cmds, s'.cmds, s.granularity, id);
    StillBusy(s.cmds, s'.cmds, id);
    BusyMore(s.disk, s.rootOffset, |s.rootEntries|, s.granularity, s.cmds, s'.cmds, h.initial, h.completed);
    SamePins(s.cache, s.cmds, s'.cmds, id);
    assert CmdsOk(s'.cmds, s.granularity, s.cache, s.rootEntries, h.extents, s.disk, h.finished) by {
      hide CmdOk;
      BareCmd(s.granularity, s.cache, s.rootEntries, h.extents, s.disk, h.finished);
    }
    assert ApartOk(s'.cmds, s'.nextId) by {
      hide CmdsOk;
      forall g ensures !Writes(s'.cmds[id], g) {
      }
    }
  }

  lemma FreshId(cmds: map<int, Command>, nextId: int)
    requires ApartOk(cmds, nextId)
    ensures nextId !in cmds
  {
  }

  lemma GranularityPositive(ext: map<int, Use>, rootOffset: int, roots: int, free: int, granularity: int)
    requires ExtentsOk(ext, rootOffset, roots, free, granularity)
    ensures granularity > 0 && 0 !in ext
  {
  }

  lemma BareCmd(granularity: int, cache: seq<Pair>, roots: seq<int>, ext: map<int, Use>, d: Disk, finished: set<int>)
    requires granularity > 0
    ensures CmdOk(Command(Initialized, [], []), granularity, cache, roots, ext, d, finished)
  {
    NoNodes(granularity);
  }

  // ----- a command's data write is issued

  lemma IssueCmd(cmd: Command, io: IOState, granularity: int, cache: seq<Pair>, roots: seq<int>, ext: map<int, Use>, d: Disk, finished: set<int>)
    requires granularity > 0 && CmdOk(cmd, granularity, cache, roots, ext, d, finished)
    requires cmd.ioState != MetaDataWriteProg && io != MetaDataWriteProg && !Queued(io)
    ensures CmdOk(cmd.(ioState := io), granularity, cache, roots, ext, d, finished)
  {
    hide Updates, At, NodesOk, Landed, HasUpdate, WriteAt;
    forall u | u in Updates(cmd.metaData, granularity) ensures UpdateOk(u, io, cache, roots, ext, d, finished) {
      assert UpdateOk(u, cmd.ioState, cache, roots, ext, d, finished);
    }
    forall w | w in cmd.writes ensures WriteOk(w, io, Updates(cmd.metaData, granularity), granularity, roots, ext, d) {
      assert WriteOk(w, cmd.ioState, Updates(cmd.metaData, granularity), granularity, roots, ext, d);
    }
  }

  lemma IssueInv(s: State, h: History, id: int)
    requires Inv(s, h) && InState(s, id, Initialized)
    ensures Inv(Step(s, Issue(id)), h)
  {
    hide RootsOk, LeavesOk, FinishedOk, CacheOk, MirrorOk, PinsOk, QueueOk, ContentOk, ExtentsOk, ProgUpdates, Busy, Pins, CmdOk, ApartOk;
    var s' := Step(s, Issue(id));
    GranularityPositive(h.extents, s.rootOffset, |s.rootEntries|, s.freeSector, s.granularity);
    QueueOther(s.active, s.ready, s.cmds, s'.cmds, h.queued, h.retired, MetaDataWriteProg, id);
    ProgOther(s.active, s.cmds, s'.cmds, s.granularity, id);
    StillBusy(s.cmds, s'.cmds, id);
    BusyMore(s.disk, s.rootOffset, |s.rootEntries|, s.granularity, s.cmds, s'.cmds, h.initial, h.completed);
    SamePins(s.cache, s.cmds, s'.cmds, id);
    IssueCmd(s.cmds[id], DataWriteProg, s.granularity, s.cache, s.rootEntries, h.extents, s.disk, h.finished);
    assert ApartOk(s'.cmds, s'.nextId) by { SameWritesApart(s.cmds, s'.cmds, s.nextId); }
  }

  lemma SameWritesApart(cmds: map<int, Command>, cmds': map<int, Command>, nextId: int)
    requires ApartOk(cmds, nextId)
    requires forall x :: x in cmds' ==> x in cmds && cmds'[x].writes == cmds[x].writes
    ensures ApartOk(cmds', nextId)
  {
    forall id, id', g | id in cmds' && id' in cmds' && Writes(cmds'[id], g) && Writes(cmds'[id'], g) ensures id == id' {
      assert Writes(cmds[id], g) && Writes(cmds[id'], g);
    }
  }

  // ----- a command is given up before it is issued

  lemma UnpinnedPins(cache: seq<Pair>, cmds: map<int, Command>, id: int)
    requires PinsOk(cache, cmds) && id in cmds && NodesOk(cmds[id].metaData)
    ensures PinsOk(Unpinned(cache, cmds[id].metaData), cmds - {id})
  {
    hide Pins, NodesOk, Unpinned;
    var md := cmds[id].metaData;
    UnpinnedIs(cache, md);
    var cache' := Unpinned(cache, md);
    forall c | 0 <= c < |cache'| ensures cache'[c].numWrites == |PinSet(cmds - {id}, c)| {
      assert cache[c].numWrites == |PinSet(cmds, c)|;
      if c in Pins(md) {
        assert id in PinSet(cmds, c);
        assert PinSet(cmds - {id}, c) == PinSet(cmds, c) - {id};
      } else {
        assert PinSet(cmds - {id}, c) == PinSet(cmds, c);
      }
    }
  }

  lemma UnpinnedCache(cache: seq<Pair>, cache': seq<Pair>, roots: seq<int>)
    requires CacheOk(cache, roots) && SameLeaves(cache, cache')
    ensures CacheOk(cache', roots)
  {
    hide IsRoot;
  }

  lemma UnpinnedMirror(cache: seq<Pair>, cache': seq<Pair>, d: Disk, us: set<Update>)
    requires MirrorOk(cache, d, us) && SameLeaves(cache, cache')
    ensures MirrorOk(cache', d, us)
  {
    hide At, Targets;
    forall u | u in us ensures Shows(cache', u) {
      assert Shows(cache, u);
    }
  }

  /** Commands unaffected by a change of pin counts, of the runs handed out and of the finished grains. */
  lemma CmdsKept(cmds: map<int, Command>, cache: seq<Pair>, cache': seq<Pair>, d: Disk, rootOffset: int, roots: seq<int>, ext: map<int, Use>, ext': map<int, Use>, finished: set<int>, finished': set<int>, granularity: int)
    requires granularity > 0 && 0 !in ext && RootsOk(d, rootOffset, roots, ext)
    requires Grown(roots, roots, ext, ext', finished, finished') && SameOffsets(cache, cache')
    requires CmdsOk(cmds, granularity, cache, roots, ext, d, finished)
    ensures CmdsOk(cmds, granularity, cache', roots, ext', d, finished')
  {
    hide RootsOk, KeepsRuns, Grown, CmdOk, Pins;
    SameRuns(d, ext, granularity);
    forall id | id in cmds ensures CmdOk(cmds[id], granularity, cache', roots, ext', d, finished') {
      var cmd := cmds[id];
      assert CmdOk(cmd, granularity, cache, roots, ext, d, finished);
      WritesNotNull(cmd, granularity, cache, roots, ext, d, finished);
      CmdKept(cmd, cache, cache', d, d, rootOffset, roots, roots, ext, ext', finished, finished', granularity, 0);
    }
  }

  ghost predicate SameOffsets(cache: seq<Pair>, cache': seq<Pair>)
  {
    |cache'| == |cache| && forall c :: 0 <= c < |cache| ==> cache'[c].sectorOffset == cache[c].sectorOffset
  }

  lemma AbandonInv(s: State, h: History, id: int)
    requires Inv(s, h) && InState(s, id, Initialized)
    ensures Inv(Step(s, Abandon(id)), h)
  {
    hide RootsOk, LeavesOk, FinishedOk, CacheOk, MirrorOk, PinsOk, QueueOk, ContentOk, ExtentsOk, ProgUpdates, Busy, Pins, CmdOk, ApartOk, Unpinned, Grown, NodesOk;
    var s' := Step(s, Abandon(id));
    GranularityPositive(h.extents, s.rootOffset, |s.rootEntries|, s.freeSector, s.granularity);
    QueueOther(s.active, s.ready, s.cmds, s'.cmds, h.queued, h.retired, MetaDataWriteProg, id);
    ProgOther(s.active, s.cmds, s'.cmds, s.granularity, id);
    StillBusy(s.cmds, s'.cmds, id);
    BusyMore(s.disk, s.rootOffset, |s.rootEntries|, s.granularity, s.cmds, s'.cmds, h.initial, h.completed);
    CmdNodes(s.cmds[id], s.granularity, s.cache, s.rootEntries, h.extents, s.disk, h.finished);
    UnpinnedIs(s.cache, s.cmds[id].metaData);
    UnpinnedPins(s.cache, s.cmds, id);
    UnpinnedCache(s.cache, s'.cache, s.rootEntries);
    UnpinnedMirror(s.cache, s'.cache, s.disk, ProgUpdates(s.active, s.cmds, s.granularity));
    GrownSame(s.rootEntries, h.extents, h.finished);
    CmdsKept(s.cmds, s.cache, s'.cache, s.disk, s.rootOffset, s.rootEntries, h.extents, h.extents, h.finished, h.finished, s.granularity);
    assert ApartOk(s'.cmds, s'.nextId) by { SameWritesApart(s.cmds, s'.cmds, s.nextId); }
  }

  lemma CmdNodes(cmd: Command, granularity: int, cache: seq<Pair>, roots: seq<int>, ext: map<int, Use>, d: Disk, finished: set<int>)
    requires granularity > 0 && CmdOk(cmd, granularity, cache, roots, ext, d, finished)
    ensures NodesOk(cmd.metaData)
  {
  }

  // ----- a grain joins a command

  /** The root entries name different leaf blocks. */
  lemma RootsDiffer(d: Disk, rootOffset: int, roots: seq<int>, ext: map<int, Use>, i: int, j: int)
    requires RootsOk(d, rootOffset, roots, ext) && 0 <= i < |roots| && 0 <= j < |roots| && roots[i] == roots[j] && roots[i] != 0
    ensures i == j
  {
    hide At;
  }

  /** An update through the slot of a grain's leaf block, at the grain's place, is of that grain. */
  lemma SameGrain(u: Update, io: IOState, cache: seq<Pair>, d: Disk, rootOffset: int, roots: seq<int>, ext: map<int, Use>, finished: set<int>, g: Grain)
    requires RootsOk(d, rootOffset, roots, ext) && UpdateOk(u, io, cache, roots, ext, d, finished)
    requires IsGrain(g, |roots|) && roots[g.root] != 0 && cache[u.slot].sectorOffset == roots[g.root] && u.grain.pos == g.pos
    ensures u.grain == g
  {
    hide At, RootsOk;
    RootsDiffer(d, rootOffset, roots, ext, u.grain.root, g.root);
  }

  /** A grain no command writes has the same entry in the cache and on disk. */
  lemma EntryIsDisk(s: State, h: History, slot: int, g: Grain)
    requires Inv(s, h) && IsGrain(g, |s.rootEntries|) && s.rootEntries[g.root] != 0 && !InFlight(s.cmds, g)
    requires 0 <= slot < |s.cache| && s.cache[slot].sectorOffset == s.rootEntries[g.root]
    ensures |s.cache[slot].leaf| == LEAF_ENTRIES
    ensures Entry(s, slot, g.pos) == At(s.disk, s.rootEntries[g.root], g.pos)
    ensures EntryOk(Entry(s, slot, g.pos), g, h.extents, h.finished)
  {
    hide LeavesOk, FinishedOk, PinsOk, QueueOk, ContentOk, ExtentsOk, ApartOk, CmdOk, RootsOk, At, EntryOk, InFlight, Distinct, IsRoot;
    GranularityPositive(h.extents, s.rootOffset, |s.rootEntries|, s.freeSector, s.granularity);
    assert EntryOk(At(s.disk, s.rootEntries[g.root], g.pos), g, h.extents, h.finished) by {
      LeafEntryOk(s.disk, s.rootEntries, h.extents, h.finished, g);
    }
    var us := ProgUpdates(s.active, s.cmds, s.granularity);
    var v := s.cache[slot].leaf[g.pos];
    if Targets(us, slot, g.pos, v) {
      var u :| u in us && u.slot == slot && u.grain.pos == g.pos && u.sector == v;
      var id := s.active[0];
      assert CmdOk(s.cmds[id], s.granularity, s.cache, s.rootEntries, h.extents, s.disk, h.finished);
      UpdateInFlight(s, h, id, u, g);
    }
  }

  lemma LeafEntryOk(d: Disk, roots: seq<int>, ext: map<int, Use>, finished: set<int>, g: Grain)
    requires LeavesOk(d, roots, ext, finished) && IsGrain(g, |roots|) && roots[g.root] != 0
    ensures EntryOk(At(d, roots[g.root], g.pos), g, ext, finished)
  {
    hide At, EntryOk;
    assert EntryOk(At(d, roots[g.root], g.pos), Grain(g.root, g.pos), ext, finished);
  }

  lemma UpdateInFlight(s: State, h: History, id: int, u: Update, g: Grain)
    requires s.granularity > 0 && RootsOk(s.disk, s.rootOffset, s.rootEntries, h.extents)
    requires id in s.cmds && CmdOk(s.cmds[id], s.granularity, s.cache, s.rootEntries, h.extents, s.disk, h.finished)
    requires u in Updates(s.cmds[id].metaData, s.granularity) && 0 <= u.slot < |s.cache|
    requires IsGrain(g, |s.rootEntries|) && s.rootEntries[g.root] != 0 && s.cache[u.slot].sectorOffset == s.rootEntries[g.root] && u.grain.pos == g.pos
    ensures InFlight(s.cmds, g)
  {
    hide RootsOk, Updates, UpdateOk, NodesOk, WriteOk;
    SameGrain(u, s.cmds[id].ioState, s.cache, s.disk, s.rootOffset, s.rootEntries, h.extents, h.finished, g);
    var w :| w in s.cmds[id].writes && w.grain == u.grain && w.at == u.sector;
    assert Writes(s.cmds[id], g);
  }

  lemma JoinApart(cmds: map<int, Command>, cmds': map<int, Command>, nextId: int, id: int, w: GrainWrite)
    requires ApartOk(cmds, nextId) && id in cmds && !InFlight(cmds, w.grain)
    requires cmds'.Keys == cmds.Keys && cmds'[id].writes == cmds[id].writes + [w]
    requires forall x :: x != id && x in cmds ==> cmds'[x] == cmds[x]
    ensures ApartOk(cmds', nextId)
    ensures Differ(cmds[id].writes) ==> Differ(cmds'[id].writes)
  {
    forall x, g | x in cmds' && Writes(cmds'[x], g) ensures (Writes(cmds[x], g) && g != w.grain) || (x == id && g == w.grain) {
      var i :| 0 <= i < |cmds'[x].writes| && cmds'[x].writes[i].grain == g;
      if x == id && i == |cmds[id].writes| {
      } else {
        assert cmds[x].writes[i].grain == g;
        assert Writes(cmds[x], g);
      }
    }
    assert !Writes(cmds[id], w.grain);
  }

  lemma NewCmdOk(cmd: Command, granularity: int, cache: seq<Pair>, roots: seq<int>, ext: map<int, Use>, d: Disk, finished: set<int>, slot: int, p: MDPair, w: GrainWrite)
    requires granularity > 0 && CmdOk(cmd, granularity, cache, roots, ext, d, finished) && cmd.ioState == Initialized
    requires var n := FindNode(cmd.metaData, slot); n < 0 || |cmd.metaData[n].metaPair| < MAX_PAIRS
    requires w.grain == ToGrain(granularity, p.sector) && w.at == p.metaSector && |w.words| == SECTOR_WORDS * granularity
    requires UpdateOk(Update(slot, w.grain, w.at), Initialized, cache, roots, ext, d, finished)
    requires Differ(cmd.writes + [w])
    ensures CmdOk(cmd.(metaData := Insert(cmd.metaData, slot, p), writes := cmd.writes + [w]), granularity, cache, roots, ext, d, finished)
  {
    hide Updates, NodesOk, At, ToGrain, Insert, Pins;
    InsertIs(cmd.metaData, granularity, slot, p);
    var us := Updates(cmd.metaData, granularity);
    var us' := Updates(Insert(cmd.metaData, slot, p), granularity);
    var v := Update(slot, w.grain, w.at);
    var ws := cmd.writes + [w];
    forall u | u in us' ensures UpdateOk(u, Initialized, cache, roots, ext, d, finished) && WriteAt(ws, u.grain, u.sector) {
      if u == v {
        assert w in ws;
      } else {
        var x :| x in cmd.writes && x.grain == u.grain && x.at == u.sector;
        assert x in ws;
      }
    }
    forall x | x in ws ensures WriteOk(x, Initialized, us', granularity, roots, ext, d) {
      if x in cmd.writes {
        MoreUpdates(x, us, us', granularity, roots, ext, d);
      } else {
        assert v in us';
      }
    }
  }

  lemma MoreUpdates(w: GrainWrite, us: set<Update>, us': set<Update>, granularity: int, roots: seq<int>, ext: map<int, Use>, d: Disk)
    requires WriteOk(w, Initialized, us, granularity, roots, ext, d) && us <= us'
    ensures WriteOk(w, Initialized, us', granularity, roots, ext, d)
  {
    hide At;
    if HasUpdate(us, w.grain, w.at) {
      var u :| u in us && u.grain == w.grain && u.sector == w.at;
      assert u in us';
    }
  }

  lemma OldCmdOk(cmd: Command, granularity: int, cache: seq<Pair>, roots: seq<int>, ext: map<int, Use>, d: Disk, finished: set<int>, w: GrainWrite)
    requires granularity > 0 && CmdOk(cmd, granularity, cache, roots, ext, d, finished) && cmd.ioState == Initialized
    requires IsGrain(w.grain, |roots|) && roots[w.grain.root] != 0 && |w.words| == SECTOR_WORDS * granularity
    requires w.at in ext && ext[w.at] == GrainOf(w.grain) && At(d, roots[w.grain.root], w.grain.pos) == w.at
    requires Differ(cmd.writes + [w])
    ensures CmdOk(cmd.(writes := cmd.writes + [w]), granularity, cache, roots, ext, d, finished)
  {
    hide Updates, NodesOk, At, UpdateOk;
    var ws := cmd.writes + [w];
    forall u | u in Updates(cmd.metaData, granularity) ensures WriteAt(ws, u.grain, u.sector) {
      var x :| x in cmd.writes && x.grain == u.grain && x.at == u.sector;
      assert x in ws;
    }
  }

  lemma PinnedPins(cache: seq<Pair>, cmds: map<int, Command>, cmds': map<int, Command>, id: int, slot: int)
    requires PinsOk(cache, cmds) && id in cmds && 0 <= slot < |cache| && id in cmds' && OnlyAt(cmds, cmds', id)
    requires Pins(cmds'[id].metaData) == Pins(cmds[id].metaData) + {slot}
    ensures PinsOk(Pinned(cache, cmds[id].metaData, slot), cmds')
  {
    hide Pins;
    var md := cmds[id].metaData;
    FindNodeIs(md, slot);
    var cache' := Pinned(cache, md, slot);
    forall c | 0 <= c < |cache'| ensures cache'[c].numWrites == |PinSet(cmds', c)| {
      assert cache[c].numWrites == |PinSet(cmds, c)|;
      forall x ensures x in PinSet(cmds', c) <==> x in PinSet(cmds, c) || (x == id && c == slot) {
        if x == id {
          assert c in Pins(cmds'[id].metaData) <==> c in Pins(md) || c == slot;
        }
      }
      if c == slot && slot !in Pins(md) {
        assert PinSet(cmds', c) == PinSet(cmds, c) + {id};
      } else {
        assert PinSet(cmds', c) == PinSet(cmds, c);
      }
    }
  }

  lemma PinnedLeaves(cache: seq<Pair>, md: seq<MetaData>, slot: int)
    ensures SameLeaves(cache, Pinned(cache, md, slot)) && SameOffsets(cache, Pinned(cache, md, slot))
  {
  }

  lemma CmdsReplaced(cmds: map<int, Command>, id: int, cmd: Command, granularity: int, cache: seq<Pair>, roots: seq<int>, ext: map<int, Use>, d: Disk, finished: set<int>)
    requires granularity > 0 && CmdsOk(cmds, granularity, cache, roots, ext, d, finished)
    requires CmdOk(cmd, granularity, cache, roots, ext, d, finished)
    ensures CmdsOk(cmds[id := cmd], granularity, cache, roots, ext, d, finished)
  {
    hide CmdOk;
  }

  /** What a grain must satisfy to join a command whose leaf block is in the slot. */
  ghost predicate CanJoin(s: State, id: int, slot: int, sector: int, words: seq<int>)
  {
    && s.granularity > 0 && InState(s, id, Initialized) && sector % s.granularity == 0 && |words| == SECTOR_WORDS * s.granularity
    && var g := ToGrain(s.granularity, sector);
    && IsGrain(g, |s.rootEntries|) && !InFlight(s.cmds, g) && s.rootEntries[g.root] != 0
    && 0 <= slot < |s.cache| && s.cache[slot].sectorOffset == s.rootEntries[g.root]
    && var n := FindNode(s.cmds[id].metaData, slot);
    && (n < 0 || |s.cmds[id].metaData[n].metaPair| < MAX_PAIRS)
  }

  lemma JoinOldInv(s: State, h: History, id: int, slot: int, sector: int, words: seq<int>)
    requires Inv(s, h) && CanJoin(s, id, slot, sector, words) && Entry(s, slot, ToGrain(s.granularity, sector).pos) != 0
    ensures Inv(AddWrite(s, id, slot, sector, words), h)
  {
    hide RootsOk, LeavesOk, FinishedOk, CacheOk, MirrorOk, PinsOk, QueueOk, ContentOk, ExtentsOk, ProgUpdates, Busy, Pins, CmdOk, ApartOk, InFlight, At, ToGrain, Entry;
    var s' := AddWrite(s, id, slot, sector, words);
    var g := ToGrain(s.granularity, sector);
    var w := GrainWrite(g, Entry(s, slot, g.pos), words);
    EntryIsDisk(s, h, slot, g);
    QueueOther(s.active, s.ready, s.cmds, s'.cmds, h.queued, h.retired, MetaDataWriteProg, id);
    ProgOther(s.active, s.cmds, s'.cmds, s.granularity, id);
    StillBusy(s.cmds, s'.cmds, id);
    BusyMore(s.disk, s.rootOffset, |s.rootEntries|, s.granularity, s.cmds, s'.cmds, h.initial, h.completed);
    SamePins(s.cache, s.cmds, s'.cmds, id);
    JoinApart(s.cmds, s'.cmds, s.nextId, id, w);
    CmdWritesDiffer(s.cmds[id], s.granularity, s.cache, s.rootEntries, h.extents, s.disk, h.finished);
    OldCmdOk(s.cmds[id], s.granularity, s.cache, s.rootEntries, h.extents, s.disk, h.finished, w);
    CmdsReplaced(s.cmds, id, s'.cmds[id], s.granularity, s.cache, s.rootEntries, h.extents, s.disk, h.finished);
  }

  lemma CmdWritesDiffer(cmd: Command, granularity: int, cache: seq<Pair>, roots: seq<int>, ext: map<int, Use>, d: Disk, finished: set<int>)
    requires granularity > 0 && CmdOk(cmd, granularity, cache, roots, ext, d, finished)
    ensures Differ(cmd.writes)
  {
  }

  lemma JoinNewInv(s: State, h: History, id: int, slot: int, sector: int, words: seq<int>)
    requires Inv(s, h) && CanJoin(s, id, slot, sector, words) && Entry(s, slot, ToGrain(s.granularity, sector).pos) == 0
    ensures Inv(AddWrite(s, id, slot, sector, words), h.(extents := h.extents[s.freeSector := GrainOf(ToGrain(s.granularity, sector))]))
  {
    hide RootsOk, LeavesOk, FinishedOk, CacheOk, MirrorOk, PinsOk, QueueOk, ContentOk, ExtentsOk, ProgUpdates, Busy, Pins, CmdOk, ApartOk, InFlight, At, ToGrain, Entry, Grown;
    hide CmdsOk, Insert, Pinned, NodesOk, UpdateOk;
    var s' := AddWrite(s, id, slot, sector, words);
    var g := ToGrain(s.granularity, sector);
    var at := s.freeSector;
    var ext' := h.extents[at := GrainOf(g)];
    var w := GrainWrite(g, at, words);
    var cmd := s.cmds[id];
    assert CmdOk(cmd, s.granularity, s.cache, s.rootEntries, h.extents, s.disk, h.finished) by { OneCmd(s.cmds, id, s.granularity, s.cache, s.rootEntries, h.extents, s.disk, h.finished); }
    EntryIsDisk(s, h, slot, g);
    GranularityPositive(h.extents, s.rootOffset, |s.rootEntries|, at, s.granularity);
    FreshExtent(h.extents, s.rootOffset, |s.rootEntries|, at, s.granularity, GrainOf(g));
    FreshGrown(s.rootEntries, h.extents, at, GrainOf(g), h.finished);
    QueueOther(s.active, s.ready, s.cmds, s'.cmds, h.queued, h.retired, MetaDataWriteProg, id);
    ProgOther(s.active, s.cmds, s'.cmds, s.granularity, id);
    StillBusy(s.cmds, s'.cmds, id);
    BusyMore(s.disk, s.rootOffset, |s.rootEntries|, s.granularity, s.cmds, s'.cmds, h.initial, h.completed);
    CmdNodes(cmd, s.granularity, s.cache, s.rootEntries, h.extents, s.disk, h.finished);
    InsertIs(cmd.metaData, s.granularity, slot, MDPair(sector, at));
    PinnedPins(s.cache, s.cmds, s'.cmds, id, slot);
    PinnedLeaves(s.cache, cmd.metaData, slot);
    UnpinnedCache(s.cache, s'.cache, s.rootEntries);
    UnpinnedMirror(s.cache, s'.cache, s.disk, ProgUpdates(s.active, s.cmds, s.granularity));
    RootsGrown(s.disk, s.rootOffset, s.rootEntries, h.extents, ext', h.finished, h.finished);
    LeavesGrown(s.disk, s.rootEntries, s.rootEntries, h.extents, ext', h.finished, h.finished);
    FinishedKept(s.disk, s.disk, h.extents, ext', h.finished, s.granularity);
    JoinApart(s.cmds, s'.cmds, s.nextId, id, w);
    CmdWritesDiffer(cmd, s.granularity, s.cache, s.rootEntries, h.extents, s.disk, h.finished);
    CmdsKept(s.cmds, s.cache, s'.cache, s.disk, s.rootOffset, s.rootEntries, h.extents, ext', h.finished, h.finished, s.granularity);
    OneCmd(s.cmds, id, s.granularity, s'.cache, s.rootEntries, ext', s.disk, h.finished);
    assert UpdateOk(Update(slot, g, at), Initialized, s'.cache, s.rootEntries, ext', s.disk, h.finished) by { NewUpdateOk(s, slot, g, at, s'.cache, ext', h.finished); }
    NewCmdOk(cmd, s.granularity, s'.cache, s.rootEntries, ext', s.disk, h.finished, slot, MDPair(sector, at), w);
    CmdsReplaced(s.cmds, id, s'.cmds[id], s.granularity, s'.cache, s.rootEntries, ext', s.disk, h.finished);
  }

  lemma NewUpdateOk(s: State, slot: int, g: Grain, at: int, cache: seq<Pair>, ext: map<int, Use>, finished: set<int>)
    requires IsGrain(g, |s.rootEntries|) && s.rootEntries[g.root] != 0 && 0 <= slot < |cache| && cache[slot].sectorOffset == s.rootEntries[g.root]
    requires at in ext && ext[at] == GrainOf(g) && At(s.disk, s.rootEntries[g.root], g.pos) == 0
    ensures UpdateOk(Update(slot, g, at), Initialized, cache, s.rootEntries, ext, s.disk, finished)
  {
  }

  lemma OneCmd(cmds: map<int, Command>, id: int, granularity: int, cache: seq<Pair>, roots: seq<int>, ext: map<int, Use>, d: Disk, finished: set<int>)
    requires granularity > 0 && CmdsOk(cmds, granularity, cache, roots, ext, d, finished) && id in cmds
    ensures CmdOk(cmds[id], granularity, cache, roots, ext, d, finished)
  {
    hide CmdOk;
  }

  lemma FreshGrown(roots: seq<int>, ext: map<int, Use>, at: int, u: Use, finished: set<int>)
    requires at !in ext
    ensures Grown(roots, roots, ext, ext[at := u], finished, finished)
  {
  }

  lemma RootsGrown(d: Disk, rootOffset: int, roots: seq<int>, ext: map<int, Use>, ext': map<int, Use>, finished: set<int>, finished': set<int>)
    requires RootsOk(d, rootOffset, roots, ext) && Grown(roots, roots, ext, ext', finished, finished')
    ensures RootsOk(d, rootOffset, roots, ext')
  {
    hide At;
  }

  // ----- the whole of COWWriteGetLBNAndMDB

  /** The runs handed out once the grain of a sector has joined a command. */
  function JoinExtents(s: State, ext: map<int, Use>, slot: int, sector: int): map<int, Use>
    requires s.granularity > 0
  {
    var g := ToGrain(s.granularity, sector);
    if Entry(s, slot, g.pos) == 0 then ext[s.freeSector := GrainOf(g)] else ext
  }

  function LeafExtents(s: State, ext: map<int, Use>, root: int): map<int, Use>
    requires 0 <= root < |s.rootEntries|
  {
    if s.rootEntries[root] == 0 then ext[s.freeSector := LeafOf(root)] else ext
  }

  function AddExtents(s: State, ext: map<int, Use>, id: int, sector: int, words: seq<int>): map<int, Use>
    requires AddEnabled(s, id, sector, words)
  {
    var root := ToGrain(s.granularity, sector).root;
    JoinExtents(WithLeaf(s, root), LeafExtents(s, ext, root), SlotFor(s.cache, LeafSector(s, root)), sector)
  }

  lemma WithLeafInv(s: State, h: History, root: int)
    requires Inv(s, h) && 0 <= root < |s.rootEntries| && CanLookup(s.cache, LeafSector(s, root))
    requires s.freeSector + LEAF_SECTORS < NULL_SECTOR
    ensures Inv(WithLeaf(s, root), h.(extents := LeafExtents(s, h.extents, root)))
    ensures var s1 := WithLeaf(s, root);
      && s1.cache[SlotFor(s.cache, LeafSector(s, root))].sectorOffset == s1.rootEntries[root] != 0
      && s1.cmds == s.cmds && s1.granularity == s.granularity && |s1.rootEntries| == |s.rootEntries| && |s1.cache| == |s.cache|
  {
    hide RootsOk, LeavesOk, FinishedOk, CacheOk, MirrorOk, PinsOk, QueueOk, ContentOk, ProgUpdates, CmdsOk, ApartOk;
    hide Looked, CanLookup, SlotFor, PutBlock, Zeros;
    if s.rootEntries[root] == 0 {
      NewLeafInv(s, h, root);
    } else {
      hide ExtentsOk;
      IsRootFrom(s.rootEntries, root);
      OldLeafInv(s, h, s.rootEntries[root]);
    }
    assert |WithLeaf(s, root).cache| == |s.cache| by { LookedSize(s, root); }
  }

  lemma LookedSize(s: State, root: int)
    requires 0 <= root < |s.rootEntries| && CanLookup(s.cache, LeafSector(s, root))
    ensures |WithLeaf(s, root).cache| == |s.cache|
  {
    hide SlotFor, CanLookup, PutBlock, Zeros;
    LookedIs(s.cache, s.cacheTime + 1, s.disk, LeafSector(s, root), s.rootEntries[root] != 0);
  }

  lemma IsRootFrom(roots: seq<int>, root: int)
    requires 0 <= root < |roots| && roots[root] != 0
    ensures IsRoot(roots[root], roots)
  {
  }

  lemma AddInv(s: State, h: History, id: int, sector: int, words: seq<int>)
    requires Inv(s, h) && AddEnabled(s, id, sector, words)
    ensures Inv(Add(s, id, sector, words), h.(extents := AddExtents(s, h.extents, id, sector, words)))
  {
    hide InvWith, WithLeaf, CanLookup, SlotFor, InFlight, ToGrain, LeafSector, LeafExtents, Entry, AddWrite;
    var g := ToGrain(s.granularity, sector);
    WithLeafInv(s, h, g.root);
    var s1 := WithLeaf(s, g.root);
    var h1 := h.(extents := LeafExtents(s, h.extents, g.root));
    var slot := SlotFor(s.cache, LeafSector(s, g.root));
    assert CanJoin(s1, id, slot, sector, words);
    if Entry(s1, slot, g.pos) == 0 {
      JoinNewInv(s1, h1, id, slot, sector, words);
    } else {
      JoinOldInv(s1, h1, id, slot, sector, words);
    }
  }
}
