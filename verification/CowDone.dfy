/** The completion callbacks: a finished data write queues or completes its command, a finished metadata
    write completes it and starts the next. */
module CowDone {
  import opened CowDisk
  import opened CowState
  import opened CowCommands
  import opened CowCache
  import opened CowInvariant
  import opened CowFrame
  import opened CowLeaf
  import opened CowAdd
  import opened CowLand

  /** The places a command writes. */
  ghost function Places(ws: seq<GrainWrite>): set<int>
  {
    set w | w in ws :: w.at
  }

  // ----- contents

  lemma {:induction false} WriteOfIs(ws: seq<GrainWrite>, g: Grain)
    requires Differ(ws)
    ensures forall w :: w in ws && w.grain == g ==> WriteOf(ws, g) == Present(w.words)
    ensures (forall w :: w in ws ==> w.grain != g) ==> WriteOf(ws, g) == Absent
  {
    if ws != [] {
      WriteOfIs(ws[..|ws| - 1], g);
    }
  }

  lemma LastWriteNext(initial: map<Grain, seq<int>>, completed: seq<seq<GrainWrite>>, ws: seq<GrainWrite>, g: Grain)
    ensures LastWrite(initial, completed + [ws], g) == if WriteOf(ws, g).Present? then WriteOf(ws, g) else LastWrite(initial, completed, g)
  {
    assert (completed + [ws])[..|completed|] == completed;
  }

  lemma LandedWords(d: Disk, at: int, words: seq<int>)
    requires Landed(d, at, words)
    ensures Words(d, at, |words|) == words
  {
    hide At, Has;
  }

  /** A command's grains hold its words once their entries name its places. */
  ghost predicate InPlace(s: State, id: int)
    requires id in s.cmds
  {
    forall w :: w in s.cmds[id].writes ==>
      && IsGrain(w.grain, |s.rootEntries|) && s.rootEntries[w.grain.root] != 0
      && At(s.disk, s.rootEntries[w.grain.root], w.grain.pos) == w.at
      && Landed(s.disk, w.at, w.words)
  }

  lemma CompletedContent(s: State, h: History, id: int)
    requires Inv(s, h) && id in s.cmds && InPlace(s, id)
    ensures ContentOk(s.disk, s.rootOffset, |s.rootEntries|, s.granularity, s.cmds - {id}, h.initial, h.completed + [s.cmds[id].writes])
  {
    hide FinishedOk, CacheOk, MirrorOk, PinsOk, QueueOk, ProgUpdates, ApartOk, LastWrite, At, Has, Words, LeavesOk, CmdOk, Landed, WriteOf;
    var ws := s.cmds[id].writes;
    assert CmdOk(s.cmds[id], s.granularity, s.cache, s.rootEntries, h.extents, s.disk, h.finished);
    CmdWritesDiffer(s.cmds[id], s.granularity, s.cache, s.rootEntries, h.extents, s.disk, h.finished);
    forall g: Grain | IsGrain(g, |s.rootEntries|) && !Busy(s.cmds - {id}, g)
      ensures Resolve(s.disk, s.rootOffset, s.granularity, g) == LastWrite(h.initial, h.completed + [ws], g)
    {
      WriteOfIs(ws, g);
      LastWriteNext(h.initial, h.completed, ws, g);
      if Writes(s.cmds[id], g) {
        var i :| 0 <= i < |ws| && ws[i].grain == g;
        var w := ws[i];
        WriteIs(s, h, id, w);
        LandedWords(s.disk, w.at, w.words);
        assert At(s.disk, s.rootOffset, g.root) == s.rootEntries[g.root];
      } else {
        forall w | w in ws ensures w.grain != g {
          var i :| 0 <= i < |ws| && ws[i] == w;
        }
        BusyWithout(s.cmds, id, g);
      }
    }
  }

  lemma BusyWithout(cmds: map<int, Command>, id: int, g: Grain)
    requires id in cmds && !Writes(cmds[id], g)
    ensures Busy(cmds, g) ==> Busy(cmds - {id}, g)
  {
    if Busy(cmds, g) {
      var x :| x in cmds && cmds[x].ioState != Initialized && Writes(cmds[x], g);
      assert x in cmds - {id} && (cmds - {id})[x] == cmds[x];
    }
  }

  lemma FinishedMore(s: State, h: History, id: int)
    requires Inv(s, h) && id in s.cmds && DataLanded(s, id)
    ensures FinishedOk(s.disk, h.extents, h.finished + Places(s.cmds[id].writes), s.granularity)
  {
    hide CacheOk, MirrorOk, PinsOk, QueueOk, ProgUpdates, ApartOk, ContentOk, RootsOk, LeavesOk, CmdsOk, At, ExtentsOk;
    forall a | a in Places(s.cmds[id].writes) ensures a in h.extents && h.extents[a].GrainOf? && Filled(s.disk, a, SECTOR_WORDS * s.granularity) {
      var w :| w in s.cmds[id].writes && w.at == a;
      var i :| 0 <= i < |s.cmds[id].writes| && s.cmds[id].writes[i] == w;
      WriteIs(s, h, id, w);
    }
  }

  lemma FinishedGrown(roots: seq<int>, ext: map<int, Use>, finished: set<int>, more: set<int>)
    ensures Grown(roots, roots, ext, ext, finished, finished + more)
  {
  }

  // ----- a command without metadata completes at once

  lemma HitInPlace(s: State, h: History, id: int)
    requires Inv(s, h) && id in s.cmds && DataLanded(s, id) && s.cmds[id].metaData == []
    ensures InPlace(s, id)
  {
    hide FinishedOk, CacheOk, MirrorOk, PinsOk, QueueOk, ProgUpdates, ApartOk, ContentOk, RootsOk, LeavesOk, At, ExtentsOk, Landed, Updates, NodesOk, UpdateOk;
    var cmd := s.cmds[id];
    GranularityPositive(h.extents, s.rootOffset, |s.rootEntries|, s.freeSector, s.granularity);
    assert CmdOk(cmd, s.granularity, s.cache, s.rootEntries, h.extents, s.disk, h.finished);
    NoNodes(s.granularity);
    forall w | w in cmd.writes
      ensures IsGrain(w.grain, |s.rootEntries|) && s.rootEntries[w.grain.root] != 0
      ensures At(s.disk, s.rootEntries[w.grain.root], w.grain.pos) == w.at && Landed(s.disk, w.at, w.words)
    {
      assert WriteOk(w, cmd.ioState, {}, s.granularity, s.rootEntries, h.extents, s.disk);
      var i :| 0 <= i < |cmd.writes| && cmd.writes[i] == w;
    }
  }

  lemma HitDoneInv(s: State, h: History, id: int)
    requires Inv(s, h) && InState(s, id, DataWriteProg) && DataLanded(s, id) && s.cmds[id].metaData == []
    ensures var ws := s.cmds[id].writes;
      Inv(s.(cmds := s.cmds - {id}), h.(finished := h.finished + Places(ws), completed := h.completed + [ws]))
  {
    hide RootsOk, LeavesOk, FinishedOk, CacheOk, MirrorOk, PinsOk, QueueOk, ContentOk, ExtentsOk, ProgUpdates, Pins, CmdOk, ApartOk, Grown, InPlace, DataLanded, Places;
    var cmds' := s.cmds - {id};
    var more := Places(s.cmds[id].writes);
    GranularityPositive(h.extents, s.rootOffset, |s.rootEntries|, s.freeSector, s.granularity);
    NoNodes(s.granularity);
    QueueOther(s.active, s.ready, s.cmds, cmds', h.queued, h.retired, MetaDataWriteProg, id);
    ProgOther(s.active, s.cmds, cmds', s.granularity, id);
    SamePins(s.cache, s.cmds, cmds', id);
    HitInPlace(s, h, id);
    CompletedContent(s, h, id);
    FinishedMore(s, h, id);
    FinishedGrown(s.rootEntries, h.extents, h.finished, more);
    LeavesGrown(s.disk, s.rootEntries, s.rootEntries, h.extents, h.extents, h.finished, h.finished + more);
    CmdsKept(s.cmds, s.cache, s.cache, s.disk, s.rootOffset, s.rootEntries, h.extents, h.extents, h.finished, h.finished + more, s.granularity);
    assert ApartOk(cmds', s.nextId) by { SameWritesApart(s.cmds, cmds', s.nextId); }
  }

  // ----- a command with metadata is queued

  lemma WaitCmd(cmd: Command, granularity: int, cache: seq<Pair>, roots: seq<int>, ext: map<int, Use>, d: Disk, finished: set<int>)
    requires granularity > 0 && CmdOk(cmd, granularity, cache, roots, ext, d, finished) && cmd.ioState == DataWriteProg
    requires Places(cmd.writes) <= finished && forall w :: w in cmd.writes ==> Landed(d, w.at, w.words)
    ensures CmdOk(cmd.(ioState := WaitingForMdio), granularity, cache, roots, ext, d, finished)
  {
    hide Updates, At, NodesOk, Landed;
    forall u | u in Updates(cmd.metaData, granularity) ensures UpdateOk(u, WaitingForMdio, cache, roots, ext, d, finished) {
      assert UpdateOk(u, DataWriteProg, cache, roots, ext, d, finished);
      var w :| w in cmd.writes && w.grain == u.grain && w.at == u.sector;
      assert w.at in Places(cmd.writes);
    }
    forall w | w in cmd.writes ensures WriteOk(w, WaitingForMdio, Updates(cmd.metaData, granularity), granularity, roots, ext, d) {
      assert WriteOk(w, DataWriteProg, Updates(cmd.metaData, granularity), granularity, roots, ext, d);
    }
  }

  lemma EnqueueQueue(active: seq<int>, ready: seq<int>, cmds: map<int, Command>, queued: seq<int>, retired: nat, id: int)
    requires QueueOk(active, ready, cmds, queued, retired, MetaDataWriteProg)
    requires id in cmds && cmds[id].ioState == DataWriteProg && cmds[id].metaData != []
    ensures var cmds' := cmds[id := cmds[id].(ioState := WaitingForMdio)];
      if active == [] then QueueOk([id], [], cmds', queued + [id], retired, WaitingForMdio)
      else QueueOk(active, ready + [id], cmds', queued + [id], retired, MetaDataWriteProg)
  {
    hide Line;
    var q := active + ready;
    assert (queued + [id])[retired..] == q + [id];
    LineMore(q, cmds, id);
    if active == [] {
      assert q + [id] == [id] + [];
    } else {
      assert active + (ready + [id]) == q + [id];
    }
  }

  lemma LineMore(q: seq<int>, cmds: map<int, Command>, id: int)
    requires Line(q, cmds, MetaDataWriteProg)
    requires id in cmds && cmds[id].ioState == DataWriteProg && cmds[id].metaData != []
    ensures Line(q + [id], cmds[id := cmds[id].(ioState := WaitingForMdio)], if q == [] then WaitingForMdio else MetaDataWriteProg)
  {
    var cmds' := cmds[id := cmds[id].(ioState := WaitingForMdio)];
    var q' := q + [id];
    forall i | 0 <= i < |q| ensures q'[i] == q[i] != id && cmds'[q[i]] == cmds[q[i]] {
    }
    assert q'[|q|] == id;
    forall x | x in cmds' && Queued(cmds'[x].ioState) ensures x in q' {
      assert x == id || x in q;
    }
  }

  lemma SameBusy(cmds: map<int, Command>, cmds': map<int, Command>)
    requires forall x :: x in cmds ==> x in cmds' && cmds'[x].writes == cmds[x].writes && (cmds'[x].ioState == Initialized ==> cmds[x].ioState == Initialized)
    ensures forall g :: Busy(cmds, g) ==> Busy(cmds', g)
  {
    forall g | Busy(cmds, g) ensures Busy(cmds', g) {
      var x :| x in cmds && cmds[x].ioState != Initialized && Writes(cmds[x], g);
      assert Writes(cmds'[x], g);
    }
  }

  lemma WritesLanded(s: State, id: int)
    requires id in s.cmds && DataLanded(s, id)
    ensures forall w :: w in s.cmds[id].writes ==> Landed(s.disk, w.at, w.words)
  {
    hide Landed;
    forall w | w in s.cmds[id].writes ensures Landed(s.disk, w.at, w.words) {
      var i :| 0 <= i < |s.cmds[id].writes| && s.cmds[id].writes[i] == w;
    }
  }

  /** What queueing a command does to the commands, wherever it is queued. */
  lemma EnqueuedCmds(s: State, h: History, id: int)
    requires Inv(s, h) && InState(s, id, DataWriteProg) && DataLanded(s, id)
    ensures var cmds' := s.cmds[id := s.cmds[id].(ioState := WaitingForMdio)]; var finished' := h.finished + Places(s.cmds[id].writes);
      && s.granularity > 0
      && CmdsOk(cmds', s.granularity, s.cache, s.rootEntries, h.extents, s.disk, finished')
      && PinsOk(s.cache, cmds') && ApartOk(cmds', s.nextId)
      && ContentOk(s.disk, s.rootOffset, |s.rootEntries|, s.granularity, cmds', h.initial, h.completed)
      && FinishedOk(s.disk, h.extents, finished', s.granularity) && LeavesOk(s.disk, s.rootEntries, h.extents, finished')
  {
    hide RootsOk, LeavesOk, FinishedOk, CacheOk, MirrorOk, PinsOk, QueueOk, ContentOk, ExtentsOk, ProgUpdates, Pins, CmdOk, ApartOk, Grown, DataLanded, Places, Busy, CmdsOk;
    var cmds' := s.cmds[id := s.cmds[id].(ioState := WaitingForMdio)];
    var more := Places(s.cmds[id].writes);
    GranularityPositive(h.extents, s.rootOffset, |s.rootEntries|, s.freeSector, s.granularity);
    SamePins(s.cache, s.cmds, cmds', id);
    SameBusy(s.cmds, cmds');
    BusyMore(s.disk, s.rootOffset, |s.rootEntries|, s.granularity, s.cmds, cmds', h.initial, h.completed);
    FinishedMore(s, h, id);
    FinishedGrown(s.rootEntries, h.extents, h.finished, more);
    LeavesGrown(s.disk, s.rootEntries, s.rootEntries, h.extents, h.extents, h.finished, h.finished + more);
    CmdsKept(s.cmds, s.cache, s.cache, s.disk, s.rootOffset, s.rootEntries, h.extents, h.extents, h.finished, h.finished + more, s.granularity);
    WritesLanded(s, id);
    OneCmd(s.cmds, id, s.granularity, s.cache, s.rootEntries, h.extents, s.disk, h.finished + more);
    WaitCmd(s.cmds[id], s.granularity, s.cache, s.rootEntries, h.extents, s.disk, h.finished + more);
    CmdsReplaced(s.cmds, id, cmds'[id], s.granularity, s.cache, s.rootEntries, h.extents, s.disk, h.finished + more);
    assert ApartOk(cmds', s.nextId) by { SameWritesApart(s.cmds, cmds', s.nextId); }
  }

  /** The state once the command is queued, moved to active if that was empty. */
  lemma EnqueuedInv(s: State, h: History, id: int)
    requires Inv(s, h) && InState(s, id, DataWriteProg) && DataLanded(s, id) && s.cmds[id].metaData != []
    ensures InvWith(Moved(Enqueued(s, id)), h.(finished := h.finished + Places(s.cmds[id].writes), queued := h.queued + [id]),
      if s.active == [] then WaitingForMdio else MetaDataWriteProg)
    ensures s.active == [] ==> Moved(Enqueued(s, id)).active == [id]
  {
    hide RootsOk, LeavesOk, FinishedOk, CacheOk, MirrorOk, PinsOk, QueueOk, ContentOk, ExtentsOk, ProgUpdates, ApartOk, DataLanded, Places, CmdsOk;
    EnqueuedCmds(s, h, id);
    EnqueueQueue(s.active, s.ready, s.cmds, h.queued, h.retired, id);
    QueueEmpty(s.active, s.ready, s.cmds, h.queued, h.retired);
    EnqueueProg(s, id);
    if s.active == [] {
      assert s.ready + [id] == [id];
    }
  }

  lemma QueueEmpty(active: seq<int>, ready: seq<int>, cmds: map<int, Command>, queued: seq<int>, retired: nat)
    requires QueueOk(active, ready, cmds, queued, retired, MetaDataWriteProg)
    ensures active == [] ==> ready == []
    ensures active != [] ==> active[0] in cmds && cmds[active[0]].ioState == MetaDataWriteProg
  {
    if active != [] {
      assert (active + ready)[0] == active[0];
    }
  }

  lemma EnqueueProg(s: State, id: int)
    requires s.granularity > 0 && InState(s, id, DataWriteProg) && (s.active == [] ==> s.ready == [])
    ensures ProgUpdates(Moved(Enqueued(s, id)).active, Enqueued(s, id).cmds, s.granularity) == ProgUpdates(s.active, s.cmds, s.granularity)
  {
    hide Updates;
  }

  // ----- the metadata write of the head of active starts

  lemma {:induction false} StartMirror(cache: seq<Pair>, cache': seq<Pair>, d: Disk, rootOffset: int, roots: seq<int>, ext: map<int, Use>, finished: set<int>, cmd: Command, granularity: int)
    requires granularity > 0 && CmdOk(cmd, granularity, cache, roots, ext, d, finished) && cmd.ioState == WaitingForMdio
    requires RootsOk(d, rootOffset, roots, ext) && CacheOk(cache, roots) && MirrorOk(cache, d, {})
    requires SetBy(cache, cache', Updates(cmd.metaData, granularity))
    ensures MirrorOk(cache', d, Updates(cmd.metaData, granularity))
  {
    hide At, Updates, NodesOk, WriteOk, RootsOk, Distinct, IsRoot, UpdateOk, WriteAt;
    var us := Updates(cmd.metaData, granularity);
    forall c, p | 0 <= c < |cache| && cache[c].sectorOffset != NULL_SECTOR && 0 <= p < |cache[c].leaf|
      ensures cache'[c].leaf[p] == At(d, cache[c].sectorOffset, p)
        || (At(d, cache[c].sectorOffset, p) == 0 && Targets(us, c, p, cache'[c].leaf[p]))
    {
      assert cache[c].leaf[p] == At(d, cache[c].sectorOffset, p);
      if cache'[c].leaf[p] != cache[c].leaf[p] {
        var u :| u in us && u.slot == c && u.grain.pos == p && u.sector == cache'[c].leaf[p];
        assert UpdateOk(u, cmd.ioState, cache, roots, ext, d, finished);
        UpdateZero(u, cache, roots, ext, d, finished);
      }
    }
    forall u | u in us ensures Shows(cache', u) {
      assert UpdateOk(u, cmd.ioState, cache, roots, ext, d, finished);
      UpdateZero(u, cache, roots, ext, d, finished);
      var v := cache'[u.slot].leaf[u.grain.pos];
      var u' :| u' in us && u'.slot == u.slot && u'.grain.pos == u.grain.pos && u'.sector == v;
      assert UpdateOk(u', cmd.ioState, cache, roots, ext, d, finished);
      SameGrain(u', cmd.ioState, cache, d, rootOffset, roots, ext, finished, u.grain);
      OnePlace(cmd.writes, u.grain, u.sector, u'.sector);
    }
  }

  lemma UpdateZero(u: Update, cache: seq<Pair>, roots: seq<int>, ext: map<int, Use>, d: Disk, finished: set<int>)
    requires UpdateOk(u, WaitingForMdio, cache, roots, ext, d, finished)
    ensures 0 <= u.slot < |cache| && IsGrain(u.grain, |roots|) && roots[u.grain.root] != 0
    ensures cache[u.slot].sectorOffset == roots[u.grain.root] && At(d, roots[u.grain.root], u.grain.pos) == 0
  {
  }

  /** A command writes a grain in one place. */
  lemma OnePlace(ws: seq<GrainWrite>, g: Grain, at: int, at': int)
    requires Differ(ws) && WriteAt(ws, g, at) && WriteAt(ws, g, at')
    ensures at == at'
  {
    var w :| w in ws && w.grain == g && w.at == at;
    var w' :| w' in ws && w'.grain == g && w'.at == at';
    var i :| 0 <= i < |ws| && ws[i] == w;
    var j :| 0 <= j < |ws| && ws[j] == w';
  }

  lemma StartedPins(cache: seq<Pair>, cache': seq<Pair>, cmds: map<int, Command>)
    requires PinsOk(cache, cmds) && SameSlots(cache, cache')
    ensures PinsOk(cache', cmds)
  {
    hide PinSet;
  }

  lemma StartedCache(cache: seq<Pair>, cache': seq<Pair>, roots: seq<int>)
    requires CacheOk(cache, roots) && SameSlots(cache, cache')
    ensures CacheOk(cache', roots)
  {
    hide IsRoot;
  }

  lemma StartedCmd(cmd: Command, granularity: int, cache: seq<Pair>, roots: seq<int>, ext: map<int, Use>, d: Disk, finished: set<int>)
    requires granularity > 0 && CmdOk(cmd, granularity, cache, roots, ext, d, finished) && cmd.ioState == WaitingForMdio
    ensures CmdOk(cmd.(ioState := MetaDataWriteProg), granularity, cache, roots, ext, d, finished)
  {
    hide Updates, At, NodesOk, Landed, WriteAt;
    forall u | u in Updates(cmd.metaData, granularity) ensures UpdateOk(u, MetaDataWriteProg, cache, roots, ext, d, finished) {
      assert UpdateOk(u, WaitingForMdio, cache, roots, ext, d, finished);
    }
    forall w | w in cmd.writes ensures WriteOk(w, MetaDataWriteProg, Updates(cmd.metaData, granularity), granularity, roots, ext, d) {
      assert WriteOk(w, WaitingForMdio, Updates(cmd.metaData, granularity), granularity, roots, ext, d);
    }
  }

  lemma StartedQueue(active: seq<int>, ready: seq<int>, cmds: map<int, Command>, queued: seq<int>, retired: nat)
    requires QueueOk(active, ready, cmds, queued, retired, WaitingForMdio) && active != []
    ensures active[0] in cmds && cmds[active[0]].ioState == WaitingForMdio
    ensures QueueOk(active, ready, cmds[active[0] := cmds[active[0]].(ioState := MetaDataWriteProg)], queued, retired, MetaDataWriteProg)
  {
    var q := active + ready;
    assert q[0] == active[0];
    var cmds' := cmds[active[0] := cmds[active[0]].(ioState := MetaDataWriteProg)];
    forall i | 0 < i < |q| ensures cmds'[q[i]] == cmds[q[i]] {
      assert q[0] != q[i];
    }
  }

  lemma StartHeadInv(s: State, h: History)
    requires InvWith(s, h, WaitingForMdio)
    ensures s.granularity > 0 && Inv(StartHead(s), h)
  {
    hide RootsOk, LeavesOk, FinishedOk, CacheOk, MirrorOk, PinsOk, QueueOk, ContentOk, ExtentsOk, Pins, CmdOk, ApartOk, Grown, Busy, CmdsOk, UpdateCache, Updates;
    GranularityPositive(h.extents, s.rootOffset, |s.rootEntries|, s.freeSector, s.granularity);
    if s.active == [] {
      IdleQueue(s.active, s.ready, s.cmds, h.queued, h.retired);
    } else {
      StartedQueue(s.active, s.ready, s.cmds, h.queued, h.retired);
      var id := s.active[0];
      var s' := StartHead(s);
      var cmd := s.cmds[id];
      UpdateCacheIs(s.cache, s.granularity, cmd.metaData);
      assert SameSlots(s.cache, s'.cache) && SameOffsets(s.cache, s'.cache);
      OneCmd(s.cmds, id, s.granularity, s.cache, s.rootEntries, h.extents, s.disk, h.finished);
      StartMirror(s.cache, s'.cache, s.disk, s.rootOffset, s.rootEntries, h.extents, h.finished, cmd, s.granularity);
      StartedCache(s.cache, s'.cache, s.rootEntries);
      StartedPins(s.cache, s'.cache, s.cmds);
      SamePins(s'.cache, s.cmds, s'.cmds, id);
      SameBusy(s.cmds, s'.cmds);
      BusyMore(s.disk, s.rootOffset, |s.rootEntries|, s.granularity, s.cmds, s'.cmds, h.initial, h.completed);
      GrownSame(s.rootEntries, h.extents, h.finished);
      CmdsKept(s.cmds, s.cache, s'.cache, s.disk, s.rootOffset, s.rootEntries, h.extents, h.extents, h.finished, h.finished, s.granularity);
      OneCmd(s.cmds, id, s.granularity, s'.cache, s.rootEntries, h.extents, s.disk, h.finished);
      StartedCmd(cmd, s.granularity, s'.cache, s.rootEntries, h.extents, s.disk, h.finished);
      CmdsReplaced(s.cmds, id, s'.cmds[id], s.granularity, s'.cache, s.rootEntries, h.extents, s.disk, h.finished);
      assert ApartOk(s'.cmds, s.nextId) by { SameWritesApart(s.cmds, s'.cmds, s.nextId); }
    }
  }

  lemma IdleQueue(active: seq<int>, ready: seq<int>, cmds: map<int, Command>, queued: seq<int>, retired: nat)
    requires QueueOk(active, ready, cmds, queued, retired, WaitingForMdio) && active == []
    ensures QueueOk(active, ready, cmds, queued, retired, MetaDataWriteProg)
  {
  }

  // ----- COWAsyncWriteDone

  lemma DataDoneInv(s: State, h: History, id: int)
    requires Inv(s, h) && Enabled(s, DataWriteDone(id)) && s.cmds[id].metaData != []
    ensures Inv(DataDone(s, id), h.(finished := h.finished + Places(s.cmds[id].writes), queued := h.queued + [id]))
  {
    hide InvWith, DataLanded, Places, StartMeta;
    EnqueuedInv(s, h, id);
    var s1 := Moved(Enqueued(s, id));
    if s.active == [] {
      StartHeadInv(s1, h.(finished := h.finished + Places(s.cmds[id].writes), queued := h.queued + [id]));
      assert StartFrom(s1, 0) == StartHead(s1) by { StartOne(s1, id); }
    }
  }

  lemma StartOne(s: State, id: int)
    requires s.granularity > 0 && s.active == [id]
    ensures StartFrom(s, 0) == StartHead(s)
  {
    hide UpdateCache;
    if IsWaiting(s, id) {
      var s1 := StartMeta(s, id);
      assert StartFrom(s1, 1) == s1;
    }
  }

  // ----- COWAsyncMetaDataWriteDone

  lemma WithoutHead(q: seq<int>)
    requires q != []
    ensures Without(q, q[0]) == q[1..]
  {
  }

  lemma CompleteQueue(active: seq<int>, ready: seq<int>, cmds: map<int, Command>, queued: seq<int>, retired: nat)
    requires QueueOk(active, ready, cmds, queued, retired, MetaDataWriteProg) && active != []
    ensures retired < |queued| && queued[retired] == active[0]
    ensures var rest := active[1..]; var cmds' := cmds - {active[0]};
      if rest == [] then QueueOk(ready, [], cmds', queued, retired + 1, WaitingForMdio)
      else QueueOk(rest, ready, cmds', queued, retired + 1, WaitingForMdio)
  {
    hide Line;
    var q := active + ready;
    var rest := active[1..];
    assert queued[retired..][0] == q[0];
    assert queued[retired + 1..] == queued[retired..][1..];
    assert q[1..] == rest + ready;
    LineTail(q, cmds);
    if rest == [] {
      assert ready + [] == q[1..];
    }
  }

  lemma LineTail(q: seq<int>, cmds: map<int, Command>)
    requires Line(q, cmds, MetaDataWriteProg) && q != []
    ensures Line(q[1..], cmds - {q[0]}, WaitingForMdio)
  {
    var q' := q[1..];
    var cmds' := cmds - {q[0]};
    forall i | 0 <= i < |q'| ensures q'[i] == q[i + 1] != q[0] {
    }
    forall id | id in cmds' && Queued(cmds'[id].ioState) ensures id in q' {
      assert id in q;
      var i :| 0 <= i < |q| && q[i] == id;
      assert q'[i - 1] == id;
    }
  }

  lemma LandedMirror(s: State, id: int)
    requires s.granularity > 0 && id in s.cmds && MetaLanded(s, id)
    requires MirrorOk(s.cache, s.disk, Updates(s.cmds[id].metaData, s.granularity))
    ensures MirrorOk(s.cache, s.disk, {})
  {
    hide At, Has, Updates, Shows;
    var md := s.cmds[id].metaData;
    UpdatePinned(md, s.granularity);
    forall c, p | 0 <= c < |s.cache| && s.cache[c].sectorOffset != NULL_SECTOR && 0 <= p < |s.cache[c].leaf|
      ensures s.cache[c].leaf[p] == At(s.disk, s.cache[c].sectorOffset, p)
    {
      if c in Pins(md) {
        var n :| 0 <= n < |md| && md[n].slot == c;
        assert Landed(s.disk, s.cache[md[n].slot].sectorOffset, s.cache[md[n].slot].leaf);
      }
    }
  }

  lemma MetaInPlace(s: State, h: History, id: int)
    requires Inv(s, h) && InState(s, id, MetaDataWriteProg) && MetaLanded(s, id)
    ensures InPlace(s, id)
  {
    hide FinishedOk, CacheOk, PinsOk, QueueOk, ProgUpdates, ApartOk, ContentOk, RootsOk, LeavesOk, At, Has, ExtentsOk, Landed, Updates, NodesOk;
    HeadIs(s, h, id);
    var cmd := s.cmds[id];
    var us := Updates(cmd.metaData, s.granularity);
    assert CmdOk(cmd, s.granularity, s.cache, s.rootEntries, h.extents, s.disk, h.finished);
    forall w | w in cmd.writes
      ensures IsGrain(w.grain, |s.rootEntries|) && s.rootEntries[w.grain.root] != 0
      ensures At(s.disk, s.rootEntries[w.grain.root], w.grain.pos) == w.at && Landed(s.disk, w.at, w.words)
    {
      assert WriteOk(w, cmd.ioState, us, s.granularity, s.rootEntries, h.extents, s.disk);
      if HasUpdate(us, w.grain, w.at) {
        var u :| u in us && u.grain == w.grain && u.sector == w.at;
        assert UpdateOk(u, cmd.ioState, s.cache, s.rootEntries, h.extents, s.disk, h.finished);
        assert Shows(s.cache, u);
        SlotLanded(s, id, u);
      }
    }
  }

  lemma SlotLanded(s: State, id: int, u: Update)
    requires s.granularity > 0 && id in s.cmds && MetaLanded(s, id) && u in Updates(s.cmds[id].metaData, s.granularity) && Shows(s.cache, u)
    ensures At(s.disk, s.cache[u.slot].sectorOffset, u.grain.pos) == u.sector
  {
    hide At, Has, Updates;
    UpdatePinned(s.cmds[id].metaData, s.granularity);
    var md := s.cmds[id].metaData;
    var n :| 0 <= n < |md| && md[n].slot == u.slot;
    assert Landed(s.disk, s.cache[md[n].slot].sectorOffset, s.cache[md[n].slot].leaf);
  }

  /** The state once the command is complete and, if active ran empty, ready has moved up. */
  lemma CompletedInv(s: State, h: History, id: int)
    requires Inv(s, h) && InState(s, id, MetaDataWriteProg) && MetaLanded(s, id)
    ensures InvWith(Moved(Complete(s, id)), h.(completed := h.completed + [s.cmds[id].writes], retired := h.retired + 1), WaitingForMdio)
    ensures h.retired < |h.queued| && id == h.queued[h.retired]
  {
    hide RootsOk, LeavesOk, FinishedOk, CacheOk, MirrorOk, PinsOk, QueueOk, ContentOk, ExtentsOk, Pins, CmdOk, ApartOk, Grown, Busy, InPlace, MetaLanded, ProgUpdates, Unpinned, NodesOk, Without, Updates, CmdsOk;
    HeadIs(s, h, id);
    WithoutHead(s.active);
    CompleteQueue(s.active, s.ready, s.cmds, h.queued, h.retired);
    var s' := Moved(Complete(s, id));
    assert QueueOk(s'.active, s'.ready, s'.cmds, h.queued, h.retired + 1, WaitingForMdio);
    OneCmd(s.cmds, id, s.granularity, s.cache, s.rootEntries, h.extents, s.disk, h.finished);
    CmdNodes(s.cmds[id], s.granularity, s.cache, s.rootEntries, h.extents, s.disk, h.finished);
    LandedMirror(s, id);
    MetaInPlace(s, h, id);
    CompletedContent(s, h, id);
    UnpinnedIs(s.cache, s.cmds[id].metaData);
    UnpinnedPins(s.cache, s.cmds, id);
    UnpinnedCache(s.cache, s'.cache, s.rootEntries);
    UnpinnedMirror(s.cache, s'.cache, s.disk, {});
    GranularityPositive(h.extents, s.rootOffset, |s.rootEntries|, s.freeSector, s.granularity);
    GrownSame(s.rootEntries, h.extents, h.finished);
    CmdsKept(s.cmds, s.cache, s'.cache, s.disk, s.rootOffset, s.rootEntries, h.extents, h.extents, h.finished, h.finished, s.granularity);
    CmdsRemoved(s.cmds, id, s.granularity, s'.cache, s.rootEntries, h.extents, s.disk, h.finished);
    assert ApartOk(s'.cmds, s.nextId) by { SameWritesApart(s.cmds, s'.cmds, s.nextId); }
    assert ProgUpdates(s'.active, s'.cmds, s.granularity) == {} by { IdleProg(s', h.queued, h.retired + 1); }
  }

  lemma CmdsRemoved(cmds: map<int, Command>, id: int, granularity: int, cache: seq<Pair>, roots: seq<int>, ext: map<int, Use>, d: Disk, finished: set<int>)
    requires granularity > 0 && CmdsOk(cmds, granularity, cache, roots, ext, d, finished)
    ensures CmdsOk(cmds - {id}, granularity, cache, roots, ext, d, finished)
  {
    hide CmdOk;
  }

  lemma IdleProg(s: State, queued: seq<int>, retired: nat)
    requires s.granularity > 0 && QueueOk(s.active, s.ready, s.cmds, queued, retired, WaitingForMdio)
    ensures ProgUpdates(s.active, s.cmds, s.granularity) == {}
  {
    if s.active != [] {
      assert (s.active + s.ready)[0] == s.active[0];
    }
  }

  lemma MetaDoneInv(s: State, h: History, id: int)
    requires Inv(s, h) && Enabled(s, MetaDataWriteDone(id))
    ensures Inv(MetaDone(s, id), h.(completed := h.completed + [s.cmds[id].writes], retired := h.retired + 1))
    ensures h.retired < |h.queued| && id == h.queued[h.retired]
  {
    hide InvWith, MetaLanded, StartHead, Complete, Moved;
    CompletedInv(s, h, id);
    StartHeadInv(Moved(Complete(s, id)), h.(completed := h.completed + [s.cmds[id].writes], retired := h.retired + 1));
  }
}
