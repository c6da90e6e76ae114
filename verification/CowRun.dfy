/** What holds in every state of every run of a redo log, and of every image a crash can leave. */
module CowRun {
  import opened CowDisk
  import opened CowState
  import opened CowCommands
  import opened CowCache
  import opened CowInvariant
  import opened CowFrame
  import opened CowLeaf
  import opened CowAdd
  import opened CowLand
  import opened CowDone

  /** The history after a step. */
  function Track(h: History, s: State, e: Event): History
  {
    if !Enabled(s, e) then h
    else
      match e
      case AddGrain(id, sector, words) => h.(extents := AddExtents(s, h.extents, id, sector, words))
      case DataWriteDone(id) =>
        var ws := s.cmds[id].writes;
        var h1 := h.(finished := h.finished + set w | w in ws :: w.at);
        if s.cmds[id].metaData == [] then h1.(completed := h.completed + [ws]) else h1.(queued := h.queued + [id])
      case MetaDataWriteDone(id) => h.(completed := h.completed + [s.cmds[id].writes], retired := h.retired + 1)
      case _ => h
  }

  function RunHistory(h: History, s: State, events: seq<Event>): History
    decreases |events|
  {
    if events == [] then h
    else Track(RunHistory(h, s, events[..|events| - 1]), Run(s, events[..|events| - 1]), events[|events| - 1])
  }

  lemma ReadInv(s: State, h: History, root: int)
    requires Inv(s, h) && ReadEnabled(s, root)
    ensures Inv(Step(s, ReadLeaf(root)), h)
  {
    hide InvWith, CanLookup, SlotFor;
    IsRootFrom(s.rootEntries, root);
    OldLeafInv(s, h, s.rootEntries[root]);
  }

  /** Every step keeps the invariant. */
  lemma StepInv(s: State, h: History, e: Event)
    requires Inv(s, h)
    ensures Inv(Step(s, e), Track(h, s, e))
  {
    hide InvWith, DataLanded, MetaLanded, CanLookup, SlotFor, AddEnabled, Add, AddExtents, DataDone, MetaDone, OldLeaf, Unpinned;
    if Enabled(s, e) {
      match e
      case Begin => BeginInv(s, h);
      case AddGrain(id, sector, words) => AddInv(s, h, id, sector, words);
      case Issue(id) => IssueInv(s, h, id);
      case Abandon(id) => AbandonInv(s, h, id);
      case LandData(id, i, w) => LandDataInv(s, h, id, i, w);
      case DataWriteDone(id) =>
        if s.cmds[id].metaData == [] {
          HitDoneInv(s, h, id);
          assert DataDone(s, id) == s.(cmds := s.cmds - {id}) by { HitDoneIs(s, id); }
        } else {
          DataDoneInv(s, h, id);
        }
      case LandMeta(id, n, p) => LandMetaInv(s, h, id, n, p);
      case MetaDataWriteDone(id) => MetaDoneInv(s, h, id);
      case ReadLeaf(root) => ReadInv(s, h, root);
    }
  }

  lemma HitDoneIs(s: State, id: int)
    requires s.granularity > 0 && id in s.cmds && s.cmds[id].metaData == []
    ensures DataDone(s, id) == s.(cmds := s.cmds - {id})
  {
  }

  lemma {:induction false} RunInv(s: State, h: History, events: seq<Event>)
    requires Inv(s, h)
    ensures Inv(Run(s, events), RunHistory(h, s, events))
    decreases |events|
  {
    hide Inv, Step, Track;
    if events != [] {
      var front := events[..|events| - 1];
      RunInv(s, h, front);
      StepInv(Run(s, front), RunHistory(h, s, front), events[|events| - 1]);
    }
  }

  // ----- what the invariant says

  /** Refinement: a grain no issued command is writing resolves to the last completed write to it. */
  lemma Contents(s: State, h: History)
    requires Inv(s, h)
    ensures forall g :: IsGrain(g, |s.rootEntries|) && !Busy(s.cmds, g) ==>
      Resolve(s.disk, s.rootOffset, s.granularity, g) == LastWrite(h.initial, h.completed, g)
  {
    hide RootsOk, LeavesOk, FinishedOk, CacheOk, MirrorOk, PinsOk, QueueOk, ExtentsOk, CmdsOk, ApartOk, Resolve, LastWrite, Busy;
  }

  /** The same through the cache: the entry a read finds, of a grain no issued command is writing. */
  lemma ReadIsLastWrite(s: State, h: History, g: Grain)
    requires Inv(s, h) && IsGrain(g, |s.rootEntries|) && !Busy(s.cmds, g) && s.rootEntries[g.root] != 0 && ReadEnabled(s, g.root)
    ensures var s' := OldLeaf(s, s.rootEntries[g.root]); var entry := Entry(s', SlotFor(s.cache, s.rootEntries[g.root]), g.pos);
      && s.granularity > 0
      && entry == At(s.disk, s.rootEntries[g.root], g.pos)
      && (if entry == 0 then LastWrite(h.initial, h.completed, g) == Absent
          else LastWrite(h.initial, h.completed, g) == Present(Words(s.disk, entry, SECTOR_WORDS * s.granularity)) && entry + s.granularity <= s.freeSector)
  {
    hide InvWith, CanLookup, SlotFor, LastWrite, Words, At, Busy;
    var sector := s.rootEntries[g.root];
    IsRootFrom(s.rootEntries, g.root);
    OldLeafInv(s, h, sector);
    ReadEntryIs(s, h, g);
    Contents(s, h);
    RootAt(s, h, g.root);
    var entry := At(s.disk, sector, g.pos);
    EntryRun(s, h, g);
  }

  lemma RootAt(s: State, h: History, root: int)
    requires Inv(s, h) && 0 <= root < |s.rootEntries|
    ensures At(s.disk, s.rootOffset, root) == s.rootEntries[root]
  {
    hide LeavesOk, FinishedOk, CacheOk, MirrorOk, PinsOk, QueueOk, ExtentsOk, CmdsOk, ApartOk, ContentOk, At;
  }

  lemma EntryRun(s: State, h: History, g: Grain)
    requires Inv(s, h) && IsGrain(g, |s.rootEntries|) && s.rootEntries[g.root] != 0
    ensures s.granularity > 0
    ensures var e := At(s.disk, s.rootEntries[g.root], g.pos); e != 0 ==> e + s.granularity <= s.freeSector
  {
    hide LeavesOk, FinishedOk, CacheOk, MirrorOk, PinsOk, QueueOk, CmdsOk, ApartOk, ContentOk, At, RootsOk;
    LeafEntryOk(s.disk, s.rootEntries, h.extents, h.finished, g);
  }

  /** What an unpinned slot shows is what is on disk. */
  lemma UnpinnedIsDisk(s: State, h: History, slot: int, p: int)
    requires Inv(s, h) && 0 <= slot < |s.cache| && s.cache[slot].sectorOffset != NULL_SECTOR && s.cache[slot].numWrites <= 0 && 0 <= p < LEAF_ENTRIES
    ensures |s.cache[slot].leaf| == LEAF_ENTRIES && s.cache[slot].leaf[p] == At(s.disk, s.cache[slot].sectorOffset, p)
  {
    hide LeavesOk, FinishedOk, QueueOk, CmdsOk, ApartOk, ContentOk, At, RootsOk, ProgUpdates, PinsOk, ExtentsOk, Distinct, Shows;
    GranularityPositive(h.extents, s.rootOffset, |s.rootEntries|, s.freeSector, s.granularity);
    ProgAllPinned(s);
  }

  lemma ProgAllPinned(s: State)
    requires s.granularity > 0 && PinsOk(s.cache, s.cmds)
    ensures forall u :: u in ProgUpdates(s.active, s.cmds, s.granularity) && 0 <= u.slot < |s.cache| ==> s.cache[u.slot].numWrites > 0
  {
    hide PinsOk, ProgUpdates;
    forall u | u in ProgUpdates(s.active, s.cmds, s.granularity) && 0 <= u.slot < |s.cache| ensures s.cache[u.slot].numWrites > 0 {
      ProgPinned(s, u);
    }
  }

  lemma ReadEntryIs(s: State, h: History, g: Grain)
    requires Inv(s, h) && IsGrain(g, |s.rootEntries|) && s.rootEntries[g.root] != 0 && ReadEnabled(s, g.root)
    ensures var s' := OldLeaf(s, s.rootEntries[g.root]);
      Entry(s', SlotFor(s.cache, s.rootEntries[g.root]), g.pos) == At(s.disk, s.rootEntries[g.root], g.pos)
  {
    hide InvWith, CanLookup, SlotFor, At, Looked;
    var sector := s.rootEntries[g.root];
    IsRootFrom(s.rootEntries, g.root);
    OldLeafInv(s, h, sector);
    LookedIs(s.cache, s.cacheTime + 1, s.disk, sector, true);
    RootsSmall(s, h);
    UnpinnedIsDisk(OldLeaf(s, sector), h, SlotFor(s.cache, sector), g.pos);
  }

  lemma RootsSmall(s: State, h: History)
    requires Inv(s, h)
    ensures forall i :: 0 <= i < |s.rootEntries| ==> s.rootEntries[i] < NULL_SECTOR
  {
    hide LeavesOk, FinishedOk, QueueOk, CmdsOk, ApartOk, ContentOk, RootsOk, PinsOk, ExtentsOk, MirrorOk;
  }

  /** Once no command is left, every grain resolves to the last write to it. */
  lemma Quiet(s: State, h: History)
    requires Inv(s, h) && s.cmds == map[]
    ensures forall g :: IsGrain(g, |s.rootEntries|) ==> Resolve(s.disk, s.rootOffset, s.granularity, g) == LastWrite(h.initial, h.completed, g)
  {
    hide InvWith, Resolve, LastWrite;
    Contents(s, h);
  }

  /** The queue protocol: at most one command has its metadata write in progress and it is the head of
      active; an empty active means an empty ready; the queues hold exactly the commands whose data write
      finished, each once, in that order. */
  lemma QueueProtocol(s: State, h: History)
    requires Inv(s, h)
    ensures forall id :: InState(s, id, MetaDataWriteProg) <==> s.active != [] && id == s.active[0]
    ensures s.active == [] ==> s.ready == []
    ensures forall id :: InState(s, id, WaitingForMdio) || InState(s, id, MetaDataWriteProg) <==> id in s.active + s.ready
    ensures forall i, j :: 0 <= i < j < |s.active + s.ready| ==> (s.active + s.ready)[i] != (s.active + s.ready)[j]
    ensures h.retired <= |h.queued| && s.active + s.ready == h.queued[h.retired..]
  {
    hide RootsOk, LeavesOk, FinishedOk, CacheOk, MirrorOk, PinsOk, ExtentsOk, CmdsOk, ApartOk, ContentOk;
    var q := s.active + s.ready;
    forall id ensures InState(s, id, MetaDataWriteProg) <==> s.active != [] && id == s.active[0] {
      if s.active != [] {
        assert q[0] == s.active[0];
      }
      if InState(s, id, MetaDataWriteProg) {
        assert id in q;
        var i :| 0 <= i < |q| && q[i] == id;
      }
    }
  }

  /** Commands complete in the order their data writes finished. */
  lemma FirstQueuedFirstDone(s: State, h: History, id: int)
    requires Inv(s, h) && Enabled(s, MetaDataWriteDone(id))
    ensures h.retired < |h.queued| && id == h.queued[h.retired]
    ensures Track(h, s, MetaDataWriteDone(id)).retired == h.retired + 1
  {
    hide InvWith, MetaLanded;
    MetaDoneInv(s, h, id);
  }

  /** The runs handed out are disjoint and below the free sector; every leaf block, every grain and every
      place a command is about to write is one of them. */
  lemma Allocated(s: State, h: History)
    requires Inv(s, h)
    ensures forall a, b :: a in h.extents && b in h.extents && a < b ==> a + Len(h.extents[a], s.granularity) <= b
    ensures forall a :: a in h.extents ==> a + Len(h.extents[a], s.granularity) <= s.freeSector <= s.allocSectors
    ensures forall i :: 0 <= i < |s.rootEntries| && s.rootEntries[i] != 0 ==> s.rootEntries[i] in h.extents && h.extents[s.rootEntries[i]] == LeafOf(i)
    ensures forall id, w :: id in s.cmds && w in s.cmds[id].writes ==> w.at in h.extents && h.extents[w.at] == GrainOf(w.grain)
  {
    hide LeavesOk, FinishedOk, CacheOk, MirrorOk, PinsOk, QueueOk, CmdsOk, ApartOk, ContentOk, At, Filled;
    forall id, w | id in s.cmds && w in s.cmds[id].writes ensures w.at in h.extents && h.extents[w.at] == GrainOf(w.grain) {
      WriteIs(s, h, id, w);
    }
  }

  /** A slot a command holds is never the victim of a lookup. */
  lemma NeverEvicted(s: State, h: History, id: int, slot: int, sector: int, read: bool)
    requires Inv(s, h) && id in s.cmds && slot in Pins(s.cmds[id].metaData) && CanLookup(s.cache, sector)
    ensures 0 <= slot < |s.cache|
    ensures Looked(s.cache, s.cacheTime + 1, s.disk, sector, read)[slot].sectorOffset == s.cache[slot].sectorOffset
    ensures Looked(s.cache, s.cacheTime + 1, s.disk, sector, read)[slot].leaf == s.cache[slot].leaf
  {
    hide RootsOk, LeavesOk, FinishedOk, CacheOk, MirrorOk, QueueOk, ApartOk, ContentOk, PinsOk, Updates, Pins, Looked, CanLookup, WriteOk, At;
    GranularityPositive(h.extents, s.rootOffset, |s.rootEntries|, s.freeSector, s.granularity);
    var cmd := s.cmds[id];
    assert CmdOk(cmd, s.granularity, s.cache, s.rootEntries, h.extents, s.disk, h.finished);
    var u := PinUpdates(cmd.metaData, s.granularity, slot);
    assert UpdateOk(u, cmd.ioState, s.cache, s.rootEntries, h.extents, s.disk, h.finished);
    PinnedPositive(s.cache, s.cmds, id, slot);
    LookedIs(s.cache, s.cacheTime + 1, s.disk, sector, read);
  }
}
