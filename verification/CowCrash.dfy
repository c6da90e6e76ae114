/** Crashes: every image a power failure can leave is sound, and holds every completed write. */
module CowCrash {
  import opened CowDisk
  import opened CowState
  import opened CowCommands
  import opened CowCache
  import opened CowInvariant
  import opened CowFrame
  import opened CowLeaf
  import opened CowAdd
  import opened CowLand
  import opened CowDone
  import opened CowRun

  /** The root table is that of the image, every root entry names a leaf block wholly written, every leaf
      entry that is set names a grain whose data write finished, and all these lie apart. */
  ghost predicate Sound(d: Disk, rootOffset: int, roots: seq<int>, free: int, granularity: int, ext: map<int, Use>, finished: set<int>)
  {
    && ExtentsOk(ext, rootOffset, |roots|, free, granularity)
    && RootsOk(d, rootOffset, roots, ext)
    && LeavesOk(d, roots, ext, finished)
    && FinishedOk(d, ext, finished, granularity)
    && forall i :: 0 <= i < |roots| ==> roots[i] < NULL_SECTOR
  }

  /** What may be on disk if the power fails during a step: for a new leaf block, any part of the zeroes,
      then any part of the new root table. */
  ghost predicate CrashImage(s: State, e: Event, d: Disk)
  {
    || d == s.disk
    || d == Step(s, e).disk
    || (e.AddGrain? && Enabled(s, e) && MakesLeaf(s, e.sector) && TornLeaf(s, ToGrain(s.granularity, e.sector).root, d))
  }

  predicate MakesLeaf(s: State, sector: int)
    requires s.granularity > 0
  {
    var root := ToGrain(s.granularity, sector).root;
    0 <= root < |s.rootEntries| && s.rootEntries[root] == 0
  }

  ghost predicate TornLeaf(s: State, root: int, d: Disk)
    requires 0 <= root < |s.rootEntries|
  {
    var d1 := PutBlock(s.disk, s.freeSector, Zeros(LEAF_ENTRIES));
    Torn(s.disk, d1, d) || Torn(d1, PutBlock(d1, s.rootOffset, s.rootEntries[root := s.freeSector]), d)
  }

  /** The image holds what the disk holds for every grain. */
  ghost predicate SameGrains(s: State, d: Disk)
  {
    forall g :: IsGrain(g, |s.rootEntries|) ==> Resolve(d, s.rootOffset, s.granularity, g) == Resolve(s.disk, s.rootOffset, s.granularity, g)
  }

  lemma InvSound(s: State, h: History)
    requires Inv(s, h)
    ensures Sound(s.disk, s.rootOffset, s.rootEntries, s.freeSector, s.granularity, h.extents, h.finished)
    ensures ContentOk(s.disk, s.rootOffset, |s.rootEntries|, s.granularity, s.cmds, h.initial, h.completed)
  {
    hide LeavesOk, FinishedOk, MirrorOk, PinsOk, QueueOk, ExtentsOk, ApartOk, CmdsOk, ContentOk, RootsOk;
  }

  /** A part of the zeroed block: nothing yet refers to it. */
  lemma TornZeroes(s: State, h: History, d: Disk)
    requires Inv(s, h) && Torn(s.disk, PutBlock(s.disk, s.freeSector, Zeros(LEAF_ENTRIES)), d)
    ensures Sound(d, s.rootOffset, s.rootEntries, s.freeSector, s.granularity, h.extents, h.finished)
    ensures SameGrains(s, d)
  {
    hide LeavesOk, FinishedOk, ExtentsOk, RootsOk, PutBlock, Zeros, Within, Inv, Keeps, KeepsRuns, Resolve;
    var d1 := PutBlock(s.disk, s.freeSector, Zeros(LEAF_ENTRIES));
    InvSound(s, h);
    GranularityPositive(h.extents, s.rootOffset, |s.rootEntries|, s.freeSector, s.granularity);
    ZerosAre(LEAF_ENTRIES);
    PutBlockAt(s.disk, s.freeSector, Zeros(LEAF_ENTRIES));
    TornWithin(s.disk, d1, d, s.freeSector, LEAF_ENTRIES);
    FreshKeeps(s.disk, d, h.extents, s.rootOffset, |s.rootEntries|, s.freeSector, s.granularity, LEAF_ENTRIES);
    KeepsIs(s, h, d, 0);
    RootsKept(s.disk, d, s.rootOffset, s.rootEntries, h.extents, s.granularity, 0);
    LeavesKept(s.disk, d, s.rootOffset, s.rootEntries, h.extents, h.finished, s.granularity, 0);
    FinishedKept(s.disk, d, h.extents, h.extents, h.finished, s.granularity);
    forall g | IsGrain(g, |s.rootEntries|) ensures Resolve(d, s.rootOffset, s.granularity, g) == Resolve(s.disk, s.rootOffset, s.granularity, g) {
      TableAt(d, s, h, g.root);
      ResolveKept(s.disk, d, s.rootOffset, s.rootEntries, h.extents, h.finished, s.granularity, 0, g);
    }
  }

  lemma TableAt(d: Disk, s: State, h: History, i: int)
    requires RootsOk(d, s.rootOffset, s.rootEntries, h.extents) && 0 <= i < |s.rootEntries|
    ensures At(d, s.rootOffset, i) == s.rootEntries[i]
  {
    hide At;
  }

  /** A part of the new root table: the one entry that changes is old or new. */
  lemma TornTable(s: State, h: History, root: int, d: Disk) returns (roots: seq<int>)
    requires Inv(s, h) && 0 <= root < |s.rootEntries| && s.rootEntries[root] == 0 && s.freeSector < NULL_SECTOR
    requires var d1 := PutBlock(s.disk, s.freeSector, Zeros(LEAF_ENTRIES));
      Torn(d1, PutBlock(d1, s.rootOffset, s.rootEntries[root := s.freeSector]), d)
    ensures |roots| == |s.rootEntries|
    ensures Sound(d, s.rootOffset, roots, s.freeSector + LEAF_SECTORS, s.granularity, h.extents[s.freeSector := LeafOf(root)], h.finished)
    ensures SameGrains(s, d)
  {
    hide LeavesOk, FinishedOk, ExtentsOk, RootsOk, PutBlock, Zeros, Within, Inv, Keeps, KeepsRuns, Resolve, Torn, At, Has, ZeroLeaf;
    var a := s.freeSector;
    var d1 := PutBlock(s.disk, a, Zeros(LEAF_ENTRIES));
    var roots' := s.rootEntries[root := a];
    var d2 := PutBlock(d1, s.rootOffset, roots');
    var ext' := h.extents[a := LeafOf(root)];
    InvSound(s, h);
    FreeIs(h.extents, s.rootOffset, |s.rootEntries|, a, s.granularity);
    FreshExtent(h.extents, s.rootOffset, |s.rootEntries|, a, s.granularity, LeafOf(root));
    TornTableDisk(s, h, root, d);
    roots := if At(d, s.rootOffset, root) == 0 then s.rootEntries else roots';
    TornRoots(s, h, root, d, roots);
    FinishedKept(s.disk, d, h.extents, ext', h.finished, s.granularity);
    forall g | IsGrain(g, |s.rootEntries|) ensures Resolve(d, s.rootOffset, s.granularity, g) == Resolve(s.disk, s.rootOffset, s.granularity, g) {
      TornResolve(s, h, root, d, roots, g);
    }
  }

  lemma TornTableDisk(s: State, h: History, root: int, d: Disk)
    requires Inv(s, h) && 0 <= root < |s.rootEntries| && s.rootEntries[root] == 0
    requires var d1 := PutBlock(s.disk, s.freeSector, Zeros(LEAF_ENTRIES));
      Torn(d1, PutBlock(d1, s.rootOffset, s.rootEntries[root := s.freeSector]), d)
    ensures KeepsRuns(s.disk, d, h.extents, s.granularity, 0) && ZeroLeaf(d, s.freeSector) && (forall a: int :: a in s.disk ==> a in d)
    ensures forall i :: 0 <= i < |s.rootEntries| && i != root ==> At(d, s.rootOffset, i) == s.rootEntries[i]
    ensures At(d, s.rootOffset, root) == 0 || At(d, s.rootOffset, root) == s.freeSector
  {
    hide LeavesOk, FinishedOk, ExtentsOk, ContentOk, RootsOk, PutBlock, Zeros, Within, Inv, KeepsRuns, At, Has;
    var a := s.freeSector;
    var d1 := PutBlock(s.disk, a, Zeros(LEAF_ENTRIES));
    var roots' := s.rootEntries[root := a];
    var d2 := PutBlock(d1, s.rootOffset, roots');
    InvSound(s, h);
    FreeIs(h.extents, s.rootOffset, |s.rootEntries|, a, s.granularity);
    NewDiskIs(s.disk, h.extents, a, s.rootOffset, roots', s.granularity);
    PutBlockAt(d1, s.rootOffset, roots');
    PutBlockMore(s.disk, a, Zeros(LEAF_ENTRIES));
    TornWithin(d1, d2, d, s.rootOffset, |roots'|);
    TableKeeps(d1, d, h.extents, s.rootOffset, |roots'|, a, s.granularity);
    RunsTwice(s.disk, d1, d, h.extents, s.granularity);
    assert Clear(s.rootOffset, |roots'|, a, LEAF_ENTRIES) by { FreeAfter(h.extents, s.rootOffset, |s.rootEntries|, a, s.granularity); }
    WithinSame(d1, d, s.rootOffset, |roots'|, a, LEAF_ENTRIES);
    forall i | 0 <= i < |s.rootEntries|
      ensures At(d, s.rootOffset, i) == s.rootEntries[i] || At(d, s.rootOffset, i) == roots'[i]
    {
      TornAt(d1, d2, d, s.rootOffset, i);
      TableAt(s.disk, s, h, i);
      assert At(d1, s.rootOffset, i) == At(s.disk, s.rootOffset, i);
    }
  }

  lemma FreeAfter(ext: map<int, Use>, rootOffset: int, roots: int, free: int, granularity: int)
    requires ExtentsOk(ext, rootOffset, roots, free, granularity)
    ensures Clear(rootOffset, roots, free, LEAF_ENTRIES)
  {
  }

  lemma TornRoots(s: State, h: History, root: int, d: Disk, roots: seq<int>)
    requires 0 <= root < |s.rootEntries| && s.rootEntries[root] == 0 && s.freeSector > 0
    requires RootsOk(s.disk, s.rootOffset, s.rootEntries, h.extents) && LeavesOk(s.disk, s.rootEntries, h.extents, h.finished)
    requires 0 !in h.extents && s.freeSector !in h.extents
    requires KeepsRuns(s.disk, d, h.extents, s.granularity, 0) && ZeroLeaf(d, s.freeSector) && (forall a: int :: a in s.disk ==> a in d)
    requires forall i :: 0 <= i < |s.rootEntries| && i != root ==> At(d, s.rootOffset, i) == s.rootEntries[i]
    requires roots == s.rootEntries[root := At(d, s.rootOffset, root)]
    requires At(d, s.rootOffset, root) == 0 || At(d, s.rootOffset, root) == s.freeSector
    ensures var ext := h.extents[s.freeSector := LeafOf(root)];
      RootsOk(d, s.rootOffset, roots, ext) && LeavesOk(d, roots, ext, h.finished)
  {
    hide At, Has, KeepsRuns;
    var a := s.freeSector;
    var ext := h.extents[a := LeafOf(root)];
    forall i | 0 <= i < |roots| && i != root && roots[i] != 0 ensures Filled(d, roots[i], LEAF_ENTRIES) {
      FilledKept(s.disk, d, roots[i], LEAF_ENTRIES);
    }
    assert Filled(d, a, LEAF_ENTRIES);
    forall i, p | 0 <= i < |roots| && roots[i] != 0 && 0 <= p < LEAF_ENTRIES
      ensures EntryOk(At(d, roots[i], p), Grain(i, p), ext, h.finished)
    {
      if i == root {
        assert At(d, a, p) == 0;
      } else {
        LeafSame(s.disk, d, s.rootOffset, s.rootEntries, h.extents, s.granularity, 0, i, p);
        assert EntryOk(At(s.disk, s.rootEntries[i], p), Grain(i, p), h.extents, h.finished);
      }
    }
  }

  lemma TornResolve(s: State, h: History, root: int, d: Disk, roots: seq<int>, g: Grain)
    requires 0 <= root < |s.rootEntries| && s.rootEntries[root] == 0 && s.granularity > 0
    requires RootsOk(s.disk, s.rootOffset, s.rootEntries, h.extents) && LeavesOk(s.disk, s.rootEntries, h.extents, h.finished)
    requires 0 !in h.extents && IsGrain(g, |s.rootEntries|)
    requires KeepsRuns(s.disk, d, h.extents, s.granularity, 0) && ZeroLeaf(d, s.freeSector)
    requires forall i :: 0 <= i < |s.rootEntries| && i != root ==> At(d, s.rootOffset, i) == s.rootEntries[i]
    requires At(d, s.rootOffset, root) == 0 || At(d, s.rootOffset, root) == s.freeSector
    ensures Resolve(d, s.rootOffset, s.granularity, g) == Resolve(s.disk, s.rootOffset, s.granularity, g)
  {
    hide At, Has, KeepsRuns, LeavesOk, Words;
    if g.root == root {
      assert At(d, s.freeSector, g.pos) == 0;
      assert At(s.disk, s.rootOffset, root) == 0;
    } else {
      hide Resolve;
      ResolveKept(s.disk, d, s.rootOffset, s.rootEntries, h.extents, h.finished, s.granularity, 0, g);
    }
  }

  /** The image after a whole step: a step that completes no command leaves every grain not being written
      as it was; one that does has put its words in place before. */
  lemma StepSound(s: State, h: History, e: Event) returns (roots: seq<int>, free: int, ext: map<int, Use>, finished: set<int>)
    requires Inv(s, h)
    ensures |roots| == |s.rootEntries| && Sound(Step(s, e).disk, s.rootOffset, roots, free, s.granularity, ext, finished)
    ensures finished == Track(h, s, e).finished
  {
    hide Inv, Sound;
    StepInv(s, h, e);
    var s' := Step(s, e);
    var h' := Track(h, s, e);
    InvSound(s', h');
    StepConstants(s, e);
    roots, free, ext, finished := s'.rootEntries, s'.freeSector, h'.extents, h'.finished;
  }

  lemma StepConstants(s: State, e: Event)
    ensures var s' := Step(s, e);
      s'.rootOffset == s.rootOffset && s'.granularity == s.granularity && |s'.rootEntries| == |s.rootEntries|
  {
    hide CanLookup, AddEnabled, UpdateCache, Unpinned, DataLanded, MetaLanded, PutWord, Add, Looked, SlotFor;
    if Enabled(s, e) {
      match e
      case AddGrain(id, sector, words) => AddConstants(s, id, sector, words);
      case DataWriteDone(id) =>
        if s.cmds[id].metaData != [] {
          StartConstants(Moved(Enqueued(s, id)), 0);
        }
      case _ =>
    }
  }

  lemma AddConstants(s: State, id: int, sector: int, words: seq<int>)
    requires AddEnabled(s, id, sector, words)
    ensures var s' := Add(s, id, sector, words);
      s'.rootOffset == s.rootOffset && s'.granularity == s.granularity && |s'.rootEntries| == |s.rootEntries|
  {
    hide CanLookup, SlotFor, Looked, PutBlock, Zeros, Insert, Pinned, Entry, InFlight;
  }

  lemma {:induction false} StartConstants(s: State, i: nat)
    requires s.granularity > 0 && i <= |s.active|
    ensures var s' := StartFrom(s, i);
      s'.rootOffset == s.rootOffset && s'.granularity == s.granularity && s'.rootEntries == s.rootEntries && s'.disk == s.disk
    decreases |s.active| - i
  {
    hide UpdateCache;
    if i < |s.active| && IsWaiting(s, s.active[i]) {
      StartConstants(StartMeta(s, s.active[i]), i + 1);
    }
  }

  /** A step puts no grain at risk that was not already being written. */
  lemma StepContent(s: State, h: History, e: Event)
    requires Inv(s, h)
    ensures ContentOk(Step(s, e).disk, s.rootOffset, |s.rootEntries|, s.granularity, s.cmds, h.initial, h.completed)
  {
    hide Inv, ContentOk, Track, CanLookup, AddEnabled, UpdateCache, Unpinned, DataLanded, MetaLanded, PutWord, Add;
    InvSound(s, h);
    if Enabled(s, e) && (e.AddGrain? || e.LandData? || e.LandMeta?) {
      StepInv(s, h, e);
      var s' := Step(s, e);
      InvSound(s', Track(h, s, e));
      StepConstants(s, e);
      assert Track(h, s, e).completed == h.completed && Track(h, s, e).initial == h.initial by { TrackCompleted(h, s, e); }
      if e.AddGrain? {
        AddBusy(s, e.id, e.sector, e.words);
        BusyLess(s'.disk, s.rootOffset, |s.rootEntries|, s.granularity, s'.cmds, s.cmds, h.initial, h.completed);
      }
    } else {
      StillDisk(s, e);
    }
  }

  lemma TrackCompleted(h: History, s: State, e: Event)
    requires e.AddGrain? || e.LandData? || e.LandMeta?
    ensures Track(h, s, e).completed == h.completed && Track(h, s, e).initial == h.initial
  {
    hide Enabled;
  }

  lemma StillDisk(s: State, e: Event)
    requires !(Enabled(s, e) && (e.AddGrain? || e.LandData? || e.LandMeta?))
    ensures Step(s, e).disk == s.disk
  {
    hide CanLookup, AddEnabled, UpdateCache, Unpinned, DataLanded, MetaLanded, PutWord, Add, Looked, SlotFor;
    if Enabled(s, e) && e.DataWriteDone? && s.cmds[e.id].metaData != [] {
      StartConstants(Moved(Enqueued(s, e.id)), 0);
    }
  }

  lemma BusyLess(d: Disk, rootOffset: int, roots: int, granularity: int, cmds: map<int, Command>, cmds': map<int, Command>, initial: map<Grain, seq<int>>, completed: seq<seq<GrainWrite>>)
    requires ContentOk(d, rootOffset, roots, granularity, cmds, initial, completed)
    requires forall g :: Busy(cmds, g) ==> Busy(cmds', g)
    ensures ContentOk(d, rootOffset, roots, granularity, cmds', initial, completed)
  {
    hide Resolve, LastWrite, Busy;
  }

  lemma AddBusy(s: State, id: int, sector: int, words: seq<int>)
    requires AddEnabled(s, id, sector, words)
    ensures forall g :: Busy(Add(s, id, sector, words).cmds, g) ==> Busy(s.cmds, g)
  {
    hide CanLookup, SlotFor, Looked, PutBlock, Zeros, Insert, Pinned, Entry, InFlight, ToGrain, Busy;
    var cmds' := Add(s, id, sector, words).cmds;
    assert OnlyAt(s.cmds, cmds', id) && cmds'[id].ioState == Initialized;
    StillBusy(cmds', s.cmds, id);
  }

  /** Crash safety. Whatever part of whatever step has reached the disk, the image is sound, and every grain
      no issued command is writing holds the words of the last completed write to it. */
  lemma CrashSafe(s: State, h: History, e: Event, d: Disk) returns (roots: seq<int>, free: int, ext: map<int, Use>, finished: set<int>)
    requires Inv(s, h) && CrashImage(s, e, d)
    ensures |roots| == |s.rootEntries| && Sound(d, s.rootOffset, roots, free, s.granularity, ext, finished)
    ensures finished == h.finished || finished == Track(h, s, e).finished
    ensures ContentOk(d, s.rootOffset, |s.rootEntries|, s.granularity, s.cmds, h.initial, h.completed)
    ensures d == Step(s, e).disk || SameGrains(s, d)
  {
    hide Inv, Sound, ContentOk, Track, Step, PutBlock, Torn, Resolve, AddExtents, CanLookup, InFlight, Zeros;
    InvSound(s, h);
    if d == s.disk {
      roots, free, ext, finished := s.rootEntries, s.freeSector, h.extents, h.finished;
    } else if d == Step(s, e).disk {
      roots, free, ext, finished := StepSound(s, h, e);
      StepContent(s, h, e);
    } else {
      var root := ToGrain(s.granularity, e.sector).root;
      if Torn(s.disk, PutBlock(s.disk, s.freeSector, Zeros(LEAF_ENTRIES)), d) {
        TornZeroes(s, h, d);
        roots, free, ext := s.rootEntries, s.freeSector, h.extents;
      } else {
        roots := TornTable(s, h, root, d);
        free, ext := s.freeSector + LEAF_SECTORS, h.extents[s.freeSector := LeafOf(root)];
      }
      finished := h.finished;
      SameContent(s.disk, d, s.rootOffset, |s.rootEntries|, s.granularity, s.cmds, h.initial, h.completed);
    }
  }

  /** What soundness says, entry by entry. */
  lemma SoundEntry(d: Disk, rootOffset: int, roots: seq<int>, free: int, granularity: int, ext: map<int, Use>, finished: set<int>, i: int, p: int)
    requires Sound(d, rootOffset, roots, free, granularity, ext, finished) && 0 <= i < |roots| && 0 <= p < LEAF_ENTRIES
    ensures var r := At(d, rootOffset, i);
      r != 0 ==>
        && Filled(d, r, LEAF_ENTRIES) && r + LEAF_SECTORS <= free
        && var e := At(d, r, p);
        && (e != 0 ==> e in finished && Filled(d, e, SECTOR_WORDS * granularity) && e + granularity <= free && ext[e] == GrainOf(Grain(i, p)))
  {
    hide Filled;
    assert roots[i] != 0 ==> EntryOk(At(d, roots[i], p), Grain(i, p), ext, finished);
  }

  /** A grain being given a place is on disk wholly or not at all. */
  lemma AllOrNothing(s: State, h: History, id: int, w: GrainWrite)
    requires Inv(s, h) && id in s.cmds && w in s.cmds[id].writes && s.granularity > 0
    requires HasUpdate(Updates(s.cmds[id].metaData, s.granularity), w.grain, w.at)
    ensures var c := Resolve(s.disk, s.rootOffset, s.granularity, w.grain); c == Absent || c == Present(w.words)
  {
    hide FinishedOk, PinsOk, QueueOk, ProgUpdates, ApartOk, ContentOk, RootsOk, LeavesOk, At, Has, ExtentsOk, Landed, Updates, NodesOk, CacheOk, Words;
    WriteIs(s, h, id, w);
    var cmd := s.cmds[id];
    var us := Updates(cmd.metaData, s.granularity);
    assert CmdOk(cmd, s.granularity, s.cache, s.rootEntries, h.extents, s.disk, h.finished);
    var u :| u in us && u.grain == w.grain && u.sector == w.at;
    assert UpdateOk(u, cmd.ioState, s.cache, s.rootEntries, h.extents, s.disk, h.finished);
    TableAt(s.disk, s, h, w.grain.root);
    if cmd.ioState == MetaDataWriteProg {
      HeadIs(s, h, id);
      assert Shows(s.cache, u);
      CacheUsed(s, h, u);
      assert WriteOk(w, cmd.ioState, us, s.granularity, s.rootEntries, h.extents, s.disk);
      LandedWords(s.disk, w.at, w.words);
    }
  }

  lemma CacheUsed(s: State, h: History, u: Update)
    requires s.granularity > 0 && CacheOk(s.cache, s.rootEntries) && MirrorOk(s.cache, s.disk, ProgUpdates(s.active, s.cmds, s.granularity))
    requires Shows(s.cache, u) && IsGrain(u.grain, |s.rootEntries|) && s.cache[u.slot].sectorOffset == s.rootEntries[u.grain.root]
    ensures var e := At(s.disk, s.rootEntries[u.grain.root], u.grain.pos); e == 0 || e == u.sector
  {
    hide At, ProgUpdates, Distinct;
  }
}
