/** What every step of a redo log keeps. */
module CowInvariant {
  import opened CowDisk
  import opened CowState
  import opened CowCommands
  import opened CowCache

  datatype Use = LeafOf(root: int) | GrainOf(grain: Grain)

  /** What has happened so far: the use of every run of sectors handed out, the grains whose data write has
      finished, the writes of the completed commands, and the commands in the order they were queued. */
  datatype History = History(
    extents: map<int, Use>,
    finished: set<int>,
    initial: map<Grain, seq<int>>,
    completed: seq<seq<GrainWrite>>,
    queued: seq<int>,
    retired: nat)

  /** What a redo log holds for a grain. */
  datatype Content = Absent | Present(words: seq<int>)

  function Len(u: Use, granularity: int): int
  {
    if u.LeafOf? then LEAF_SECTORS else granularity
  }

  // ----- what the disk alone says

  /** A grain looked up in an image of the file. */
  function Resolve(d: Disk, rootOffset: int, granularity: int, g: Grain): Content
  {
    var r := At(d, rootOffset, g.root);
    if r == 0 then Absent
    else
      var e := At(d, r, g.pos);
      if e == 0 then Absent else Present(Words(d, e, if granularity >= 0 then SECTOR_WORDS * granularity else 0))
  }

  function WriteOf(ws: seq<GrainWrite>, g: Grain): Content
  {
    if ws == [] then Absent
    else if ws[|ws| - 1].grain == g then Present(ws[|ws| - 1].words)
    else WriteOf(ws[..|ws| - 1], g)
  }

  /** The words of the last completed command that wrote the grain, or those it had at first. */
  function LastWrite(initial: map<Grain, seq<int>>, completed: seq<seq<GrainWrite>>, g: Grain): Content
    decreases |completed|
  {
    if completed == [] then (if g in initial then Present(initial[g]) else Absent)
    else if WriteOf(completed[|completed| - 1], g).Present? then WriteOf(completed[|completed| - 1], g)
    else LastWrite(initial, completed[..|completed| - 1], g)
  }

  // ----- the parts of the invariant

  /** The runs handed out lie between the root table and the free sector, and do not meet. */
  ghost predicate ExtentsOk(ext: map<int, Use>, rootOffset: int, roots: int, free: int, granularity: int)
  {
    && 0 < granularity && 0 <= rootOffset && 0 < free && SECTOR_WORDS * rootOffset + roots <= SECTOR_WORDS * free
    && (forall a :: a in ext ==> 0 < a && SECTOR_WORDS * rootOffset + roots <= SECTOR_WORDS * a && a + Len(ext[a], granularity) <= free)
    && (forall a, b :: a in ext && b in ext && a < b ==> a + Len(ext[a], granularity) <= b)
    && (forall a :: a in ext && ext[a].GrainOf? ==> IsGrain(ext[a].grain, roots))
  }

  /** The root table in memory is the one on disk, and names leaf blocks wholly written. */
  ghost predicate RootsOk(d: Disk, rootOffset: int, roots: seq<int>, ext: map<int, Use>)
  {
    forall i :: 0 <= i < |roots| ==>
      && At(d, rootOffset, i) == roots[i]
      && (roots[i] != 0 ==> roots[i] in ext && ext[roots[i]] == LeafOf(i) && Filled(d, roots[i], LEAF_ENTRIES))
  }

  ghost predicate EntryOk(e: int, g: Grain, ext: map<int, Use>, finished: set<int>)
  {
    e == 0 || (e in ext && ext[e] == GrainOf(g) && e in finished)
  }

  /** Leaf entries on disk name grains whose data write finished. */
  ghost predicate LeavesOk(d: Disk, roots: seq<int>, ext: map<int, Use>, finished: set<int>)
  {
    forall i, p :: 0 <= i < |roots| && roots[i] != 0 && 0 <= p < LEAF_ENTRIES ==>
      EntryOk(At(d, roots[i], p), Grain(i, p), ext, finished)
  }

  ghost predicate FinishedOk(d: Disk, ext: map<int, Use>, finished: set<int>, granularity: int)
  {
    forall a :: a in finished ==> a in ext && ext[a].GrainOf? && Filled(d, a, SECTOR_WORDS * granularity)
  }

  ghost predicate CacheOk(cache: seq<Pair>, roots: seq<int>)
  {
    && |cache| == CACHE_ENTRIES && Distinct(cache)
    && (forall c :: 0 <= c < |cache| ==> |cache[c].leaf| == LEAF_ENTRIES)
    && (forall c :: 0 <= c < |cache| && cache[c].sectorOffset != NULL_SECTOR ==> IsRoot(cache[c].sectorOffset, roots))
    && (forall i :: 0 <= i < |roots| ==> roots[i] < NULL_SECTOR)
  }

  ghost predicate IsRoot(sector: int, roots: seq<int>)
  {
    sector != 0 && exists i :: 0 <= i < |roots| && roots[i] == sector
  }

  /** A cached leaf block is the one on disk, overlaid with the updates being written. */
  ghost predicate MirrorOk(cache: seq<Pair>, d: Disk, us: set<Update>)
  {
    && (forall c, p :: 0 <= c < |cache| && cache[c].sectorOffset != NULL_SECTOR && 0 <= p < |cache[c].leaf| ==>
         || cache[c].leaf[p] == At(d, cache[c].sectorOffset, p)
         || (At(d, cache[c].sectorOffset, p) == 0 && Targets(us, c, p, cache[c].leaf[p])))
    && (forall u :: u in us ==> Shows(cache, u))
  }

  ghost predicate Shows(cache: seq<Pair>, u: Update)
  {
    0 <= u.slot < |cache| && 0 <= u.grain.pos < |cache[u.slot].leaf| && cache[u.slot].leaf[u.grain.pos] == u.sector
  }

  ghost function PinSet(cmds: map<int, Command>, slot: int): set<int>
  {
    set id | id in cmds && slot in Pins(cmds[id].metaData)
  }

  /** A slot is pinned once for each command that holds it. */
  ghost predicate PinsOk(cache: seq<Pair>, cmds: map<int, Command>)
  {
    forall c :: 0 <= c < |cache| ==> cache[c].numWrites == |PinSet(cmds, c)|
  }

  ghost predicate Queued(io: IOState)
  {
    io == WaitingForMdio || io == MetaDataWriteProg
  }

  ghost predicate UpdateOk(u: Update, io: IOState, cache: seq<Pair>, roots: seq<int>, ext: map<int, Use>, d: Disk, finished: set<int>)
  {
    && 0 <= u.slot < |cache| && IsGrain(u.grain, |roots|) && roots[u.grain.root] != 0
    && cache[u.slot].sectorOffset == roots[u.grain.root]
    && u.sector in ext && ext[u.sector] == GrainOf(u.grain)
    && (io != MetaDataWriteProg ==> At(d, roots[u.grain.root], u.grain.pos) == 0)
    && (Queued(io) ==> u.sector in finished)
  }

  ghost predicate WriteAt(ws: seq<GrainWrite>, g: Grain, at: int)
  {
    exists w :: w in ws && w.grain == g && w.at == at
  }

  ghost predicate HasUpdate(us: set<Update>, g: Grain, at: int)
  {
    exists u :: u in us && u.grain == g && u.sector == at
  }

  ghost predicate WriteOk(w: GrainWrite, io: IOState, us: set<Update>, granularity: int, roots: seq<int>, ext: map<int, Use>, d: Disk)
  {
    && IsGrain(w.grain, |roots|) && roots[w.grain.root] != 0 && |w.words| == SECTOR_WORDS * granularity
    && w.at in ext && ext[w.at] == GrainOf(w.grain)
    && (At(d, roots[w.grain.root], w.grain.pos) == w.at || HasUpdate(us, w.grain, w.at))
    && (Queued(io) ==> Landed(d, w.at, w.words))
  }

  ghost predicate CmdOk(cmd: Command, granularity: int, cache: seq<Pair>, roots: seq<int>, ext: map<int, Use>, d: Disk, finished: set<int>)
    requires granularity > 0
  {
    && NodesOk(cmd.metaData)
    && (forall u :: u in Updates(cmd.metaData, granularity) ==>
         UpdateOk(u, cmd.ioState, cache, roots, ext, d, finished) && WriteAt(cmd.writes, u.grain, u.sector))
    && (forall w :: w in cmd.writes ==> WriteOk(w, cmd.ioState, Updates(cmd.metaData, granularity), granularity, roots, ext, d))
    && Differ(cmd.writes)
  }

  ghost predicate Differ(ws: seq<GrainWrite>)
  {
    forall i, j :: 0 <= i < j < |ws| ==> ws[i].grain != ws[j].grain
  }

  ghost predicate CmdsOk(cmds: map<int, Command>, granularity: int, cache: seq<Pair>, roots: seq<int>, ext: map<int, Use>, d: Disk, finished: set<int>)
    requires granularity > 0
  {
    forall id :: id in cmds ==> CmdOk(cmds[id], granularity, cache, roots, ext, d, finished)
  }

  /** Different commands write different grains. */
  ghost predicate ApartOk(cmds: map<int, Command>, nextId: int)
  {
    && (forall id :: id in cmds ==> id < nextId)
    && (forall id, id', g :: id in cmds && id' in cmds && Writes(cmds[id], g) && Writes(cmds[id'], g) ==> id == id')
  }

  /** The queues hold every command that waits for or makes its metadata write, each once and in the order
      their data writes finished; only the head of active has a metadata write in progress. */
  ghost predicate QueueOk(active: seq<int>, ready: seq<int>, cmds: map<int, Command>, queued: seq<int>, retired: nat, head: IOState)
  {
    && retired <= |queued| && queued[retired..] == active + ready
    && (active == [] ==> ready == [])
    && Line(active + ready, cmds, head)
  }

  /** The commands of active, then those of ready: the first in state head, the others waiting. */
  ghost predicate Line(q: seq<int>, cmds: map<int, Command>, head: IOState)
  {
    && (forall i, j :: 0 <= i < j < |q| ==> q[i] != q[j])
    && (forall i :: 0 <= i < |q| ==>
         q[i] in cmds && cmds[q[i]].ioState == (if i == 0 then head else WaitingForMdio) && cmds[q[i]].metaData != [])
    && (forall id :: id in cmds && Queued(cmds[id].ioState) ==> id in q)
  }

  /** The updates of the metadata write in progress. */
  ghost function ProgUpdates(active: seq<int>, cmds: map<int, Command>, granularity: int): set<Update>
    requires granularity > 0
  {
    if active != [] && active[0] in cmds && cmds[active[0]].ioState == MetaDataWriteProg then Updates(cmds[active[0]].metaData, granularity)
    else {}
  }

  /** A data write of the grain has been issued and its command is not complete. */
  ghost predicate Busy(cmds: map<int, Command>, g: Grain)
  {
    exists id :: id in cmds && cmds[id].ioState != Initialized && Writes(cmds[id], g)
  }

  ghost predicate ContentOk(d: Disk, rootOffset: int, roots: int, granularity: int, cmds: map<int, Command>, initial: map<Grain, seq<int>>, completed: seq<seq<GrainWrite>>)
  {
    forall g: Grain :: IsGrain(g, roots) && !Busy(cmds, g) ==> Resolve(d, rootOffset, granularity, g) == LastWrite(initial, completed, g)
  }

  ghost predicate Inv(s: State, h: History)
  {
    InvWith(s, h, MetaDataWriteProg)
  }

  /** The invariant, with the head of active in the given state: between steps its metadata write is in progress. */
  ghost predicate InvWith(s: State, h: History, head: IOState)
  {
    && ExtentsOk(h.extents, s.rootOffset, |s.rootEntries|, s.freeSector, s.granularity)
    && s.freeSector <= s.allocSectors && s.granularity <= SIZE_INCREMENT
    && RootsOk(s.disk, s.rootOffset, s.rootEntries, h.extents)
    && LeavesOk(s.disk, s.rootEntries, h.extents, h.finished)
    && FinishedOk(s.disk, h.extents, h.finished, s.granularity)
    && CacheOk(s.cache, s.rootEntries)
    && MirrorOk(s.cache, s.disk, ProgUpdates(s.active, s.cmds, s.granularity))
    && PinsOk(s.cache, s.cmds)
    && CmdsOk(s.cmds, s.granularity, s.cache, s.rootEntries, h.extents, s.disk, h.finished)
    && ApartOk(s.cmds, s.nextId)
    && QueueOk(s.active, s.ready, s.cmds, h.queued, h.retired, head)
    && ContentOk(s.disk, s.rootOffset, |s.rootEntries|, s.granularity, s.cmds, h.initial, h.completed)
  }
}
