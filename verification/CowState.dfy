/** One redo log of cow.c: its tables on disk, its leaf cache and its write commands, and what each
    atomic step does to them. */
module CowState {
  import opened CowDisk

  const LEAF_ENTRIES: int := 4096
  const LEAF_SECTORS: int := 32
  const CACHE_ENTRIES: int := 32
  const SIZE_INCREMENT: int := 32768
  const NULL_SECTOR: int := 0xffff_ffff
  const MAX_PAIRS: int := 255

  /** A grain of the virtual disk: entry pos of the leaf block of root entry root. */
  datatype Grain = Grain(root: int, pos: int)

  /** A leaf block in the cache (COWPair). */
  datatype Pair = Pair(sectorOffset: int, numWrites: int, lastTouch: nat, leaf: seq<int>)

  /** A leaf entry to be set once the data is written: a sector of the virtual disk, and where its grain is. */
  datatype MDPair = MDPair(sector: int, metaSector: int)

  /** The entries a command sets in the leaf block of one cache slot. */
  datatype MetaData = MetaData(slot: int, metaPair: seq<MDPair>)

  datatype GrainWrite = GrainWrite(grain: Grain, at: int, words: seq<int>)

  datatype IOState = Initialized | DataWriteProg | WaitingForMdio | MetaDataWriteProg

  datatype Command = Command(ioState: IOState, metaData: seq<MetaData>, writes: seq<GrainWrite>)

  datatype State = State(
    granularity: int,
    rootOffset: int,
    rootEntries: seq<int>,
    freeSector: int,
    allocSectors: int,
    cache: seq<Pair>,
    cacheTime: nat,
    active: seq<int>,
    ready: seq<int>,
    cmds: map<int, Command>,
    nextId: int,
    disk: Disk)

  function ToGrain(granularity: int, sector: int): Grain
    requires granularity > 0
  {
    Grain(sector / granularity / LEAF_ENTRIES, sector / granularity % LEAF_ENTRIES)
  }

  predicate IsGrain(g: Grain, roots: int)
  {
    0 <= g.root < roots && 0 <= g.pos < LEAF_ENTRIES
  }

  function Zeros(n: nat): seq<int>
  {
    seq(n, i => 0)
  }

  // ----- COWIncrementFreeSector

  function Grow(s: State, increment: int): State
  {
    s.(freeSector := s.freeSector + increment,
       allocSectors := if s.freeSector + increment > s.allocSectors then s.allocSectors + SIZE_INCREMENT else s.allocSectors)
  }

  // ----- COWCacheLookup

  /** The first of slots from.. that holds the leaf block of the sector, or -1. */
  function FindFrom(cache: seq<Pair>, sector: int, from: nat): int
    requires from <= |cache|
    decreases |cache| - from
  {
    if from == |cache| then -1
    else if cache[from].sectorOffset == sector then from
    else FindFrom(cache, sector, from + 1)
  }

  function Find(cache: seq<Pair>, sector: int): int
  {
    FindFrom(cache, sector, 0)
  }

  /** The slot to reuse among the first n, or -1 if all of them are pinned. */
  function Victim(cache: seq<Pair>, n: nat): (v: int)
    requires n <= |cache|
    ensures -1 <= v < n
  {
    if n == 0 then -1
    else
      var v := Victim(cache, n - 1);
      if (v == -1 || cache[n - 1].lastTouch < cache[v].lastTouch) && cache[n - 1].numWrites <= 0 then n - 1 else v
  }

  predicate CanLookup(cache: seq<Pair>, sector: int)
  {
    0 <= Find(cache, sector) < |cache| || 0 <= Victim(cache, |cache|)
  }

  function SlotFor(cache: seq<Pair>, sector: int): (slot: nat)
    requires CanLookup(cache, sector)
    ensures slot < |cache|
  {
    if 0 <= Find(cache, sector) < |cache| then Find(cache, sector) else Victim(cache, |cache|)
  }

  /** The cache after a lookup at time time; the block is read from disk only if read is set. */
  function Looked(cache: seq<Pair>, time: nat, d: Disk, sector: int, read: bool): seq<Pair>
    requires CanLookup(cache, sector)
  {
    var slot := SlotFor(cache, sector);
    if cache[slot].sectorOffset == sector then cache[slot := cache[slot].(lastTouch := time)]
    else cache[slot := Pair(sector, 0, time, if read then Words(d, sector, LEAF_ENTRIES) else cache[slot].leaf)]
  }

  // ----- COWWriteGetLBNAndMDB and COWInsertMetaDataList

  /** A leaf block not yet present: allocated, zeroed in the cache and on disk, then the root table written. */
  function NewLeaf(s: State, root: int): State
    requires 0 <= root < |s.rootEntries| && CanLookup(s.cache, s.freeSector)
  {
    var sector := s.freeSector;
    var roots := s.rootEntries[root := sector];
    var slot := SlotFor(s.cache, sector);
    var cache := Looked(s.cache, s.cacheTime + 1, s.disk, sector, false);
    Grow(s, LEAF_SECTORS).(
      rootEntries := roots,
      cacheTime := s.cacheTime + 1,
      cache := cache[slot := cache[slot].(leaf := Zeros(LEAF_ENTRIES))],
      disk := PutBlock(PutBlock(s.disk, sector, Zeros(LEAF_ENTRIES)), s.rootOffset, roots))
  }

  function OldLeaf(s: State, sector: int): State
    requires CanLookup(s.cache, sector)
  {
    s.(cacheTime := s.cacheTime + 1, cache := Looked(s.cache, s.cacheTime + 1, s.disk, sector, true))
  }

  function LeafSector(s: State, root: int): int
    requires 0 <= root < |s.rootEntries|
  {
    if s.rootEntries[root] == 0 then s.freeSector else s.rootEntries[root]
  }

  /** The state with the leaf block of a root entry in the cache. */
  function WithLeaf(s: State, root: int): State
    requires 0 <= root < |s.rootEntries| && CanLookup(s.cache, LeafSector(s, root))
  {
    if s.rootEntries[root] == 0 then NewLeaf(s, root) else OldLeaf(s, s.rootEntries[root])
  }

  function FindNode(md: seq<MetaData>, slot: int): (n: int)
    ensures -1 <= n < |md|
    ensures n >= 0 ==> md[n].slot == slot
    ensures n < 0 ==> forall i :: 0 <= i < |md| ==> md[i].slot != slot
  {
    if md == [] then -1
    else if md[0].slot == slot then 0
    else
      var n := FindNode(md[1..], slot);
      if n < 0 then -1 else n + 1
  }

  /** The list with one more entry to set: in the node of the slot, or in a new node at the head. */
  function Insert(md: seq<MetaData>, slot: int, p: MDPair): seq<MetaData>
  {
    var n := FindNode(md, slot);
    if n >= 0 then md[n := MetaData(slot, md[n].metaPair + [p])] else [MetaData(slot, [p])] + md
  }

  /** Pinned once more, unless the list has a node for the slot already. */
  function Pinned(cache: seq<Pair>, md: seq<MetaData>, slot: int): seq<Pair>
  {
    if 0 <= slot < |cache| && FindNode(md, slot) < 0 then cache[slot := cache[slot].(numWrites := cache[slot].numWrites + 1)]
    else cache
  }

  function Entry(s: State, slot: int, pos: int): int
  {
    if 0 <= slot < |s.cache| && 0 <= pos < |s.cache[slot].leaf| then s.cache[slot].leaf[pos] else 0
  }

  /** A grain whose leaf entry is in the cache slot joins a command: at a new place, unless it has one. */
  function AddWrite(s: State, id: int, slot: int, sector: int, words: seq<int>): State
    requires s.granularity > 0 && id in s.cmds
  {
    var g := ToGrain(s.granularity, sector);
    var entry := Entry(s, slot, g.pos);
    var cmd := s.cmds[id];
    if entry == 0 then
      var at := s.freeSector;
      Grow(s, s.granularity).(
        cache := Pinned(s.cache, cmd.metaData, slot),
        cmds := s.cmds[id := cmd.(
          metaData := Insert(cmd.metaData, slot, MDPair(sector, at)),
          writes := cmd.writes + [GrainWrite(g, at + sector % s.granularity, words)])])
    else
      s.(cmds := s.cmds[id := cmd.(writes := cmd.writes + [GrainWrite(g, entry + sector % s.granularity, words)])])
  }

  function Add(s: State, id: int, sector: int, words: seq<int>): State
    requires AddEnabled(s, id, sector, words)
  {
    var root := ToGrain(s.granularity, sector).root;
    AddWrite(WithLeaf(s, root), id, SlotFor(s.cache, LeafSector(s, root)), sector, words)
  }

  // ----- COWUpdateCache, COWWriteMetaDataInfo

  function SetEntry(cache: seq<Pair>, slot: int, pos: int, v: int): seq<Pair>
  {
    if 0 <= slot < |cache| && 0 <= pos < |cache[slot].leaf| then cache[slot := cache[slot].(leaf := cache[slot].leaf[pos := v])]
    else cache
  }

  function SetPairs(cache: seq<Pair>, granularity: int, slot: int, pairs: seq<MDPair>): seq<Pair>
    requires granularity > 0
    decreases |pairs|
  {
    if pairs == [] then cache
    else
      var p := pairs[|pairs| - 1];
      SetEntry(SetPairs(cache, granularity, slot, pairs[..|pairs| - 1]), slot, ToGrain(granularity, p.sector).pos, p.metaSector)
  }

  function UpdateCache(cache: seq<Pair>, granularity: int, md: seq<MetaData>): seq<Pair>
    requires granularity > 0
    decreases |md|
  {
    if md == [] then cache
    else
      var m := md[|md| - 1];
      SetPairs(UpdateCache(cache, granularity, md[..|md| - 1]), granularity, m.slot, m.metaPair)
  }

  function StartMeta(s: State, id: int): State
    requires s.granularity > 0 && id in s.cmds
  {
    s.(cache := UpdateCache(s.cache, s.granularity, s.cmds[id].metaData),
       cmds := s.cmds[id := s.cmds[id].(ioState := MetaDataWriteProg)])
  }

  predicate IsWaiting(s: State, id: int)
  {
    id in s.cmds && s.cmds[id].ioState == WaitingForMdio
  }

  // ----- COWAsyncWriteDone

  /** Metadata writes started for the waiting commands of active, from place i, until one is not waiting. */
  function StartFrom(s: State, i: nat): State
    requires s.granularity > 0 && i <= |s.active|
    decreases |s.active| - i
  {
    if i < |s.active| && IsWaiting(s, s.active[i]) then StartFrom(StartMeta(s, s.active[i]), i + 1) else s
  }

  function Enqueued(s: State, id: int): State
    requires id in s.cmds
  {
    s.(ready := s.ready + [id], cmds := s.cmds[id := s.cmds[id].(ioState := WaitingForMdio)])
  }

  /** All of ready moved to the empty active. */
  function Moved(s: State): State
  {
    if s.active == [] then s.(active := s.ready, ready := []) else s
  }

  function DataDone(s: State, id: int): State
    requires s.granularity > 0 && id in s.cmds
  {
    if s.cmds[id].metaData == [] then s.(cmds := s.cmds - {id})
    else
      var s1 := Enqueued(s, id);
      if s1.active == [] then StartFrom(Moved(s1), 0) else s1
  }

  // ----- COWCompleteCommand, COWDestroyMetaDataInfo, COWAsyncMetaDataWriteDone

  function Unpinned(cache: seq<Pair>, md: seq<MetaData>): seq<Pair>
    decreases |md|
  {
    if md == [] then cache
    else
      var slot := md[|md| - 1].slot;
      var c := Unpinned(cache, md[..|md| - 1]);
      if 0 <= slot < |c| then c[slot := c[slot].(numWrites := c[slot].numWrites - 1)] else c
  }

  function Without(q: seq<int>, id: int): seq<int>
  {
    if q == [] then [] else if q[0] == id then q[1..] else [q[0]] + Without(q[1..], id)
  }

  function Complete(s: State, id: int): State
    requires id in s.cmds
  {
    s.(cache := Unpinned(s.cache, s.cmds[id].metaData), active := Without(s.active, id), cmds := s.cmds - {id})
  }

  function StartHead(s: State): State
    requires s.granularity > 0
  {
    if s.active != [] && IsWaiting(s, s.active[0]) then StartMeta(s, s.active[0]) else s
  }

  function MetaDone(s: State, id: int): State
    requires s.granularity > 0 && id in s.cmds
  {
    StartHead(Moved(Complete(s, id)))
  }

  // ----- the steps, and when each can happen

  datatype Event =
    | Begin
    | AddGrain(id: int, sector: int, words: seq<int>)
    | Issue(id: int)
    | Abandon(id: int)
    | LandData(id: int, i: int, w: int)
    | DataWriteDone(id: int)
    | LandMeta(id: int, n: int, p: int)
    | MetaDataWriteDone(id: int)
    | ReadLeaf(root: int)

  /** Some command has a write of the grain. */
  predicate InFlight(cmds: map<int, Command>, g: Grain)
  {
    exists id :: id in cmds && Writes(cmds[id], g)
  }

  predicate Writes(cmd: Command, g: Grain)
  {
    exists i :: 0 <= i < |cmd.writes| && cmd.writes[i].grain == g
  }

  predicate InState(s: State, id: int, io: IOState)
  {
    id in s.cmds && s.cmds[id].ioState == io
  }

  /** A sector can be added to a command being prepared: it starts a grain of the disk, no command writes
      that grain, a cache slot can be had, file offsets stay below COW_NULL_SECTOR_NO and the uint8 count
      of entries of the leaf block does not wrap. */
  predicate AddEnabled(s: State, id: int, sector: int, words: seq<int>)
  {
    && 0 < s.granularity <= SIZE_INCREMENT && InState(s, id, Initialized)
    && 0 <= sector && sector % s.granularity == 0 && |words| == SECTOR_WORDS * s.granularity
    && var g := ToGrain(s.granularity, sector);
    && IsGrain(g, |s.rootEntries|)
    && !InFlight(s.cmds, g)
    && CanLookup(s.cache, LeafSector(s, g.root))
    && s.freeSector + LEAF_SECTORS + s.granularity < NULL_SECTOR
    && var n := FindNode(s.cmds[id].metaData, SlotFor(s.cache, LeafSector(s, g.root)));
    && (n < 0 || |s.cmds[id].metaData[n].metaPair| < MAX_PAIRS)
  }

  /** All the words of a command's data writes are on disk. */
  predicate DataLanded(s: State, id: int)
    requires id in s.cmds
  {
    forall i :: 0 <= i < |s.cmds[id].writes| ==>
      Landed(s.disk, s.cmds[id].writes[i].at, s.cmds[id].writes[i].words)
  }

  predicate MetaLanded(s: State, id: int)
    requires id in s.cmds
  {
    forall n :: 0 <= n < |s.cmds[id].metaData| ==>
      var slot := s.cmds[id].metaData[n].slot;
      0 <= slot < |s.cache| && Landed(s.disk, s.cache[slot].sectorOffset, s.cache[slot].leaf)
  }

  /** A read of the leaf block waits while a command pins its slot. */
  predicate ReadEnabled(s: State, root: int)
  {
    && 0 <= root < |s.rootEntries| && s.rootEntries[root] != 0 && CanLookup(s.cache, s.rootEntries[root])
    && s.cache[SlotFor(s.cache, s.rootEntries[root])].numWrites <= 0
  }

  predicate Enabled(s: State, e: Event)
  {
    match e
    case Begin => true
    case AddGrain(id, sector, words) => AddEnabled(s, id, sector, words)
    case Issue(id) => InState(s, id, Initialized)
    case Abandon(id) => InState(s, id, Initialized)
    case LandData(id, i, w) =>
      InState(s, id, DataWriteProg) && 0 <= i < |s.cmds[id].writes| && 0 <= w < |s.cmds[id].writes[i].words|
    case DataWriteDone(id) => s.granularity > 0 && InState(s, id, DataWriteProg) && DataLanded(s, id)
    case LandMeta(id, n, p) =>
      && InState(s, id, MetaDataWriteProg) && 0 <= n < |s.cmds[id].metaData| && 0 <= p < LEAF_ENTRIES
      && 0 <= s.cmds[id].metaData[n].slot < |s.cache| && p < |s.cache[s.cmds[id].metaData[n].slot].leaf|
    case MetaDataWriteDone(id) => s.granularity > 0 && InState(s, id, MetaDataWriteProg) && MetaLanded(s, id)
    case ReadLeaf(root) => ReadEnabled(s, root)
  }

  /** One atomic step; an event that cannot happen changes nothing. */
  function Step(s: State, e: Event): State
  {
    if !Enabled(s, e) then s
    else
      match e
      case Begin => s.(cmds := s.cmds[s.nextId := Command(Initialized, [], [])], nextId := s.nextId + 1)
      case AddGrain(id, sector, words) => Add(s, id, sector, words)
      case Issue(id) => s.(cmds := s.cmds[id := s.cmds[id].(ioState := DataWriteProg)])
      case Abandon(id) => s.(cache := Unpinned(s.cache, s.cmds[id].metaData), cmds := s.cmds - {id})
      case LandData(id, i, w) =>
        var g := s.cmds[id].writes[i];
        s.(disk := PutWord(s.disk, g.at, w, g.words[w]))
      case DataWriteDone(id) => DataDone(s, id)
      case LandMeta(id, n, p) =>
        var pair := s.cache[s.cmds[id].metaData[n].slot];
        s.(disk := PutWord(s.disk, pair.sectorOffset, p, pair.leaf[p]))
      case MetaDataWriteDone(id) => MetaDone(s, id)
      case ReadLeaf(root) => OldLeaf(s, s.rootEntries[root])
  }

  function Run(s: State, events: seq<Event>): State
    decreases |events|
  {
    if events == [] then s else Step(Run(s, events[..|events| - 1]), events[|events| - 1])
  }
}
