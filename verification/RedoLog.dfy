/** The redo log of cow.c as the code has it: fields updated in place by the write path, the callbacks and
    the cache. Every method is proved to do what the step of the same name in CowState says. */
module RedoLog {
  import opened CowDisk
  import opened CowState
  import opened CowCommands
  import opened CowCache
  import opened CowInvariant
  import opened CowRun
  import opened CowCheck
  import opened CowGrow

  /** The loop over the list stops where FindNode does. */
  lemma {:induction false} FirstNode(md: seq<MetaData>, slot: int, n: nat)
    requires n <= |md| && (forall i :: 0 <= i < n ==> md[i].slot != slot) && (n < |md| ==> md[n].slot == slot)
    ensures FindNode(md, slot) == if n < |md| then n else -1
  {
    if md != [] && n > 0 {
      FirstNode(md[1..], slot, n - 1);
    }
  }

  lemma WithLeafSame(s: State, root: int)
    requires 0 <= root < |s.rootEntries| && CanLookup(s.cache, LeafSector(s, root))
    ensures var s1 := WithLeaf(s, root);
      s1.cmds == s.cmds && s1.granularity == s.granularity && |s1.rootEntries| == |s.rootEntries|
  {
    hide CanLookup, SlotFor, Looked, PutBlock, Zeros;
  }

  lemma Disabled(s: State, h: History, e: Event)
    requires !Enabled(s, e)
    ensures Step(s, e) == s && Track(h, s, e) == h
  {
    hide Enabled;
  }

  class Log {
    const granularity: int
    const rootOffset: int
    const rootEntries: array<int>
    const cache: array<Pair>
    var freeSector: int
    var allocSectors: int
    var cacheTime: nat
    var active: seq<int>
    var ready: seq<int>
    var cmds: map<int, Command>
    var nextId: int
    var disk: Disk
    ghost var history: History

    ghost function Snap(): State
      reads this, rootEntries, cache
    {
      State(granularity, rootOffset, rootEntries[..], freeSector, allocSectors, cache[..], cacheTime, active, ready, cmds, nextId, disk)
    }

    ghost predicate Apart()
    {
      granularity > 0 && rootEntries as object != cache as object
    }

    /** COWOpenFile: the root table is read, the cache is empty. */
    constructor (d: Disk, tableOffset: int, numRootEntries: nat, grain: int, free: int, alloc: int, ghost h: History)
      requires grain > 0
      ensures fresh(rootEntries) && fresh(cache) && Apart()
      ensures Snap() == Open(d, tableOffset, Words(d, tableOffset, numRootEntries), grain, free, alloc) && history == h
    {
      granularity, rootOffset, freeSector, allocSectors := grain, tableOffset, free, alloc;
      rootEntries := new int[numRootEntries](i => At(d, tableOffset, i));
      cache := new Pair[CACHE_ENTRIES](i => Pair(NULL_SECTOR, 0, 0, Zeros(LEAF_ENTRIES)));
      cacheTime, active, ready, cmds, nextId, disk, history := 0, [], [], map[], 0, d, h;
      new;
      hide Zeros, At;
      assert cache[..] == EmptyCache();
      assert rootEntries[..] == Words(d, tableOffset, numRootEntries);
    }

    // ----- COWIncrementFreeSector

    method IncrementFreeSector(increment: int)
      modifies this
      ensures Snap() == Grow(old(Snap()), increment) && history == old(history)
      ensures freeSector == old(freeSector) + increment
      ensures forall a0 :: 0 < increment <= SIZE_INCREMENT && old(allocSectors) == Extended(a0, old(freeSector)) ==>
        allocSectors == Extended(a0, freeSector)
    {
      if freeSector + increment > allocSectors {
        allocSectors := allocSectors + SIZE_INCREMENT;
        freeSector := freeSector + increment;
      } else {
        freeSector := freeSector + increment;
      }
    }

    // ----- COWCacheLookup

    method CacheLookup(offset: int, read: bool) returns (slot: nat)
      requires CanLookup(cache[..], offset)
      modifies this, cache
      ensures slot == SlotFor(old(cache[..]), offset) && slot < cache.Length
      ensures Snap() == old(Snap()).(cacheTime := old(cacheTime) + 1, cache := Looked(old(cache[..]), old(cacheTime) + 1, disk, offset, read))
      ensures history == old(history)
    {
      hide Words;
      cacheTime := cacheTime + 1;
      var lru: int, min: int := -1, -1;
      ghost var c := cache[..];
      for i := 0 to cache.Length
        invariant cache[..] == c && cacheTime == old(cacheTime) + 1
        invariant Find(c, offset) == FindFrom(c, offset, i)
        invariant lru == Victim(c, i) && min == if lru == -1 then -1 else c[lru].lastTouch
        invariant Snap() == old(Snap()).(cacheTime := cacheTime) && history == old(history)
      {
        var pair := cache[i];
        if pair.sectorOffset == offset {
          cache[i] := pair.(lastTouch := cacheTime);
          assert cache[..] == c[i := c[i].(lastTouch := cacheTime)];
          return i;
        }
        if min == -1 || pair.lastTouch < min {
          if pair.numWrites > 0 {
            continue;
          }
          min := pair.lastTouch;
          lru := i;
        }
      }
      slot := lru;
      var pair := cache[slot];
      FindFromIs(c, offset, 0);
      cache[slot] := Pair(offset, 0, cacheTime, if read then Words(disk, offset, LEAF_ENTRIES) else pair.leaf);
      assert cache[..] == c[slot := cache[slot]];
    }

    // ----- COWWriteGetLBNAndMDB

    /** The leaf block of a root entry, in the cache. */
    method GetLeaf(root: nat) returns (slot: nat)
      requires root < rootEntries.Length && Apart() && CanLookup(cache[..], LeafSector(Snap(), root))
      modifies this, rootEntries, cache
      ensures slot == SlotFor(old(cache[..]), LeafSector(old(Snap()), root)) && slot < cache.Length
      ensures Snap() == WithLeaf(old(Snap()), root) && history == old(history)
    {
      hide CanLookup, SlotFor, Looked, PutBlock, Zeros;
      ghost var s := Snap();
      if rootEntries[root] == 0 {
        var leafSector := freeSector;
        IncrementFreeSector(LEAF_SECTORS);
        rootEntries[root] := leafSector;
        assert rootEntries[..] == s.rootEntries[root := leafSector];
        slot := CacheLookup(leafSector, false);
        ghost var c := cache[..];
        cache[slot] := cache[slot].(leaf := Zeros(LEAF_ENTRIES));
        assert cache[..] == c[slot := c[slot].(leaf := Zeros(LEAF_ENTRIES))];
        disk := PutBlock(disk, leafSector, Zeros(LEAF_ENTRIES));
        disk := PutBlock(disk, rootOffset, rootEntries[..]);
      } else {
        slot := CacheLookup(rootEntries[root], true);
      }
    }

    /** COWInsertMetaDataList: the list is searched for the slot's node. */
    method InsertMetaDataList(id: int, slot: nat, sector: int, grainSec: int)
      requires id in cmds && slot < cache.Length
      modifies this, cache
      ensures var cmd := old(cmds[id]);
        Snap() == old(Snap()).(
          cache := Pinned(old(cache[..]), cmd.metaData, slot),
          cmds := old(cmds)[id := cmd.(metaData := Insert(cmd.metaData, slot, MDPair(sector, grainSec)))])
      ensures history == old(history)
    {
      var cmd := cmds[id];
      var n := 0;
      while n < |cmd.metaData| && cmd.metaData[n].slot != slot
        invariant n <= |cmd.metaData| && forall i :: 0 <= i < n ==> cmd.metaData[i].slot != slot
      {
        n := n + 1;
      }
      FirstNode(cmd.metaData, slot, n);
      if n < |cmd.metaData| {
        var m := cmd.metaData[n];
        cmds := cmds[id := cmd.(metaData := cmd.metaData[n := MetaData(slot, m.metaPair + [MDPair(sector, grainSec)])])];
      } else {
        ghost var c := cache[..];
        cache[slot] := cache[slot].(numWrites := cache[slot].numWrites + 1);
        assert cache[..] == c[slot := c[slot].(numWrites := c[slot].numWrites + 1)];
        cmds := cmds[id := cmd.(metaData := [MetaData(slot, [MDPair(sector, grainSec)])] + cmd.metaData)];
      }
    }

    /** The grain of a sector joins a command; lbn is where its data goes. */
    method WriteGetLBNAndMDB(id: int, sector: int, words: seq<int>) returns (lbn: int)
      requires Apart() && AddEnabled(Snap(), id, sector, words)
      modifies this, rootEntries, cache
      ensures Snap() == Add(old(Snap()), id, sector, words)
      ensures id in cmds && cmds[id].writes != [] && cmds[id].writes[|cmds[id].writes| - 1].at == lbn
      ensures history == old(history)
    {
      hide CanLookup, SlotFor, LeafSector, WithLeaf, Insert, Pinned, InFlight;
      ghost var s := Snap();
      var grain := sector / granularity;
      var rootIdx := grain / LEAF_ENTRIES;
      var leafPos := grain % LEAF_ENTRIES;
      var slot := GetLeaf(rootIdx);
      ghost var s1 := Snap();
      WithLeafSame(s, rootIdx);
      var leaf := cache[slot].leaf;
      var entry := if leafPos < |leaf| then leaf[leafPos] else 0;
      if entry == 0 {
        var grainSec := freeSector;
        IncrementFreeSector(granularity);
        lbn := grainSec + sector % granularity;
        InsertMetaDataList(id, slot, sector, grainSec);
      } else {
        lbn := entry + sector % granularity;
      }
      cmds := cmds[id := cmds[id].(writes := cmds[id].writes + [GrainWrite(ToGrain(granularity, sector), lbn, words)])];
      assert Snap() == AddWrite(s1, id, slot, sector, words);
    }

    // ----- COWUpdateCache, COWWriteMetaDataInfo

    method UpdateCache(id: int)
      requires id in cmds && Apart()
      modifies cache
      ensures Snap() == old(Snap()).(cache := CowState.UpdateCache(old(cache[..]), granularity, cmds[id].metaData))
    {
      hide ToGrain;
      var md := cmds[id].metaData;
      ghost var c := cache[..];
      for n := 0 to |md|
        invariant cache[..] == CowState.UpdateCache(c, granularity, md[..n])
      {
        var mdPair := md[n].metaPair;
        ghost var c1 := cache[..];
        for i := 0 to |mdPair|
          invariant cache[..] == SetPairs(c1, granularity, md[n].slot, mdPair[..i])
        {
          ghost var c2 := cache[..];
          var slot := md[n].slot;
          var leafPos := ToGrain(granularity, mdPair[i].sector).pos;
          if 0 <= slot < cache.Length && 0 <= leafPos < |cache[slot].leaf| {
            cache[slot] := cache[slot].(leaf := cache[slot].leaf[leafPos := mdPair[i].metaSector]);
            assert cache[..] == c2[slot := cache[slot]];
          }
          assert mdPair[..i + 1][..i] == mdPair[..i];
        }
        assert mdPair[..|mdPair|] == mdPair;
        assert md[..n + 1][..n] == md[..n];
      }
      assert md[..|md|] == md;
    }

    /** The cache is updated and the metadata write issued. */
    method WriteMetaDataInfo(id: int)
      requires id in cmds && Apart()
      modifies this, cache
      ensures Snap() == StartMeta(old(Snap()), id) && history == old(history)
    {
      hide CowState.UpdateCache;
      UpdateCache(id);
      cmds := cmds[id := cmds[id].(ioState := MetaDataWriteProg)];
    }

    // ----- the queues

    /** ready emptied into an empty active, one command at a time. */
    method MoveReady()
      modifies this
      ensures Snap() == Moved(old(Snap())) && history == old(history)
    {
      if active == [] {
        ghost var s := Snap();
        while ready != []
          invariant active + ready == s.ready
          invariant Snap() == s.(active := active, ready := ready) && history == old(history)
          decreases |ready|
        {
          var cowCmd := ready[0];
          ready := ready[1..];
          active := active + [cowCmd];
        }
        assert active == s.ready;
      }
    }

    // ----- COWAsyncWriteDone

    method AsyncWriteDone(id: int)
      requires Apart() && id in cmds
      modifies this, cache
      ensures Snap() == DataDone(old(Snap()), id) && history == old(history)
    {
      if cmds[id].metaData == [] {
        cmds := cmds - {id};
        return;
      }
      ready := ready + [id];
      cmds := cmds[id := cmds[id].(ioState := WaitingForMdio)];
      if active == [] {
        MoveReady();
      } else {
        return;
      }
      hide StartMeta;
      ghost var s := Snap();
      var i := 0;
      while i < |active| && active[i] in cmds && cmds[active[i]].ioState == WaitingForMdio
        invariant i <= |active| && active == s.active && StartFrom(s, 0) == StartFrom(Snap(), i) && history == old(history)
        decreases |active| - i
      {
        WriteMetaDataInfo(active[i]);
        i := i + 1;
      }
    }

    // ----- COWCompleteCommand, COWAsyncMetaDataWriteDone

    method DestroyMetaDataInfo(md: seq<MetaData>)
      modifies cache
      ensures cache[..] == Unpinned(old(cache[..]), md)
    {
      ghost var c := cache[..];
      for n := 0 to |md|
        invariant cache[..] == Unpinned(c, md[..n])
      {
        var slot := md[n].slot;
        ghost var c1 := cache[..];
        assert md[..n + 1][..n] == md[..n];
        if 0 <= slot < cache.Length {
          cache[slot] := cache[slot].(numWrites := cache[slot].numWrites - 1);
          assert cache[..] == c1[slot := cache[slot]];
        }
      }
      assert md[..|md|] == md;
    }

    method RemoveFromActive(id: int)
      modifies this
      ensures Snap() == old(Snap()).(active := Without(old(active), id)) && history == old(history)
    {
      var i := 0;
      while i < |active| && active[i] != id
        invariant i <= |active| && Without(active, id) == active[..i] + Without(active[i..], id)
      {
        assert active[i..][1..] == active[i + 1..];
        i := i + 1;
      }
      if i < |active| {
        assert active[i..][1..] == active[i + 1..];
        active := active[..i] + active[i + 1..];
      }
    }

    method CompleteCommand(id: int)
      requires id in cmds
      modifies this, cache
      ensures Snap() == Complete(old(Snap()), id) && history == old(history)
    {
      hide Unpinned, Without;
      RemoveFromActive(id);
      DestroyMetaDataInfo(cmds[id].metaData);
      cmds := cmds - {id};
    }

    method AsyncMetaDataWriteDone(id: int)
      requires id in cmds && Apart()
      modifies this, cache
      ensures Snap() == MetaDone(old(Snap()), id) && history == old(history)
    {
      hide Complete, StartMeta;
      CompleteCommand(id);
      MoveReady();
      if active != [] && active[0] in cmds && cmds[active[0]].ioState == WaitingForMdio {
        WriteMetaDataInfo(active[0]);
      }
    }

    // ----- COWReadGetLBNAndFID, for one redo log

    /** The leaf entry of a sector's grain, 0 if the log has none; a block in use by a write is waited for. */
    method ReadEntry(sector: int) returns (entry: int)
      requires Apart()
      requires var root := ToGrain(granularity, sector).root;
        0 <= root < rootEntries.Length && (rootEntries[root] != 0 ==> ReadEnabled(Snap(), root))
      modifies this, cache
      ensures var g := ToGrain(granularity, sector); var s := old(Snap());
        if s.rootEntries[g.root] == 0 then Snap() == s && entry == 0
        else Snap() == OldLeaf(s, s.rootEntries[g.root]) && entry == Entry(Snap(), SlotFor(s.cache, s.rootEntries[g.root]), g.pos)
      ensures history == old(history)
    {
      hide CanLookup, SlotFor, Looked;
      var g := ToGrain(granularity, sector);
      if rootEntries[g.root] == 0 {
        return 0;
      }
      var slot := CacheLookup(rootEntries[g.root], true);
      entry := if 0 <= g.pos < |cache[slot].leaf| then cache[slot].leaf[g.pos] else 0;
    }

    // ----- steps and runs

    /** One step: a call of the write path, a callback, a read, or a word reaching the disk. */
    method Do(e: Event)
      requires Apart() && Enabled(Snap(), e)
      modifies this, rootEntries, cache
      ensures Snap() == Step(old(Snap()), e)
      ensures history == Track(old(history), old(Snap()), e)
    {
      hide CanLookup, SlotFor, Looked, InFlight, Unpinned, AddEnabled, Add, DataDone, MetaDone, DataLanded, MetaLanded, PutWord, Track, ToGrain;
      ghost var h := Track(history, Snap(), e);
      match e {
        case Begin =>
          cmds, nextId := cmds[nextId := Command(Initialized, [], [])], nextId + 1;
        case AddGrain(id, sector, words) =>
          var lbn := WriteGetLBNAndMDB(id, sector, words);
        case Issue(id) =>
          cmds := cmds[id := cmds[id].(ioState := DataWriteProg)];
        case Abandon(id) =>
          DestroyMetaDataInfo(cmds[id].metaData);
          cmds := cmds - {id};
        case LandData(id, i, w) =>
          var g := cmds[id].writes[i];
          disk := PutWord(disk, g.at, w, g.words[w]);
        case DataWriteDone(id) =>
          AsyncWriteDone(id);
        case LandMeta(id, n, p) =>
          var pair := cache[cmds[id].metaData[n].slot];
          disk := PutWord(disk, pair.sectorOffset, p, pair.leaf[p]);
        case MetaDataWriteDone(id) =>
          AsyncMetaDataWriteDone(id);
        case ReadLeaf(root) =>
          var slot := CacheLookup(rootEntries[root], true);
      }
      history := h;
    }

    /** Any run of steps, those that cannot happen left out. Afterwards the invariant holds, and a grain no
        issued command is writing resolves, on disk, to the last completed write to it. */
    method Execute(events: seq<Event>)
      requires Apart() && Inv(Snap(), history)
      modifies this, rootEntries, cache
      ensures Snap() == Run(old(Snap()), events) && history == RunHistory(old(history), old(Snap()), events)
      ensures Inv(Snap(), history)
      ensures forall g :: IsGrain(g, rootEntries.Length) && !Busy(cmds, g) ==>
        Resolve(disk, rootOffset, granularity, g) == LastWrite(history.initial, history.completed, g)
      ensures Compact(Snap(), history, old(freeSector), old(allocSectors))
    {
      hide Inv, Step, Track, Resolve, LastWrite, Busy, IsGrain, Compact;
      ghost var s, h := Snap(), history;
      for i := 0 to |events|
        invariant Snap() == Run(s, events[..i]) && history == RunHistory(h, s, events[..i])
      {
        assert events[..i + 1][..i] == events[..i];
        var enabled := CanDo(events[i]);
        if enabled {
          Do(events[i]);
        } else {
          Disabled(Snap(), history, events[i]);
        }
      }
      assert events[..|events|] == events;
      RunInv(s, h, events);
      RunCompact(s, h, events);
      Contents(Snap(), history);
    }

    method CanDo(e: Event) returns (enabled: bool)
      ensures enabled == Enabled(Snap(), e)
    {
      enabled := Enabled(
        State(granularity, rootOffset, rootEntries[..], freeSector, allocSectors, cache[..], cacheTime, active, ready, cmds, nextId, disk), e);
    }
  }
}
