/** A disk made of a stack of redo logs over a base: which file and sector a read goes to. */
module CowStack {
  import opened CowDisk
  import opened CowState
  import opened CowCache
  import opened CowInvariant
  import opened CowRun
  import opened RedoLog

  /** Where a sector's data is: in redo log level (1 is the lowest), in the base, nowhere, or an error. */
  datatype Where = InLog(level: nat, lbn: int) | InBase(lbn: int) | NullSector | Failed

  /** The search from level k down: the first log that has the grain. */
  ghost function Locate(stack: seq<State>, sparse: bool, k: nat, sector: int): Where
    requires k <= |stack| && forall i :: 0 <= i < |stack| ==> stack[i].granularity > 0
    decreases k
  {
    if k == 0 then (if sparse then NullSector else InBase(sector))
    else
      var s := stack[k - 1];
      var g := ToGrain(s.granularity, sector);
      if !(0 <= g.root < |s.rootEntries|) then Failed
      else
        var e := DiskEntry(s, g);
        if e == 0 then Locate(stack, sparse, k - 1, sector) else InLog(k, e + sector % s.granularity)
  }

  /** The entry of a grain by the tables on disk, 0 if there is none. */
  ghost function DiskEntry(s: State, g: Grain): int
  {
    var r := At(s.disk, s.rootOffset, g.root);
    if r == 0 then 0 else At(s.disk, r, g.pos)
  }

  /** A log a read can go through: sound, and not pinned at the sector's leaf block. */
  ghost predicate Ready(log: Log, sector: int)
    reads log, log.rootEntries, log.cache
  {
    && log.Apart() && Inv(log.Snap(), log.history)
    && var root := ToGrain(log.granularity, sector).root;
    && (0 <= root < log.rootEntries.Length && log.rootEntries[root] != 0 ==> ReadEnabled(log.Snap(), root))
  }

  ghost predicate Separate(logs: seq<Log>)
  {
    forall i, j :: 0 <= i < j < |logs| ==>
      && logs[i] != logs[j] && logs[i].rootEntries != logs[j].rootEntries && logs[i].cache != logs[j].cache
      && logs[i].rootEntries as object != logs[j].cache as object && logs[i].cache as object != logs[j].rootEntries as object
  }

  ghost function Objects(logs: seq<Log>): set<object>
  {
    set i | 0 <= i < |logs| :: logs[i] as object
  }

  ghost function Caches(logs: seq<Log>): set<object>
  {
    set i | 0 <= i < |logs| :: logs[i].cache as object
  }

  ghost function Tables(logs: seq<Log>): set<object>
  {
    set i | 0 <= i < |logs| :: logs[i].rootEntries as object
  }

  lemma EntryRead(s: State, h: History, g: Grain)
    requires Inv(s, h) && IsGrain(g, |s.rootEntries|) && (s.rootEntries[g.root] != 0 ==> ReadEnabled(s, g.root))
    ensures DiskEntry(s, g)
      == if s.rootEntries[g.root] == 0 then 0
         else Entry(OldLeaf(s, s.rootEntries[g.root]), SlotFor(s.cache, s.rootEntries[g.root]), g.pos)
  {
    hide Inv, At, CanLookup, SlotFor, OldLeaf, Entry;
    RootAt(s, h, g.root);
    if s.rootEntries[g.root] != 0 {
      ReadEntryIs(s, h, g);
    }
  }

  /** A log as it was, ready to be read. */
  ghost predicate Holds(log: Log, s: State, h: History, sector: int)
    reads log, log.rootEntries, log.cache
  {
    Ready(log, sector) && log.Snap() == s && log.history == h
  }

  /** What a read keeps of a log: everything but its cache, and the invariant. */
  ghost predicate Still(log: Log, s: State, h: History)
    reads log, log.rootEntries, log.cache
  {
    log.history == h && log.disk == s.disk && log.cmds == s.cmds && Inv(log.Snap(), h)
  }

  ghost predicate Matches(logs: seq<Log>, stack: seq<State>, hs: seq<History>, k: int, sector: int)
    reads Objects(logs), Tables(logs), Caches(logs)
  {
    && |stack| == |hs| == |logs|
    && (forall i :: 0 <= i < |logs| ==> stack[i].granularity == logs[i].granularity > 0 && |stack[i].rootEntries| == logs[i].rootEntries.Length)
    && (forall i :: 0 <= i < k <= |logs| ==> Holds(logs[i], stack[i], hs[i], sector))
    && (forall i :: 0 <= i < |logs| && k <= i ==> Still(logs[i], stack[i], hs[i]))
  }

  /** COWReadGetLBNAndFID: the levels from the top down, then the base. Every log keeps its invariant and
      its contents; only its cache may change. */
  method ReadGetLBNAndFID(logs: seq<Log>, sparse: bool, sector: int, ghost stack: seq<State>, ghost hs: seq<History>) returns (r: Where)
    requires sector >= 0 && Separate(logs) && Matches(logs, stack, hs, |logs|, sector)
    modifies Objects(logs), Caches(logs)
    ensures forall i :: 0 <= i < |stack| ==> stack[i].granularity > 0
    ensures |stack| == |logs| && r == Locate(stack, sparse, |logs|, sector)
    ensures |hs| == |logs| && forall i :: 0 <= i < |logs| ==> Still(logs[i], stack[i], hs[i])
  {
    hide DiskEntry, ToGrain, Holds, Still;
    var index := |logs|;
    while index > 0
      invariant 0 <= index <= |logs| && Matches(logs, stack, hs, index, sector)
      invariant Locate(stack, sparse, |logs|, sector) == Locate(stack, sparse, index, sector)
    {
      var log := logs[index - 1];
      var rootIdx := ToGrain(log.granularity, sector).root;
      if rootIdx < 0 || rootIdx >= log.rootEntries.Length {
        r := Failed;
        AllStill(logs, stack, hs, index, sector);
        return;
      }
      var entry := ReadAt(logs, stack, hs, index - 1, sector);
      if entry != 0 {
        r := InLog(index, entry + sector % log.granularity);
        AllStill(logs, stack, hs, index - 1, sector);
        return;
      }
      index := index - 1;
    }
    r := if sparse then NullSector else InBase(sector);
  }

  lemma AllStill(logs: seq<Log>, stack: seq<State>, hs: seq<History>, k: int, sector: int)
    requires 0 <= k <= |logs| && Matches(logs, stack, hs, k, sector)
    ensures forall i :: 0 <= i < |logs| ==> Still(logs[i], stack[i], hs[i])
  {
    hide Inv, ReadEnabled;
    forall i | 0 <= i < |logs| ensures Still(logs[i], stack[i], hs[i]) {
      if i < k {
        assert Holds(logs[i], stack[i], hs[i], sector);
      }
    }
  }

  /** The search at one level, seen from the stack: the other logs are as they were. */
  method ReadAt(logs: seq<Log>, ghost stack: seq<State>, ghost hs: seq<History>, k: nat, sector: int) returns (entry: int)
    requires k < |logs| && sector >= 0 && Separate(logs) && Matches(logs, stack, hs, k + 1, sector)
    requires 0 <= ToGrain(logs[k].granularity, sector).root < logs[k].rootEntries.Length
    modifies logs[k], logs[k].cache
    ensures entry == DiskEntry(stack[k], ToGrain(logs[k].granularity, sector))
    ensures Matches(logs, stack, hs, k, sector)
  {
    hide Inv, DiskEntry, ToGrain, Ready;
    assert Holds(logs[k], stack[k], hs[k], sector);
    entry := ReadLevel(logs[k], sector);
    forall i | 0 <= i < |logs| && i != k
      ensures logs[i] != logs[k] && logs[i].rootEntries as object != logs[k].cache as object && logs[i].cache != logs[k].cache
      ensures logs[i].cache as object != logs[k] as object
    {
    }
    forall i | 0 <= i < k ensures Holds(logs[i], stack[i], hs[i], sector) {
      assert old(Holds(logs[i], stack[i], hs[i], sector));
    }
    forall i | k < i < |logs| ensures Still(logs[i], stack[i], hs[i]) {
      assert old(Still(logs[i], stack[i], hs[i]));
    }
  }

  method ReadLevel(log: Log, sector: int) returns (entry: int)
    requires sector >= 0 && Ready(log, sector) && 0 <= ToGrain(log.granularity, sector).root < log.rootEntries.Length
    modifies log, log.cache
    ensures entry == DiskEntry(old(log.Snap()), ToGrain(log.granularity, sector))
    ensures Inv(log.Snap(), log.history) && log.history == old(log.history) && log.disk == old(log.disk) && log.cmds == old(log.cmds)
  {
    hide Inv, OldLeaf, Entry, CanLookup, SlotFor, DiskEntry, Track;
    ghost var s, h := log.Snap(), log.history;
    var g := ToGrain(log.granularity, sector);
    EntryRead(s, h, g);
    if log.rootEntries[g.root] != 0 {
      StepInv(s, h, ReadLeaf(g.root));
      ReadTrack(s, h, g.root);
    }
    entry := log.ReadEntry(sector);
    assert log.disk == s.disk && log.cmds == s.cmds by { OldLeafSame(s, g.root); }
  }

  lemma ReadTrack(s: State, h: History, root: int)
    requires ReadEnabled(s, root)
    ensures Track(h, s, ReadLeaf(root)) == h && Step(s, ReadLeaf(root)) == OldLeaf(s, s.rootEntries[root])
  {
    hide OldLeaf, CanLookup, SlotFor;
  }

  lemma OldLeafSame(s: State, root: int)
    requires 0 <= root < |s.rootEntries| && (s.rootEntries[root] != 0 ==> ReadEnabled(s, root))
    ensures s.rootEntries[root] != 0 ==> var s' := OldLeaf(s, s.rootEntries[root]); s'.disk == s.disk && s'.cmds == s.cmds
  {
    hide CanLookup, SlotFor, Looked;
  }

  // ----- the layered map

  /** The words at a location: of a log's file, of the flat base, or zeroes. */
  ghost function Fetch(stack: seq<State>, base: Disk, r: Where, n: nat): Content
    requires r.InLog? ==> 0 < r.level <= |stack|
  {
    match r
    case InLog(k, lbn) => Present(Words(stack[k - 1].disk, lbn, n))
    case InBase(lbn) => Present(Words(base, lbn, n))
    case NullSector => Present(Zeros(n))
    case Failed => Absent
  }

  /** The simple thing: the last write of the topmost level that has one, over the base. */
  ghost function Layered(hs: seq<History>, bottom: seq<int>, k: nat, g: Grain): Content
    requires k <= |hs|
    decreases k
  {
    if k == 0 then Present(bottom)
    else
      var c := LastWrite(hs[k - 1].initial, hs[k - 1].completed, g);
      if c.Present? then c else Layered(hs, bottom, k - 1, g)
  }

  lemma EntryContent(s: State, h: History, g: Grain)
    requires Inv(s, h) && IsGrain(g, |s.rootEntries|) && !Busy(s.cmds, g)
    ensures s.granularity > 0
    ensures LastWrite(h.initial, h.completed, g)
      == if DiskEntry(s, g) == 0 then Absent else Present(Words(s.disk, DiskEntry(s, g), SECTOR_WORDS * s.granularity))
  {
    hide Inv, At, Words, LastWrite, Busy;
    Contents(s, h);
    Positive(s, h);
  }

  lemma Positive(s: State, h: History)
    requires Inv(s, h)
    ensures s.granularity > 0
  {
    hide RootsOk, LeavesOk, FinishedOk, CacheOk, MirrorOk, PinsOk, QueueOk, ContentOk, CmdsOk, ApartOk;
  }

  /** Where a read goes is where the layered map's value is: for every grain that no issued command of any
      level is writing, the data fetched is the last completed write of the topmost level that has one, and
      otherwise the base's. */
  lemma {:induction false} ReadIsLayered(stack: seq<State>, hs: seq<History>, base: Disk, sparse: bool, granularity: nat, k: nat, sector: int)
    requires granularity > 0 && |hs| == |stack| && k <= |stack| && sector >= 0 && sector % granularity == 0
    requires forall i :: 0 <= i < |stack| ==> stack[i].granularity == granularity && Inv(stack[i], hs[i])
    requires var g := ToGrain(granularity, sector);
      forall i :: 0 <= i < k ==> IsGrain(g, |stack[i].rootEntries|) && !Busy(stack[i].cmds, g)
    ensures var n := SECTOR_WORDS * granularity; var r := Locate(stack, sparse, k, sector);
      && (r.InLog? ==> 0 < r.level <= |stack|)
      && Fetch(stack, base, r, n) == Layered(hs, if sparse then Zeros(n) else Words(base, sector, n), k, ToGrain(granularity, sector))
    decreases k
  {
    hide Inv, Words, LastWrite, Busy, DiskEntry, ToGrain, Zeros;
    if k > 0 {
      var g := ToGrain(granularity, sector);
      assert IsGrain(g, |stack[k - 1].rootEntries|) && !Busy(stack[k - 1].cmds, g);
      EntryContent(stack[k - 1], hs[k - 1], g);
      if DiskEntry(stack[k - 1], g) == 0 {
        ReadIsLayered(stack, hs, base, sparse, granularity, k - 1, sector);
      }
    }
  }

  /** A sector past the end of a level's root table is an error, whatever the lower levels hold. */
  lemma PastTable(stack: seq<State>, sparse: bool, k: nat, sector: int)
    requires 0 < k <= |stack| && forall i :: 0 <= i < |stack| ==> stack[i].granularity > 0
    requires sector >= 0 && |stack[k - 1].rootEntries| * LEAF_ENTRIES <= sector / stack[k - 1].granularity
    ensures Locate(stack, sparse, k, sector) == Failed
  {
    hide DiskEntry;
    var s := stack[k - 1];
    TableEnd(|s.rootEntries|, sector / s.granularity);
  }

  lemma TableEnd(roots: nat, grain: int)
    requires roots * LEAF_ENTRIES <= grain
    ensures grain / LEAF_ENTRIES >= roots
  {
  }
}
