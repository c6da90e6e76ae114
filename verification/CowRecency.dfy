/** The cache of leaf blocks is replaced least recently used first: what the touch times of the slots mean
    over whole runs. */
module CowRecency {
  import opened CowDisk
  import opened CowState
  import opened CowCommands
  import opened CowCache
  import CowCheck

  /** The slot a step looks up, if any. */
  function Used(s: State, e: Event): seq<nat>
  {
    if !Enabled(s, e) then []
    else
      match e
      case AddGrain(id, sector, words) => [SlotFor(s.cache, LeafSector(s, ToGrain(s.granularity, sector).root))]
      case ReadLeaf(root) => [SlotFor(s.cache, s.rootEntries[root])]
      case _ => []
  }

  /** The slots looked up in a run, in order. */
  function Trace(s: State, events: seq<Event>): seq<nat>
    decreases |events|
  {
    if events == [] then []
    else
      var front := events[..|events| - 1];
      Trace(s, front) + Used(Run(s, front), events[|events| - 1])
  }

  /** Where in the trace the slot was looked up last; -1 if never. */
  function LastUse(trace: seq<nat>, slot: nat): (u: int)
    ensures -1 <= u < |trace| && (u >= 0 ==> trace[u] == slot) && forall i :: u < i < |trace| ==> trace[i] != slot
  {
    if trace == [] then -1
    else if trace[|trace| - 1] == slot then |trace| - 1
    else LastUse(trace[..|trace| - 1], slot)
  }

  /** The time is the number of lookups, and every slot carries the time of its last one. */
  ghost predicate Stamped(s: State, trace: seq<nat>)
  {
    s.cacheTime == |trace| && forall i :: 0 <= i < |s.cache| ==> s.cache[i].lastTouch == LastUse(trace, i) + 1
  }

  ghost predicate SameStamps(s: State, s': State)
  {
    && s'.cacheTime == s.cacheTime && |s'.cache| == |s.cache| && s'.granularity == s.granularity
    && forall i :: 0 <= i < |s.cache| ==> s'.cache[i].lastTouch == s.cache[i].lastTouch
  }

  lemma {:induction false} SetPairsStamps(cache: seq<Pair>, granularity: int, slot: int, pairs: seq<MDPair>)
    requires granularity > 0
    ensures var c := SetPairs(cache, granularity, slot, pairs);
      |c| == |cache| && forall i :: 0 <= i < |cache| ==> c[i].lastTouch == cache[i].lastTouch
    decreases |pairs|
  {
    if pairs != [] {
      SetPairsStamps(cache, granularity, slot, pairs[..|pairs| - 1]);
    }
  }

  lemma {:induction false} UpdateStamps(cache: seq<Pair>, granularity: int, md: seq<MetaData>)
    requires granularity > 0
    ensures var c := UpdateCache(cache, granularity, md);
      |c| == |cache| && forall i :: 0 <= i < |cache| ==> c[i].lastTouch == cache[i].lastTouch
    decreases |md|
  {
    hide SetPairs;
    if md != [] {
      UpdateStamps(cache, granularity, md[..|md| - 1]);
      var m := md[|md| - 1];
      SetPairsStamps(UpdateCache(cache, granularity, md[..|md| - 1]), granularity, m.slot, m.metaPair);
    }
  }

  lemma StartMetaStamps(s: State, id: int)
    requires s.granularity > 0 && id in s.cmds
    ensures SameStamps(s, StartMeta(s, id))
  {
    hide UpdateCache;
    UpdateStamps(s.cache, s.granularity, s.cmds[id].metaData);
  }

  lemma {:induction false} StartStamps(s: State, i: nat)
    requires s.granularity > 0 && i <= |s.active|
    ensures SameStamps(s, StartFrom(s, i))
    decreases |s.active| - i
  {
    hide UpdateCache;
    if i < |s.active| && IsWaiting(s, s.active[i]) {
      StartMetaStamps(s, s.active[i]);
      StartStamps(StartMeta(s, s.active[i]), i + 1);
    }
  }

  lemma {:induction false} UnpinnedStamps(cache: seq<Pair>, md: seq<MetaData>)
    ensures var c := Unpinned(cache, md);
      |c| == |cache| && forall i :: 0 <= i < |cache| ==> c[i].lastTouch == cache[i].lastTouch
    decreases |md|
  {
    if md != [] {
      UnpinnedStamps(cache, md[..|md| - 1]);
    }
  }

  lemma DataStamps(s: State, id: int)
    requires s.granularity > 0 && id in s.cmds
    ensures SameStamps(s, DataDone(s, id))
  {
    if s.cmds[id].metaData != [] && s.active == [] {
      StartStamps(Moved(Enqueued(s, id)), 0);
    }
  }

  lemma MetaStamps(s: State, id: int)
    requires s.granularity > 0 && id in s.cmds
    ensures SameStamps(s, MetaDone(s, id))
  {
    hide UpdateCache, Unpinned;
    UnpinnedStamps(s.cache, s.cmds[id].metaData);
    var s1 := Moved(Complete(s, id));
    if s1.active != [] && IsWaiting(s1, s1.active[0]) {
      StartMetaStamps(s1, s1.active[0]);
    }
  }

  lemma AddStamps(s: State, id: int, slot: int, sector: int, words: seq<int>)
    requires s.granularity > 0 && id in s.cmds
    ensures SameStamps(s, AddWrite(s, id, slot, sector, words))
  {
  }

  lemma NoUse(trace: seq<nat>, slot: nat)
    ensures LastUse(trace + [slot], slot) == |trace|
    ensures forall i: nat :: i != slot ==> LastUse(trace + [slot], i) == LastUse(trace, i)
  {
    assert (trace + [slot])[..|trace|] == trace;
  }

  /** A lookup stamps its slot, and no other. */
  lemma LookedStamps(s: State, sector: int, read: bool, trace: seq<nat>, s': State)
    requires Stamped(s, trace) && CanLookup(s.cache, sector) && s'.cacheTime == s.cacheTime + 1 && |s'.cache| == |s.cache|
    requires var c := Looked(s.cache, s.cacheTime + 1, s.disk, sector, read);
      forall i :: 0 <= i < |s.cache| ==> s'.cache[i].lastTouch == c[i].lastTouch
    ensures Stamped(s', trace + [SlotFor(s.cache, sector)])
  {
    hide LastUse;
    var slot := SlotFor(s.cache, sector);
    LookedIs(s.cache, s.cacheTime + 1, s.disk, sector, read);
    NoUse(trace, slot);
  }

  lemma SameStamped(s: State, s': State, trace: seq<nat>)
    requires Stamped(s, trace) && SameStamps(s, s')
    ensures Stamped(s', trace)
  {
  }

  lemma StepStamped(s: State, e: Event, trace: seq<nat>)
    requires Stamped(s, trace)
    ensures Stamped(Step(s, e), trace + Used(s, e))
  {
    hide LastUse, Stamped, SameStamps, Looked, CanLookup, SlotFor, DataDone, MetaDone, AddWrite, Unpinned, AddEnabled;
    assert trace + [] == trace;
    if !Enabled(s, e) {
    } else {
      match e
      case AddGrain(id, sector, words) =>
        AddStamped(s, id, sector, words, trace);
      case ReadLeaf(root) =>
        OldLeafStamped(s, s.rootEntries[root], trace);
      case DataWriteDone(id) =>
        DataStamps(s, id);
        SameStamped(s, Step(s, e), trace);
      case MetaDataWriteDone(id) =>
        MetaStamps(s, id);
        SameStamped(s, Step(s, e), trace);
      case Abandon(id) =>
        AbandonStamps(s, id);
        SameStamped(s, Step(s, e), trace);
      case _ =>
        OtherStamps(s, e);
        SameStamped(s, Step(s, e), trace);
    }
  }

  lemma OtherStamps(s: State, e: Event)
    requires e.Begin? || e.Issue? || e.LandData? || e.LandMeta?
    ensures SameStamps(s, Step(s, e))
  {
  }

  lemma AbandonStamps(s: State, id: int)
    requires Enabled(s, Abandon(id))
    ensures SameStamps(s, Step(s, Abandon(id)))
  {
    UnpinnedStamps(s.cache, s.cmds[id].metaData);
  }

  lemma OldLeafStamped(s: State, sector: int, trace: seq<nat>)
    requires Stamped(s, trace) && CanLookup(s.cache, sector)
    ensures Stamped(OldLeaf(s, sector), trace + [SlotFor(s.cache, sector)])
  {
    hide Stamped, CanLookup, SlotFor;
    LookedStamps(s, sector, true, trace, OldLeaf(s, sector));
  }

  lemma NewLeafStamped(s: State, root: int, trace: seq<nat>)
    requires Stamped(s, trace) && 0 <= root < |s.rootEntries| && CanLookup(s.cache, s.freeSector)
    ensures Stamped(NewLeaf(s, root), trace + [SlotFor(s.cache, s.freeSector)])
  {
    hide Stamped, CanLookup, SlotFor;
    LookedStamps(s, s.freeSector, false, trace, NewLeaf(s, root));
  }

  lemma AddStamped(s: State, id: int, sector: int, words: seq<int>, trace: seq<nat>)
    requires Stamped(s, trace) && AddEnabled(s, id, sector, words)
    ensures Stamped(Add(s, id, sector, words), trace + [SlotFor(s.cache, LeafSector(s, ToGrain(s.granularity, sector).root))])
  {
    hide Stamped, CanLookup, SlotFor, Looked, AddWrite, SameStamps;
    var root := ToGrain(s.granularity, sector).root;
    if s.rootEntries[root] == 0 {
      NewLeafStamped(s, root, trace);
    } else {
      OldLeafStamped(s, s.rootEntries[root], trace);
    }
    var s1 := WithLeaf(s, root);
    AddStamps(s1, id, SlotFor(s.cache, LeafSector(s, root)), sector, words);
    SameStamped(s1, Add(s, id, sector, words), trace + [SlotFor(s.cache, LeafSector(s, root))]);
  }

  /** In a log just opened no slot was looked up. */
  lemma OpenStamped(d: Disk, rootOffset: int, roots: seq<int>, granularity: int, freeSector: int, allocSectors: int)
    ensures Stamped(CowCheck.Open(d, rootOffset, roots, granularity, freeSector, allocSectors), [])
  {
    hide Zeros;
  }

  /** After any run the stamps tell the last lookups. */
  lemma {:induction false} RunStamped(s: State, events: seq<Event>)
    requires Stamped(s, [])
    ensures Stamped(Run(s, events), Trace(s, events))
    decreases |events|
  {
    hide Stamped, Step, Used;
    if events != [] {
      var front := events[..|events| - 1];
      RunStamped(s, front);
      StepStamped(Run(s, front), events[|events| - 1], Trace(s, front));
    }
  }

  /** A block that is not cached takes the unpinned slot that has not been looked up for the longest time;
      of slots never looked up, the first. */
  lemma LeastRecent(s: State, events: seq<Event>, sector: int)
    requires Stamped(s, []) && CanLookup(Run(s, events).cache, sector)
    ensures var c, trace := Run(s, events).cache, Trace(s, events);
      var slot := SlotFor(c, sector);
      c[slot].sectorOffset == sector ||
      (c[slot].numWrites <= 0 && forall i :: 0 <= i < |c| && i != slot && c[i].numWrites <= 0 ==>
         LastUse(trace, slot) < LastUse(trace, i) || (LastUse(trace, slot) == LastUse(trace, i) == -1 && slot < i))
  {
    hide Run, Trace, LastUse;
    RunStamped(s, events);
    var c := Run(s, events).cache;
    FindFromIs(c, sector, 0);
    VictimIs(c, |c|);
  }
}
