/** COWCacheLookup: what a lookup finds, evicts and leaves alone. */
module CowCache {
  import opened CowDisk
  import opened CowState

  lemma {:induction false} FindFromIs(cache: seq<Pair>, sector: int, from: nat)
    requires from <= |cache|
    ensures var f := FindFrom(cache, sector, from);
      if f < 0 then forall i :: from <= i < |cache| ==> cache[i].sectorOffset != sector
      else from <= f < |cache| && cache[f].sectorOffset == sector
    decreases |cache| - from
  {
    if from < |cache| && cache[from].sectorOffset != sector {
      FindFromIs(cache, sector, from + 1);
    }
  }

  /** The victim is unpinned, the least recently touched of the unpinned entries and the first of those;
      there is none only when every entry is pinned. */
  lemma {:induction false} VictimIs(cache: seq<Pair>, n: nat)
    requires n <= |cache|
    ensures var v := Victim(cache, n);
      if v < 0 then forall i :: 0 <= i < n ==> cache[i].numWrites > 0
      else
        && v < n && cache[v].numWrites <= 0
        && (forall i :: 0 <= i < n && cache[i].numWrites <= 0 ==> cache[v].lastTouch <= cache[i].lastTouch)
        && (forall i :: 0 <= i < v && cache[i].numWrites <= 0 ==> cache[v].lastTouch < cache[i].lastTouch)
  {
    if n > 0 {
      VictimIs(cache, n - 1);
    }
  }

  /** A pinned entry survives a lookup with its block, its pin count and its contents. */
  lemma LookedIs(cache: seq<Pair>, time: nat, d: Disk, sector: int, read: bool)
    requires CanLookup(cache, sector)
    ensures var c' := Looked(cache, time, d, sector, read); var slot := SlotFor(cache, sector);
      && |c'| == |cache| && c'[slot].sectorOffset == sector && c'[slot].lastTouch == time
      && (forall i :: 0 <= i < |cache| && i != slot ==> c'[i] == cache[i])
      && (forall i :: 0 <= i < |cache| && cache[i].numWrites > 0 ==> c'[i] == cache[i].(lastTouch := c'[i].lastTouch))
      && (cache[slot].sectorOffset == sector ==> c'[slot] == cache[slot].(lastTouch := time))
      && (cache[slot].sectorOffset != sector ==>
           && (forall i :: 0 <= i < |cache| ==> cache[i].sectorOffset != sector)
           && cache[slot].numWrites <= 0 && c'[slot].numWrites == 0
           && c'[slot].leaf == if read then Words(d, sector, LEAF_ENTRIES) else cache[slot].leaf)
  {
    FindFromIs(cache, sector, 0);
    VictimIs(cache, |cache|);
  }

  /** The entries in use name different blocks. */
  ghost predicate Distinct(cache: seq<Pair>)
  {
    forall i, j :: 0 <= i < j < |cache| && cache[i].sectorOffset != NULL_SECTOR ==> cache[i].sectorOffset != cache[j].sectorOffset
  }
}
