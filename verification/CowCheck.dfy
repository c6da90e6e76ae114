/** COWCheck: the free sector recomputed from the file, and the log reopened with it. */
module CowCheck {
  import opened CowDisk
  import opened CowState
  import opened CowCommands
  import opened CowCache
  import opened CowInvariant
  import opened CowFrame
  import opened CowLeaf
  import opened CowAdd
  import opened CowRun
  import opened CowCrash

  /** A sector just past something the first i root entries refer to, counting an unset leaf entry as sector 0. */
  ghost predicate PastOne(d: Disk, roots: seq<int>, granularity: int, i: int, m: int)
  {
    exists k :: 0 <= k < i <= |roots| && roots[k] != 0 && (m == roots[k] + LEAF_SECTORS || PastLeaf(d, roots[k], granularity, LEAF_ENTRIES, m))
  }

  ghost predicate PastLeaf(d: Disk, sector: int, granularity: int, j: int, m: int)
  {
    exists p :: 0 <= p < j && m == At(d, sector, p) + granularity
  }

  ghost predicate PastAll(d: Disk, roots: seq<int>, granularity: int, i: int, m: int)
  {
    forall k :: 0 <= k < i <= |roots| && roots[k] != 0 ==> roots[k] + LEAF_SECTORS <= m && PastEntries(d, roots[k], granularity, LEAF_ENTRIES, m)
  }

  ghost predicate PastEntries(d: Disk, sector: int, granularity: int, j: int, m: int)
  {
    forall p :: 0 <= p < j ==> At(d, sector, p) + granularity <= m
  }

  /** The scan of one leaf block. */
  method CheckLeaf(d: Disk, sector: int, granularity: int, maxsector: int) returns (m: int)
    ensures m >= maxsector && PastEntries(d, sector, granularity, LEAF_ENTRIES, m)
    ensures m == maxsector || PastLeaf(d, sector, granularity, LEAF_ENTRIES, m)
  {
    hide At;
    m := maxsector;
    for j := 0 to LEAF_ENTRIES
      invariant m >= maxsector && PastEntries(d, sector, granularity, j, m)
      invariant m == maxsector || PastLeaf(d, sector, granularity, j, m)
    {
      var past := At(d, sector, j) + granularity;
      if past > m {
        m := past;
        assert PastLeaf(d, sector, granularity, j + 1, m);
      }
    }
  }

  /** The scan of the file. With no root entry set the result is 0; otherwise it is the last sector past
      anything referred to. */
  method Check(d: Disk, roots: seq<int>, granularity: int) returns (freeSector: int)
    ensures freeSector >= 0 && PastAll(d, roots, granularity, |roots|, freeSector)
    ensures freeSector == 0 || PastOne(d, roots, granularity, |roots|, freeSector)
  {
    hide At, PastEntries, PastLeaf;
    var maxsector := 0;
    for i := 0 to |roots|
      invariant maxsector >= 0 && PastAll(d, roots, granularity, i, maxsector)
      invariant maxsector == 0 || PastOne(d, roots, granularity, i, maxsector)
    {
      ghost var before := maxsector;
      if roots[i] != 0 {
        var entry := roots[i] + LEAF_SECTORS;
        if entry > maxsector {
          maxsector := entry;
        }
        ghost var mid := maxsector;
        maxsector := CheckLeaf(d, roots[i], granularity, maxsector);
        PastMore(d, roots, granularity, i, before, maxsector);
        if maxsector != mid || mid != before {
          assert PastOne(d, roots, granularity, i + 1, maxsector);
        }
      }
    }
    freeSector := maxsector;
  }

  lemma PastMore(d: Disk, roots: seq<int>, granularity: int, i: int, m: int, m': int)
    requires PastAll(d, roots, granularity, i, m) && m <= m'
    ensures PastAll(d, roots, granularity, i, m')
  {
    hide At;
  }

  /** The recomputed free sector lies beyond the root table and everything referred to exactly when the file
      has a root entry: without one COWCheck answers 0, inside the header. */
  lemma CheckBeyond(d: Disk, rootOffset: int, roots: seq<int>, free: int, granularity: int, ext: map<int, Use>, finished: set<int>, m: int)
    requires Sound(d, rootOffset, roots, free, granularity, ext, finished) && roots != []
    requires m >= 0 && PastAll(d, roots, granularity, |roots|, m) && (m == 0 || PastOne(d, roots, granularity, |roots|, m))
    ensures (exists i :: 0 <= i < |roots| && roots[i] != 0) <==> Beyond(d, rootOffset, roots, granularity, m)
  {
    hide At, PastOne, FinishedOk, LeavesOk, PastEntries;
    if i :| 0 <= i < |roots| && roots[i] != 0 {
      assert roots[i] in ext;
      forall k, p | 0 <= k < |roots| && roots[k] != 0 && 0 <= p < LEAF_ENTRIES && At(d, roots[k], p) != 0
        ensures At(d, roots[k], p) + granularity <= m
      {
        EntryPast(d, roots[k], granularity, m, p);
      }
    } else {
      if m != 0 {
        NoneReferred(d, roots, granularity, m);
      }
    }
  }

  lemma NoneReferred(d: Disk, roots: seq<int>, granularity: int, m: int)
    requires PastOne(d, roots, granularity, |roots|, m)
    ensures exists i :: 0 <= i < |roots| && roots[i] != 0
  {
  }

  lemma EntryPast(d: Disk, sector: int, granularity: int, m: int, p: int)
    requires PastEntries(d, sector, granularity, LEAF_ENTRIES, m) && 0 <= p < LEAF_ENTRIES
    ensures At(d, sector, p) + granularity <= m
  {
    hide At;
  }

  ghost predicate Beyond(d: Disk, rootOffset: int, roots: seq<int>, granularity: int, m: int)
  {
    && SECTOR_WORDS * rootOffset + |roots| <= SECTOR_WORDS * m
    && (forall k :: 0 <= k < |roots| && roots[k] != 0 ==> roots[k] + LEAF_SECTORS <= m)
    && (forall k, p :: 0 <= k < |roots| && roots[k] != 0 && 0 <= p < LEAF_ENTRIES && At(d, roots[k], p) != 0 ==> At(d, roots[k], p) + granularity <= m)
  }

  // ----- the log reopened

  /** The runs that end by the sector m. */
  function Below(ext: map<int, Use>, granularity: int, m: int): map<int, Use>
  {
    map a | a in ext && a + Len(ext[a], granularity) <= m :: ext[a]
  }

  lemma BelowSound(d: Disk, rootOffset: int, roots: seq<int>, free: int, granularity: int, ext: map<int, Use>, finished: set<int>, m: int)
    requires Sound(d, rootOffset, roots, free, granularity, ext, finished) && Beyond(d, rootOffset, roots, granularity, m) && m > 0
    ensures var ext' := Below(ext, granularity, m);
      Sound(d, rootOffset, roots, m, granularity, ext', set a | a in finished && a in ext')
  {
    hide At, Filled;
    var ext' := Below(ext, granularity, m);
    var finished' := set a | a in finished && a in ext';
    forall i, p | 0 <= i < |roots| && roots[i] != 0 && 0 <= p < LEAF_ENTRIES
      ensures EntryOk(At(d, roots[i], p), Grain(i, p), ext', finished')
    {
      assert EntryOk(At(d, roots[i], p), Grain(i, p), ext, finished);
    }
  }

  /** The contents of an image. */
  function ContentsOf(d: Disk, rootOffset: int, roots: nat, granularity: int): map<Grain, seq<int>>
  {
    map i: int, p: int | 0 <= i < roots && 0 <= p < LEAF_ENTRIES && Resolve(d, rootOffset, granularity, Grain(i, p)).Present? ::
      Grain(i, p) := Resolve(d, rootOffset, granularity, Grain(i, p)).words
  }

  lemma ContentsAre(d: Disk, rootOffset: int, roots: nat, granularity: int, g: Grain)
    requires IsGrain(g, roots)
    ensures Resolve(d, rootOffset, granularity, g) == LastWrite(ContentsOf(d, rootOffset, roots, granularity), [], g)
  {
    hide Resolve;
    assert g == Grain(g.root, g.pos);
  }

  function EmptyCache(): seq<Pair>
  {
    seq(CACHE_ENTRIES, i => Pair(NULL_SECTOR, 0, 0, Zeros(LEAF_ENTRIES)))
  }

  /** A log just opened (COWOpenFile): the root table read, nothing cached, no command. */
  function Open(d: Disk, rootOffset: int, roots: seq<int>, granularity: int, freeSector: int, allocSectors: int): State
  {
    State(granularity, rootOffset, roots, freeSector, allocSectors, EmptyCache(), 0, [], [], map[], 0, d)
  }

  lemma OpenInv(d: Disk, rootOffset: int, roots: seq<int>, free: int, granularity: int, ext: map<int, Use>, finished: set<int>, allocSectors: int)
    requires Sound(d, rootOffset, roots, free, granularity, ext, finished) && free <= allocSectors && granularity <= SIZE_INCREMENT
    ensures Inv(Open(d, rootOffset, roots, granularity, free, allocSectors), History(ext, finished, ContentsOf(d, rootOffset, |roots|, granularity), [], [], 0))
  {
    hide RootsOk, LeavesOk, FinishedOk, ExtentsOk, At, Resolve, ContentsOf, LastWrite;
    var s := Open(d, rootOffset, roots, granularity, free, allocSectors);
    ZerosAre(LEAF_ENTRIES);
    GranularityPositive(ext, rootOffset, |roots|, free, granularity);
    forall g: Grain | IsGrain(g, |roots|)
      ensures Resolve(d, rootOffset, granularity, g) == LastWrite(ContentsOf(d, rootOffset, |roots|, granularity), [], g)
    {
      ContentsAre(d, rootOffset, |roots|, granularity, g);
    }
    forall c | 0 <= c < |s.cache| ensures s.cache[c].numWrites == |PinSet(s.cmds, c)| {
      assert PinSet(s.cmds, c) == {};
    }
    assert CacheOk(s.cache, roots) by { hide Zeros; }
    assert QueueOk([], [], s.cmds, [], 0, MetaDataWriteProg);
  }

  /** Recovery. A log that crashed in any step of any run with a root entry on disk, reopened with the free
      sector COWCheck finds, satisfies the invariant again and holds every completed write. */
  lemma Recovered(s: State, h: History, e: Event, d: Disk, roots: seq<int>, m: int, allocSectors: int) returns (h': History)
    requires Inv(s, h) && CrashImage(s, e, d)
    requires |roots| == |s.rootEntries| && forall i :: 0 <= i < |roots| ==> roots[i] == At(d, s.rootOffset, i)
    requires exists i :: 0 <= i < |roots| && roots[i] != 0
    requires m >= 0 && PastAll(d, roots, s.granularity, |roots|, m) && (m == 0 || PastOne(d, roots, s.granularity, |roots|, m)) && m <= allocSectors
    ensures Inv(Open(d, s.rootOffset, roots, s.granularity, m, allocSectors), h')
    ensures h'.completed == []
    ensures forall g :: IsGrain(g, |roots|) && !Busy(s.cmds, g) ==> LastWrite(h'.initial, [], g) == LastWrite(h.initial, h.completed, g)
  {
    hide Inv, CrashImage, At, PastAll, PastOne, Beyond, Open, Resolve, LastWrite, Busy, Below, Sound, Track;
    var roots', free, ext, finished := CrashSafe(s, h, e, d);
    assert s.granularity <= SIZE_INCREMENT by { SmallGrain(s, h); }
    assert roots' == roots by { SoundRoots(d, s.rootOffset, roots', free, s.granularity, ext, finished); }
    CheckBeyond(d, s.rootOffset, roots, free, s.granularity, ext, finished, m);
    assert m > 0 by { BeyondPositive(d, s.rootOffset, roots, free, s.granularity, ext, finished, m); }
    BelowSound(d, s.rootOffset, roots, free, s.granularity, ext, finished, m);
    var ext' := Below(ext, s.granularity, m);
    var finished' := set a | a in finished && a in ext';
    OpenInv(d, s.rootOffset, roots, m, s.granularity, ext', finished', allocSectors);
    h' := History(ext', finished', ContentsOf(d, s.rootOffset, |roots|, s.granularity), [], [], 0);
    forall g | IsGrain(g, |roots|) && !Busy(s.cmds, g) ensures LastWrite(h'.initial, [], g) == LastWrite(h.initial, h.completed, g) {
      ContentsAre(d, s.rootOffset, |roots|, s.granularity, g);
    }
  }

  lemma SmallGrain(s: State, h: History)
    requires Inv(s, h)
    ensures s.granularity <= SIZE_INCREMENT
  {
    hide RootsOk, LeavesOk, FinishedOk, CacheOk, MirrorOk, PinsOk, QueueOk, ContentOk, ExtentsOk, CmdsOk, ApartOk;
  }

  lemma SoundRoots(d: Disk, rootOffset: int, roots: seq<int>, free: int, granularity: int, ext: map<int, Use>, finished: set<int>)
    requires Sound(d, rootOffset, roots, free, granularity, ext, finished)
    ensures forall i :: 0 <= i < |roots| ==> roots[i] == At(d, rootOffset, i)
  {
    hide At;
  }

  lemma BeyondPositive(d: Disk, rootOffset: int, roots: seq<int>, free: int, granularity: int, ext: map<int, Use>, finished: set<int>, m: int)
    requires Sound(d, rootOffset, roots, free, granularity, ext, finished) && Beyond(d, rootOffset, roots, granularity, m) && roots != []
    ensures m > 0
  {
    hide At, RootsOk, LeavesOk, FinishedOk;
  }

  /** A new log: a root table of zeroes, and nothing else. */
  lemma FreshInv(d: Disk, rootOffset: int, roots: seq<int>, granularity: int, free: int, allocSectors: int)
    requires forall i :: 0 <= i < |roots| ==> roots[i] == 0 == At(d, rootOffset, i)
    requires 0 < granularity <= SIZE_INCREMENT && 0 <= rootOffset && 0 < free <= allocSectors && SECTOR_WORDS * rootOffset + |roots| <= SECTOR_WORDS * free
    ensures Inv(Open(d, rootOffset, roots, granularity, free, allocSectors), History(map[], {}, map[], [], [], 0))
  {
    hide At, Open, LastWrite;
    OpenInv(d, rootOffset, roots, free, granularity, map[], {}, allocSectors);
    assert ContentsOf(d, rootOffset, |roots|, granularity) == map[];
  }
}
