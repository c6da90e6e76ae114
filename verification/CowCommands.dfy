/** The metadata list of a write command as a set of leaf entries to set, and what the functions on the
    list and on the cache do to it. */
module CowCommands {
  import opened CowState

  /** One leaf entry to set: through the cache slot, for the grain, to the sector. */
  datatype Update = Update(slot: int, grain: Grain, sector: int)

  ghost function Updates(md: seq<MetaData>, granularity: int): set<Update>
    requires granularity > 0
  {
    set n: int, k: int | 0 <= n < |md| && 0 <= k < |md[n].metaPair| ::
      Update(md[n].slot, ToGrain(granularity, md[n].metaPair[k].sector), md[n].metaPair[k].metaSector)
  }

  /** The cache slots the command holds. */
  ghost function Pins(md: seq<MetaData>): set<int>
  {
    set n: int | 0 <= n < |md| :: md[n].slot
  }

  ghost predicate NodesOk(md: seq<MetaData>)
  {
    && (forall n :: 0 <= n < |md| ==> 0 < |md[n].metaPair| <= MAX_PAIRS)
    && (forall n, m :: 0 <= n < m < |md| ==> md[n].slot != md[m].slot)
  }

  lemma NodeUpdate(md: seq<MetaData>, granularity: int, n: int, k: int)
    requires granularity > 0 && 0 <= n < |md| && 0 <= k < |md[n].metaPair|
    ensures Update(md[n].slot, ToGrain(granularity, md[n].metaPair[k].sector), md[n].metaPair[k].metaSector) in Updates(md, granularity)
  {
  }

  lemma UpdatePinned(md: seq<MetaData>, granularity: int)
    requires granularity > 0
    ensures forall u :: u in Updates(md, granularity) ==> u.slot in Pins(md)
  {
  }

  lemma PinUpdates(md: seq<MetaData>, granularity: int, slot: int) returns (u: Update)
    requires granularity > 0 && NodesOk(md) && slot in Pins(md)
    ensures u in Updates(md, granularity) && u.slot == slot
  {
    var n :| 0 <= n < |md| && md[n].slot == slot;
    NodeUpdate(md, granularity, n, 0);
    u := Update(md[n].slot, ToGrain(granularity, md[n].metaPair[0].sector), md[n].metaPair[0].metaSector);
  }

  lemma NoNodes(granularity: int)
    requires granularity > 0
    ensures Updates([], granularity) == {} && Pins([]) == {} && NodesOk([])
  {
  }

  lemma FindNodeIs(md: seq<MetaData>, slot: int)
    ensures FindNode(md, slot) < 0 <==> slot !in Pins(md)
  {
  }

  lemma UpdateNode(md: seq<MetaData>, granularity: int, u: Update) returns (n: int, k: int)
    requires granularity > 0 && u in Updates(md, granularity)
    ensures 0 <= n < |md| && 0 <= k < |md[n].metaPair|
    ensures u == Update(md[n].slot, ToGrain(granularity, md[n].metaPair[k].sector), md[n].metaPair[k].metaSector)
  {
    n, k :| 0 <= n < |md| && 0 <= k < |md[n].metaPair|
      && u == Update(md[n].slot, ToGrain(granularity, md[n].metaPair[k].sector), md[n].metaPair[k].metaSector);
  }

  lemma InsertPins(md: seq<MetaData>, slot: int, p: MDPair)
    ensures Pins(Insert(md, slot, p)) == Pins(md) + {slot}
  {
    var md' := Insert(md, slot, p);
    var n := FindNode(md, slot);
    if n >= 0 {
      assert forall m :: 0 <= m < |md| ==> md'[m].slot == md[m].slot;
      assert forall c :: c in Pins(md') ==> c in Pins(md);
      assert forall c :: c in Pins(md) ==> exists m :: 0 <= m < |md| && md'[m].slot == c;
    } else {
      forall c | c in Pins(md') ensures c in Pins(md) + {slot} {
        var m :| 0 <= m < |md'| && md'[m].slot == c;
        assert m == 0 || md[m - 1].slot == c;
      }
      assert md'[0].slot == slot;
      forall c | c in Pins(md) ensures c in Pins(md') {
        var m :| 0 <= m < |md| && md[m].slot == c;
        assert md'[m + 1].slot == c;
      }
    }
  }

  lemma InsertNodes(md: seq<MetaData>, slot: int, p: MDPair)
    requires NodesOk(md)
    requires var n := FindNode(md, slot); n < 0 || |md[n].metaPair| < MAX_PAIRS
    ensures NodesOk(Insert(md, slot, p)) && Insert(md, slot, p) != []
  {
    hide FindNode;
    var md' := Insert(md, slot, p);
    var n := FindNode(md, slot);
    if n >= 0 {
      assert forall m :: 0 <= m < |md| ==> md'[m].slot == md[m].slot;
    } else {
      assert forall m :: 0 < m < |md'| ==> md'[m] == md[m - 1];
    }
  }

  lemma InsertUpdatesFrom(md: seq<MetaData>, granularity: int, slot: int, p: MDPair, u: Update)
    requires granularity > 0 && u in Updates(Insert(md, slot, p), granularity)
    ensures u in Updates(md, granularity) || u == Update(slot, ToGrain(granularity, p.sector), p.metaSector)
  {
    hide ToGrain, Updates;
    var n := FindNode(md, slot);
    var m, k := UpdateNode(Insert(md, slot, p), granularity, u);
    if n >= 0 {
      if m != n || k < |md[n].metaPair| {
        NodeUpdate(md, granularity, m, k);
      }
    } else if m > 0 {
      NodeUpdate(md, granularity, m - 1, k);
    }
  }

  lemma InsertUpdatesTo(md: seq<MetaData>, granularity: int, slot: int, p: MDPair, u: Update)
    requires granularity > 0
    requires u in Updates(md, granularity) || u == Update(slot, ToGrain(granularity, p.sector), p.metaSector)
    ensures u in Updates(Insert(md, slot, p), granularity)
  {
    hide ToGrain, Updates;
    var n := FindNode(md, slot);
    var md' := Insert(md, slot, p);
    if u in Updates(md, granularity) {
      var m, k := UpdateNode(md, granularity, u);
      NodeUpdate(md', granularity, if n >= 0 then m else m + 1, k);
    } else if n >= 0 {
      NodeUpdate(md', granularity, n, |md[n].metaPair|);
    } else {
      NodeUpdate(md', granularity, 0, 0);
    }
  }

  /** COWInsertMetaDataList: one more entry to set, and the slot held. */
  lemma InsertIs(md: seq<MetaData>, granularity: int, slot: int, p: MDPair)
    requires granularity > 0 && NodesOk(md)
    requires var n := FindNode(md, slot); n < 0 || |md[n].metaPair| < MAX_PAIRS
    ensures NodesOk(Insert(md, slot, p)) && Insert(md, slot, p) != []
    ensures Pins(Insert(md, slot, p)) == Pins(md) + {slot}
    ensures Updates(Insert(md, slot, p), granularity) == Updates(md, granularity) + {Update(slot, ToGrain(granularity, p.sector), p.metaSector)}
  {
    hide ToGrain, Updates, Insert, NodesOk, Pins;
    InsertNodes(md, slot, p);
    InsertPins(md, slot, p);
    forall u | u in Updates(Insert(md, slot, p), granularity)
      ensures u in Updates(md, granularity) + {Update(slot, ToGrain(granularity, p.sector), p.metaSector)}
    {
      InsertUpdatesFrom(md, granularity, slot, p, u);
    }
    forall u | u in Updates(md, granularity) + {Update(slot, ToGrain(granularity, p.sector), p.metaSector)}
      ensures u in Updates(Insert(md, slot, p), granularity)
    {
      InsertUpdatesTo(md, granularity, slot, p, u);
    }
  }

  // ----- the cache

  /** The caches differ only in their leaf contents. */
  ghost predicate SameSlots(c: seq<Pair>, c': seq<Pair>)
  {
    && |c'| == |c|
    && forall i :: 0 <= i < |c| ==>
      c'[i].sectorOffset == c[i].sectorOffset && c'[i].numWrites == c[i].numWrites && c'[i].lastTouch == c[i].lastTouch && |c'[i].leaf| == |c[i].leaf|
  }

  /** The caches differ only in pin counts. */
  ghost predicate SameLeaves(c: seq<Pair>, c': seq<Pair>)
  {
    && |c'| == |c|
    && forall i :: 0 <= i < |c| ==>
      c'[i].sectorOffset == c[i].sectorOffset && c'[i].lastTouch == c[i].lastTouch && c'[i].leaf == c[i].leaf
  }

  lemma {:induction false} UnpinnedIs(cache: seq<Pair>, md: seq<MetaData>)
    requires NodesOk(md)
    ensures SameLeaves(cache, Unpinned(cache, md))
    ensures forall i :: 0 <= i < |cache| ==>
      Unpinned(cache, md)[i].numWrites == cache[i].numWrites - if i in Pins(md) then 1 else 0
    decreases |md|
  {
    if md != [] {
      var front := md[..|md| - 1];
      UnpinnedIs(cache, front);
      forall i ensures i in Pins(md) <==> i in Pins(front) || i == md[|md| - 1].slot {
        if i in Pins(front) {
          var n :| 0 <= n < |front| && front[n].slot == i;
          assert md[n].slot == i;
        }
      }
      assert md[|md| - 1].slot !in Pins(front);
    }
  }

  /** An entry either keeps its value or takes that of an update to it; an entry with an update takes one. */
  ghost predicate SetBy(c: seq<Pair>, c': seq<Pair>, us: set<Update>)
  {
    && SameSlots(c, c')
    && (forall i, p :: 0 <= i < |c| && 0 <= p < |c[i].leaf| ==> c'[i].leaf[p] == c[i].leaf[p] || Targets(us, i, p, c'[i].leaf[p]))
    && (forall u :: u in us && 0 <= u.slot < |c| && 0 <= u.grain.pos < |c[u.slot].leaf| ==>
         Targets(us, u.slot, u.grain.pos, c'[u.slot].leaf[u.grain.pos]))
  }

  ghost predicate Targets(us: set<Update>, slot: int, pos: int, v: int)
  {
    exists u :: u in us && u.slot == slot && u.grain.pos == pos && u.sector == v
  }

  lemma SetEntryIs(c: seq<Pair>, u: Update, c0: seq<Pair>, us: set<Update>)
    requires SetBy(c0, c, us)
    ensures SetBy(c0, SetEntry(c, u.slot, u.grain.pos, u.sector), us + {u})
  {
    var c' := SetEntry(c, u.slot, u.grain.pos, u.sector);
    var us' := us + {u};
    forall i, p, v: int | Targets(us, i, p, v) ensures Targets(us', i, p, v) {
      var x :| x in us && x.slot == i && x.grain.pos == p && x.sector == v;
      assert x in us';
    }
    assert Targets(us', u.slot, u.grain.pos, u.sector);
    forall i, p | 0 <= i < |c| && 0 <= p < |c[i].leaf|
      ensures |c'[i].leaf| == |c[i].leaf|
      ensures c'[i].leaf[p] == c[i].leaf[p] || (i == u.slot && p == u.grain.pos && c'[i].leaf[p] == u.sector)
    {
    }
  }

  ghost function PairUpdates(granularity: int, slot: int, pairs: seq<MDPair>): set<Update>
    requires granularity > 0
  {
    set k: int | 0 <= k < |pairs| :: Update(slot, ToGrain(granularity, pairs[k].sector), pairs[k].metaSector)
  }

  lemma {:induction false} SetPairsIs(c: seq<Pair>, granularity: int, slot: int, pairs: seq<MDPair>, c0: seq<Pair>, us: set<Update>)
    requires granularity > 0 && SetBy(c0, c, us)
    ensures SetBy(c0, SetPairs(c, granularity, slot, pairs), us + PairUpdates(granularity, slot, pairs))
    decreases |pairs|
  {
    hide ToGrain, SetBy, SetEntry;
    if pairs == [] {
      assert us + PairUpdates(granularity, slot, pairs) == us;
    } else {
      var front := pairs[..|pairs| - 1];
      var p := pairs[|pairs| - 1];
      var u := Update(slot, ToGrain(granularity, p.sector), p.metaSector);
      SetPairsIs(c, granularity, slot, front, c0, us);
      SetEntryIs(SetPairs(c, granularity, slot, front), u, c0, us + PairUpdates(granularity, slot, front));
      assert us + PairUpdates(granularity, slot, front) + {u} == us + PairUpdates(granularity, slot, pairs) by {
        assert forall k :: 0 <= k < |front| ==> front[k] == pairs[k];
        assert forall k :: 0 <= k < |pairs| ==> k == |front| || pairs[k] == front[k];
      }
    }
  }

  lemma {:induction false} UpdateCacheIs(c: seq<Pair>, granularity: int, md: seq<MetaData>)
    requires granularity > 0
    ensures SetBy(c, UpdateCache(c, granularity, md), Updates(md, granularity))
    decreases |md|
  {
    hide ToGrain, SetPairs;
    if md == [] {
      assert Updates(md, granularity) == {};
    } else {
      var front := md[..|md| - 1];
      var m := md[|md| - 1];
      UpdateCacheIs(c, granularity, front);
      SetPairsIs(UpdateCache(c, granularity, front), granularity, m.slot, m.metaPair, c, Updates(front, granularity));
      UpdatesLast(md, granularity);
    }
  }

  lemma UpdatesLast(md: seq<MetaData>, granularity: int)
    requires granularity > 0 && md != []
    ensures Updates(md, granularity)
      == Updates(md[..|md| - 1], granularity) + PairUpdates(granularity, md[|md| - 1].slot, md[|md| - 1].metaPair)
  {
    hide ToGrain;
    var front := md[..|md| - 1];
    var m := md[|md| - 1];
    forall u | u in Updates(md, granularity) ensures u in Updates(front, granularity) + PairUpdates(granularity, m.slot, m.metaPair) {
      var n, k :| 0 <= n < |md| && 0 <= k < |md[n].metaPair|
        && u == Update(md[n].slot, ToGrain(granularity, md[n].metaPair[k].sector), md[n].metaPair[k].metaSector);
      if n < |front| {
        NodeUpdate(front, granularity, n, k);
      }
    }
    forall u | u in Updates(front, granularity) ensures u in Updates(md, granularity) {
      var n, k :| 0 <= n < |front| && 0 <= k < |front[n].metaPair|
        && u == Update(front[n].slot, ToGrain(granularity, front[n].metaPair[k].sector), front[n].metaPair[k].metaSector);
      NodeUpdate(md, granularity, n, k);
    }
    forall u | u in PairUpdates(granularity, m.slot, m.metaPair) ensures u in Updates(md, granularity) {
      var k :| 0 <= k < |m.metaPair| && u == Update(m.slot, ToGrain(granularity, m.metaPair[k].sector), m.metaPair[k].metaSector);
      NodeUpdate(md, granularity, |md| - 1, k);
    }
  }
}
