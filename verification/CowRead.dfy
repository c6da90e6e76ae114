/** A read of a disk made of redo logs over a base, from the request to the bytes in memory. */
module CowRead {
  import opened CowDisk
  import opened CowState
  import opened CowInvariant
  import opened CowStack
  import ScatterGather

  /** Byte i of a 32-bit word, the least significant one first. */
  function ByteOf(word: int, i: int): int
  {
    (if i == 0 then word else if i == 1 then word / 0x100 else if i == 2 then word / 0x1_0000 else word / 0x100_0000) % 0x100
  }

  /** A file, byte by byte. */
  function FileBytes(d: Disk): int -> int
  {
    o => ByteOf(At(d, 0, o / 4), o % 4)
  }

  /** v is the byte at offset r of the contents of a grain. */
  ghost predicate HasByte(c: Content, r: int, v: int)
  {
    c.Present? && 0 <= r / 4 < |c.words| && v == ByteOf(c.words[r / 4], r % 4)
  }

  ghost function Files(stack: seq<State>, base: Disk): (files: seq<int -> int>)
    ensures |files| == |stack| + 1
  {
    [FileBytes(base)] + seq(|stack|, i requires 0 <= i < |stack| => FileBytes(stack[i].disk))
  }

  /** What the layers hold for a grain: the last completed write of the topmost level that has one,
      or else the base, or zeroes if there is none. */
  ghost function GrainAt(hs: seq<History>, base: Disk, sparse: bool, granularity: nat, block: int): Content
    requires granularity > 0
  {
    var n := SECTOR_WORDS * granularity;
    Layered(hs, if sparse then Zeros(n) else Words(base, block * granularity, n), |hs|, ToGrain(granularity, block * granularity))
  }

  ghost predicate Sound(stack: seq<State>, hs: seq<History>, granularity: nat)
  {
    && |hs| == |stack|
    && forall i :: 0 <= i < |stack| ==> stack[i].granularity == granularity && Inv(stack[i], hs[i])
  }

  /** The grain is within every level's tables, and no issued command is writing it. */
  ghost predicate Settled(stack: seq<State>, granularity: nat, block: int)
    requires granularity > 0
  {
    var g := ToGrain(granularity, block * granularity);
    forall i :: 0 <= i < |stack| ==> IsGrain(g, |stack[i].rootEntries|) && !Busy(stack[i].cmds, g)
  }

  lemma WordsByte(d: Disk, lbn: int, n: nat, r: int)
    requires 0 <= r < 4 * n
    ensures HasByte(Present(Words(d, lbn, n)), r, FileBytes(d)(lbn * ScatterGather.SECTOR_SIZE + r))
  {
    var o := lbn * ScatterGather.SECTOR_SIZE + r;
    assert o / 4 == SECTOR_WORDS * lbn + r / 4 && o % 4 == r % 4;
  }

  lemma ZerosByte(n: nat, r: int)
    requires 0 <= r < 4 * n
    ensures HasByte(Present(Zeros(n)), r, 0)
  {
  }

  lemma FirstSector(block: int, granularity: nat)
    requires granularity > 0
    ensures block * granularity % granularity == 0 && (block >= 0 ==> block * granularity >= 0)
  {
    ScatterGather.DivUnique(block * granularity, granularity, block, 0);
  }

  /** The source of a byte at a location found. */
  function SourceAt(w: Where, r: int): ScatterGather.Source
  {
    match w
    case InLog(k, lbn) => ScatterGather.InFile(k, lbn * ScatterGather.SECTOR_SIZE + r)
    case InBase(lbn) => ScatterGather.InFile(0, lbn * ScatterGather.SECTOR_SIZE + r)
    case NullSector => ScatterGather.Zero
    case Failed => ScatterGather.Nowhere
  }

  /** The source has the byte. */
  ghost predicate Gives(files: seq<int -> int>, source: ScatterGather.Source, c: Content, r: int)
  {
    match source
    case InFile(f, o) => f < |files| && HasByte(c, r, files[f](o))
    case Zero => HasByte(c, r, 0)
    case Nowhere => false
  }

  lemma FetchByte(stack: seq<State>, base: Disk, w: Where, n: nat, r: int, c: Content)
    requires (w.InLog? ==> 0 < w.level <= |stack|) && Fetch(stack, base, w, n) == c && c.Present? && 0 <= r < 4 * n
    ensures Gives(Files(stack, base), SourceAt(w, r), c, r)
  {
    hide HasByte, FileBytes, Words, Zeros;
    match w
    case InLog(k, lbn) => WordsByte(stack[k - 1].disk, lbn, n, r);
    case InBase(lbn) => WordsByte(base, lbn, n, r);
    case NullSector => ZerosByte(n, r);
  }

  /** The layers at a grain, and where the stack finds it. */
  lemma GrainRead(stack: seq<State>, hs: seq<History>, base: Disk, sparse: bool, granularity: nat, block: nat)
    requires granularity > 0 && Sound(stack, hs, granularity) && Settled(stack, granularity, block)
    ensures var w := ScatterGather.StackAt(stack, sparse, granularity, block); var c := GrainAt(hs, base, sparse, granularity, block);
      && (w.InLog? ==> 0 < w.level <= |stack|) && c.Present?
      && Fetch(stack, base, w, SECTOR_WORDS * granularity) == c
  {
    hide Inv, Words, Zeros, Locate, Layered, ToGrain, Busy, Fetch;
    var n, first := SECTOR_WORDS * granularity, block * granularity;
    FirstSector(block, granularity);
    ReadIsLayered(stack, hs, base, sparse, granularity, |stack|, first);
    LayersPresent(hs, if sparse then Zeros(n) else Words(base, first, n), |hs|, ToGrain(granularity, first));
  }

  /** The lookup is that of the stack. */
  ghost predicate LooksUp(at: int -> Where, stack: seq<State>, sparse: bool, granularity: nat)
  {
    forall block :: at(block) == ScatterGather.StackAt(stack, sparse, granularity, block)
  }

  /** A byte looked up on its own is a byte of the layers. */
  lemma ByteRead(at: int -> Where, stack: seq<State>, hs: seq<History>, base: Disk, sparse: bool, granularity: nat, size: nat, offset: nat)
    requires granularity > 0 && Sound(stack, hs, granularity) && size == granularity * ScatterGather.SECTOR_SIZE
    requires LooksUp(at, stack, sparse, granularity) && Settled(stack, granularity, offset / size)
    ensures Gives(Files(stack, base), ScatterGather.SourceOf(at, size, offset), GrainAt(hs, base, sparse, granularity, offset / size), offset % size)
  {
    hide Sound, Settled, ScatterGather.StackAt, GrainAt, Fetch, Gives, Files;
    var block: nat, r := offset / size, offset % size;
    GrainRead(stack, hs, base, sparse, granularity, block);
    FetchByte(stack, base, at(block), SECTOR_WORDS * granularity, r, GrainAt(hs, base, sparse, granularity, block));
  }

  lemma {:induction false} LayersPresent(hs: seq<History>, bottom: seq<int>, k: nat, g: Grain)
    requires k <= |hs|
    ensures Layered(hs, bottom, k, g).Present?
  {
    if k > 0 {
      LayersPresent(hs, bottom, k - 1, g);
    }
  }

  /** The grain a byte of a request is in. */
  function BlockOf(granularity: nat, e: ScatterGather.SG, b: nat): int
    requires granularity > 0
  {
    (e.offset + b) / (granularity * ScatterGather.SECTOR_SIZE)
  }

  /** The place of a byte of a request, and its source. */
  function CopyAt(at: int -> Where, size: int, e: ScatterGather.SG, b: nat): ScatterGather.ByteCopy
    requires size > 0
  {
    ScatterGather.ByteCopy(ScatterGather.SourceOf(at, size, e.offset + b), e.addr + b)
  }

  lemma {:induction false} ByteOfRequest(at: int -> Where, size: int, req: seq<ScatterGather.SG>, n: nat, i: nat, b: nat)
    requires size > 0 && i < n <= |req| && b < req[i].length
    ensures CopyAt(at, size, req[i], b) in ScatterGather.AllBytes(at, size, req, n)
    decreases n
  {
    hide ScatterGather.SourceOf;
    if i < n - 1 {
      ByteOfRequest(at, size, req, n - 1, i, b);
    } else {
      assert ScatterGather.EntryBytes(at, size, req[i], req[i].length)[b] == CopyAt(at, size, req[i], b);
    }
  }

  lemma {:induction false} RequestOfByte(at: int -> Where, size: int, req: seq<ScatterGather.SG>, n: nat, c: ScatterGather.ByteCopy)
      returns (i: nat, b: nat)
    requires size > 0 && n <= |req| && c in ScatterGather.AllBytes(at, size, req, n)
    ensures i < n && b < req[i].length && c == CopyAt(at, size, req[i], b)
  {
    hide ScatterGather.SourceOf;
    if c in ScatterGather.AllBytes(at, size, req, n - 1) {
      i, b := RequestOfByte(at, size, req, n - 1, c);
    } else {
      i := n - 1;
      var bytes := ScatterGather.EntryBytes(at, size, req[i], req[i].length);
      b :| 0 <= b < |bytes| && bytes[b] == c;
    }
  }

  /** The bytes a request reads are those of the layers. */
  ghost predicate ReadsLayers(mem': map<int, int>, hs: seq<History>, base: Disk, sparse: bool, granularity: nat, e: ScatterGather.SG, b: nat)
    requires granularity > 0
  {
    var size := granularity * ScatterGather.SECTOR_SIZE;
    && e.addr + b in mem'
    && HasByte(GrainAt(hs, base, sparse, granularity, BlockOf(granularity, e, b)), (e.offset + b) % size, mem'[e.addr + b])
  }

  lemma ArrivedLayers(at: int -> Where, stack: seq<State>, hs: seq<History>, base: Disk, sparse: bool, granularity: nat, e: ScatterGather.SG,
                      b: nat, mem': map<int, int>)
    requires granularity > 0 && Sound(stack, hs, granularity) && LooksUp(at, stack, sparse, granularity)
    requires Settled(stack, granularity, BlockOf(granularity, e, b))
    requires ScatterGather.Arrived(mem', Files(stack, base), CopyAt(at, granularity * ScatterGather.SECTOR_SIZE, e, b))
    ensures ReadsLayers(mem', hs, base, sparse, granularity, e, b)
  {
    hide Inv, HasByte, GrainAt, ScatterGather.SourceOf, Settled, Sound, LooksUp, Files;
    ByteRead(at, stack, hs, base, sparse, granularity, granularity * ScatterGather.SECTOR_SIZE, e.offset + b);
  }

  /** Every grain of the request is settled. */
  ghost predicate AllSettled(stack: seq<State>, granularity: nat, req: seq<ScatterGather.SG>)
    requires granularity > 0
  {
    forall i, b :: 0 <= i < |req| && 0 <= b < req[i].length ==> Settled(stack, granularity, BlockOf(granularity, req[i], b))
  }

  /** No two bytes of the request go to the same place. */
  ghost predicate Apart(at: int -> Where, granularity: nat, req: seq<ScatterGather.SG>)
    requires granularity > 0
  {
    ScatterGather.Disjoint(ScatterGather.AllBytes(at, granularity * ScatterGather.SECTOR_SIZE, req, |req|))
  }

  /** Memory after a read of the layers: the place of every byte of the request holds the byte of the
      last completed write of the topmost level that has one, or of the base; other memory is as before. */
  ghost predicate ReadDone(mem: map<int, int>, mem': map<int, int>, hs: seq<History>, base: Disk, sparse: bool, granularity: nat,
                           req: seq<ScatterGather.SG>)
    requires granularity > 0
  {
    && (forall i, b :: 0 <= i < |req| && 0 <= b < req[i].length ==> ReadsLayers(mem', hs, base, sparse, granularity, req[i], b))
    && (forall a :: (forall i :: 0 <= i < |req| ==> !(req[i].addr <= a < req[i].addr + req[i].length)) ==> ScatterGather.SameAt(mem, mem', a))
  }

  lemma EffectLayers(at: int -> Where, stack: seq<State>, hs: seq<History>, base: Disk, sparse: bool, granularity: nat, req: seq<ScatterGather.SG>,
                     mem: map<int, int>, mem': map<int, int>)
    requires granularity > 0 && Sound(stack, hs, granularity) && LooksUp(at, stack, sparse, granularity)
    requires AllSettled(stack, granularity, req)
    requires var bytes := ScatterGather.AllBytes(at, granularity * ScatterGather.SECTOR_SIZE, req, |req|);
      ScatterGather.Effect(mem, mem', Files(stack, base), bytes)
    ensures ReadDone(mem, mem', hs, base, sparse, granularity, req)
  {
    hide Sound, Settled, ReadsLayers, Files, LooksUp, BlockOf, ScatterGather.AllBytes, ScatterGather.Arrived, ScatterGather.SourceOf,
         ScatterGather.SameAt;
    var size := granularity * ScatterGather.SECTOR_SIZE;
    var bytes := ScatterGather.AllBytes(at, size, req, |req|);
    forall i, b | 0 <= i < |req| && 0 <= b < req[i].length ensures ReadsLayers(mem', hs, base, sparse, granularity, req[i], b) {
      ByteOfRequest(at, size, req, |req|, i, b);
      ArrivedLayers(at, stack, hs, base, sparse, granularity, req[i], b, mem');
    }
    forall a | forall i :: 0 <= i < |req| ==> !(req[i].addr <= a < req[i].addr + req[i].length) ensures ScatterGather.SameAt(mem, mem', a) {
      forall c | c in bytes ensures c.to != a {
        var i, b := RequestOfByte(at, size, req, |req|, c);
      }
    }
  }

  lemma NeverUnreadable(at: int -> Where, stack: seq<State>, hs: seq<History>, base: Disk, sparse: bool, granularity: nat, req: seq<ScatterGather.SG>, i: nat)
    requires granularity > 0 && Sound(stack, hs, granularity) && LooksUp(at, stack, sparse, granularity)
    requires AllSettled(stack, granularity, req) && i < |req|
    ensures !ScatterGather.Unreadable(at, granularity * ScatterGather.SECTOR_SIZE, req[i])
  {
    hide Sound, Settled, Files, LooksUp, ScatterGather.SourceOf, GrainAt, HasByte;
    var e, size := req[i], granularity * ScatterGather.SECTOR_SIZE;
    forall b | 0 <= b < e.length ensures ScatterGather.EntryBytes(at, size, e, e.length)[b].source != ScatterGather.Nowhere {
      assert Settled(stack, granularity, BlockOf(granularity, e, b));
      ByteRead(at, stack, hs, base, sparse, granularity, size, e.offset + b);
    }
  }

  lemma LookupFits(at: int -> Where, stack: seq<State>, hs: seq<History>, sparse: bool, granularity: nat)
    requires granularity > 0 && Sound(stack, hs, granularity) && LooksUp(at, stack, sparse, granularity)
    ensures ScatterGather.LookupOk(at, |stack| + 1)
  {
    hide Inv, ScatterGather.StackAt;
    ScatterGather.StackLookup(stack, hs, sparse, granularity);
    var look := x => ScatterGather.StackAt(stack, sparse, granularity, x);
    forall x
      ensures at(x).InLog? ==> at(x).level < |stack| + 1 && at(x).lbn >= 0
      ensures at(x).InBase? ==> at(x).lbn >= 0
    {
      assert at(x) == look(x);
    }
  }

  /** COWAsyncFileRead: prepare the lists, clearing memory on the way; the bytes of the lists then arrive in
      any order. If no issued command is writing what is read, only a range past the end or an unaligned one
      fails, and once all has arrived memory holds the last completed writes. */
  method Read(at: int -> Where, validRedos: nat, granularity: nat, fileLength: int, req: seq<ScatterGather.SG>, mem0: map<int, int>,
              ghost stack: seq<State>, ghost hs: seq<History>, ghost base: Disk, ghost sparse: bool)
    returns (ok: bool, lists: seq<seq<ScatterGather.SG>>, mem: map<int, int>)
    requires granularity > 0 && Sound(stack, hs, granularity) && LooksUp(at, stack, sparse, granularity) && validRedos == |stack|
    ensures ok ==> |lists| == |stack| + 1
    ensures ok && AllSettled(stack, granularity, req) && Apart(at, granularity, req) ==>
      forall arrivals :: ScatterGather.Arrivals(lists, arrivals) ==>
        ReadDone(mem0, ScatterGather.Filled(mem, Files(stack, base), arrivals), hs, base, sparse, granularity, req)
    ensures !ok && AllSettled(stack, granularity, req) ==>
      exists i :: 0 <= i < |req| && (req[i].offset + req[i].length > fileLength || req[i].offset % ScatterGather.SECTOR_SIZE != 0)
    ensures (exists i :: 0 <= i < |req| && req[i].offset + req[i].length > fileLength) ==> !ok
  {
    hide Sound, Settled, AllSettled, Apart, ReadDone, Files, LooksUp, ScatterGather.LookupOk, ScatterGather.Gathered, ScatterGather.Disjoint,
         ScatterGather.AllBytes, ScatterGather.Unreadable, ScatterGather.Cleared, ScatterGather.Filled, ScatterGather.Effect;
    LookupFits(at, stack, hs, sparse, granularity);
    var status, clears, totalBlocks;
    status, lists, clears, totalBlocks := ScatterGather.PrepareRead(at, granularity, validRedos + 1, fileLength, req);
    mem := ScatterGather.Cleared(mem0, ScatterGather.ClearsOf(clears));
    ok := status == ScatterGather.OK;
    if !ok {
      UnreadableNot(at, stack, hs, base, sparse, granularity, req);
    } else {
      forall arrivals | ScatterGather.Arrivals(lists, arrivals) && AllSettled(stack, granularity, req) && Apart(at, granularity, req)
        ensures ReadDone(mem0, ScatterGather.Filled(mem, Files(stack, base), arrivals), hs, base, sparse, granularity, req)
      {
        ReadAll(at, stack, hs, base, sparse, granularity, req, mem0, lists, clears, arrivals);
      }
    }
  }

  lemma UnreadableNot(at: int -> Where, stack: seq<State>, hs: seq<History>, base: Disk, sparse: bool, granularity: nat, req: seq<ScatterGather.SG>)
    requires granularity > 0 && Sound(stack, hs, granularity) && LooksUp(at, stack, sparse, granularity)
    ensures AllSettled(stack, granularity, req) ==>
      forall i :: 0 <= i < |req| ==> !ScatterGather.Unreadable(at, granularity * ScatterGather.SECTOR_SIZE, req[i])
  {
    hide Sound, LooksUp, AllSettled, ScatterGather.Unreadable;
    if AllSettled(stack, granularity, req) {
      forall i | 0 <= i < |req| ensures !ScatterGather.Unreadable(at, granularity * ScatterGather.SECTOR_SIZE, req[i]) {
        NeverUnreadable(at, stack, hs, base, sparse, granularity, req, i);
      }
    }
  }

  /** All bytes have arrived. */
  lemma ReadAll(at: int -> Where, stack: seq<State>, hs: seq<History>, base: Disk, sparse: bool, granularity: nat, req: seq<ScatterGather.SG>,
                mem: map<int, int>, lists: seq<seq<ScatterGather.SG>>, clears: seq<ScatterGather.SG>, arrivals: seq<ScatterGather.Arrival>)
    requires granularity > 0 && Sound(stack, hs, granularity) && LooksUp(at, stack, sparse, granularity)
    requires |lists| == |stack| + 1 && ScatterGather.Arrivals(lists, arrivals)
    requires ScatterGather.Gathered(lists, clears, ScatterGather.AllBytes(at, granularity * ScatterGather.SECTOR_SIZE, req, |req|))
    requires AllSettled(stack, granularity, req) && Apart(at, granularity, req)
    ensures ReadDone(mem, ScatterGather.Filled(ScatterGather.Cleared(mem, ScatterGather.ClearsOf(clears)), Files(stack, base), arrivals),
                     hs, base, sparse, granularity, req)
  {
    hide Sound, AllSettled, ReadDone, Files, LooksUp, ScatterGather.Gathered, ScatterGather.Disjoint, ScatterGather.AllBytes,
         ScatterGather.Cleared, ScatterGather.Filled, ScatterGather.Effect;
    var bytes := ScatterGather.AllBytes(at, granularity * ScatterGather.SECTOR_SIZE, req, |req|);
    var mem' := ScatterGather.Filled(ScatterGather.Cleared(mem, ScatterGather.ClearsOf(clears)), Files(stack, base), arrivals);
    ScatterGather.SameEffect(mem, Files(stack, base), lists, clears, bytes, arrivals);
    EffectLayers(at, stack, hs, base, sparse, granularity, req, mem, mem');
  }
}
