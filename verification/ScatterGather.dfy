/** COWPrepareIOInfo for a read: a request split at grain boundaries, each piece sent to the file that has
    the grain, and pieces that follow each other in the file and in memory merged. */
module ScatterGather {
  import opened CowDisk
  import CowState
  import CowInvariant
  import CowCrash
  import opened CowStack

  const SECTOR_SIZE: int := 512

  /** length bytes of a file from offset, and the memory at addr. */
  datatype SG = SG(offset: nat, length: nat, addr: int)

  datatype Status = OK | LimitExceeded | ReadError | BadParam

  // ----- byte by byte

  /** Where one byte of the disk is: in a file (0 is the base, k the k-th redo log), or a zero. */
  datatype Source = InFile(file: nat, offset: int) | Zero | Nowhere

  datatype ByteCopy = ByteCopy(source: Source, to: int)

  datatype Move = Move(from: int, to: int)

  function SourceOf(at: int -> Where, grainSize: int, offset: nat): Source
    requires grainSize > 0
  {
    match at(offset / grainSize)
    case InLog(k, lbn) => InFile(k, lbn * SECTOR_SIZE + offset % grainSize)
    case InBase(lbn) => InFile(0, lbn * SECTOR_SIZE + offset % grainSize)
    case NullSector => Zero
    case Failed => Nowhere
  }

  /** The first n bytes of an entry, each resolved on its own. */
  function EntryBytes(at: int -> Where, grainSize: int, e: SG, n: nat): seq<ByteCopy>
    requires grainSize > 0
  {
    seq(n, b requires b >= 0 => ByteCopy(SourceOf(at, grainSize, e.offset + b), e.addr + b))
  }

  /** The bytes of the first n entries of a request. */
  function AllBytes(at: int -> Where, grainSize: int, req: seq<SG>, n: nat): seq<ByteCopy>
    requires grainSize > 0 && n <= |req|
  {
    if n == 0 then [] else AllBytes(at, grainSize, req, n - 1) + EntryBytes(at, grainSize, req[n - 1], req[n - 1].length)
  }

  /** The moves of those bytes that are in the file, in order. */
  function OnFile(bytes: seq<ByteCopy>, file: nat): seq<Move>
    decreases |bytes|
  {
    if bytes == [] then []
    else
      var c := bytes[|bytes| - 1];
      OnFile(bytes[..|bytes| - 1], file) + if c.source.InFile? && c.source.file == file then [Move(c.source.offset, c.to)] else []
  }

  /** The memory to be zeroed, in order. */
  function ToZero(bytes: seq<ByteCopy>): seq<int>
    decreases |bytes|
  {
    if bytes == [] then []
    else
      var c := bytes[|bytes| - 1];
      ToZero(bytes[..|bytes| - 1]) + if c.source.Zero? then [c.to] else []
  }

  /** The bytes one scatter-gather entry moves, and those a list moves. */
  function EntryMoves(e: SG): seq<Move>
  {
    seq(e.length, b requires b >= 0 => Move(e.offset + b, e.addr + b))
  }

  function MovesOf(list: seq<SG>): seq<Move>
    decreases |list|
  {
    if list == [] then [] else MovesOf(list[..|list| - 1]) + EntryMoves(list[|list| - 1])
  }

  /** The memory a list of clears covers. */
  function ClearsOf(clears: seq<SG>): seq<int>
    decreases |clears|
  {
    if clears == [] then []
    else
      var e := clears[|clears| - 1];
      ClearsOf(clears[..|clears| - 1]) + seq(e.length, b requires b >= 0 => e.addr + b)
  }

  // ----- lemmas

  lemma {:induction false} OnFileAppend(a: seq<ByteCopy>, b: seq<ByteCopy>, file: nat)
    ensures OnFile(a + b, file) == OnFile(a, file) + OnFile(b, file)
    decreases |b|
  {
    if b == [] {
      assert a + b == a;
    } else {
      OnFileAppend(a, b[..|b| - 1], file);
      assert (a + b)[..|a + b| - 1] == a + b[..|b| - 1];
    }
  }

  lemma {:induction false} ToZeroAppend(a: seq<ByteCopy>, b: seq<ByteCopy>)
    ensures ToZero(a + b) == ToZero(a) + ToZero(b)
    decreases |b|
  {
    if b == [] {
      assert a + b == a;
    } else {
      ToZeroAppend(a, b[..|b| - 1]);
      assert (a + b)[..|a + b| - 1] == a + b[..|b| - 1];
    }
  }

  /** Bytes that are in no file one looks at, or all in one file and in a row. */
  lemma {:induction false} PieceMoves(piece: seq<ByteCopy>, file: nat, offset: nat, addr: int)
    requires forall b :: 0 <= b < |piece| ==> piece[b] == ByteCopy(InFile(file, offset + b), addr + b)
    ensures OnFile(piece, file) == EntryMoves(SG(offset, |piece|, addr))
    ensures forall f: nat :: f != file ==> OnFile(piece, f) == []
    ensures ToZero(piece) == []
    decreases |piece|
  {
    if piece != [] {
      PieceMoves(piece[..|piece| - 1], file, offset, addr);
      assert EntryMoves(SG(offset, |piece|, addr)) == EntryMoves(SG(offset, |piece| - 1, addr)) + [Move(offset + |piece| - 1, addr + |piece| - 1)];
    }
  }

  lemma {:induction false} PieceZero(piece: seq<ByteCopy>, addr: int)
    requires forall b :: 0 <= b < |piece| ==> piece[b] == ByteCopy(Zero, addr + b)
    ensures ToZero(piece) == seq(|piece|, b requires b >= 0 => addr + b)
    ensures forall f: nat :: OnFile(piece, f) == []
    decreases |piece|
  {
    if piece != [] {
      PieceZero(piece[..|piece| - 1], addr);
    }
  }

  lemma MovesAppend(list: seq<SG>, e: SG)
    ensures MovesOf(list + [e]) == MovesOf(list) + EntryMoves(e)
  {
    assert (list + [e])[..|list|] == list;
  }

  lemma ClearsAppend(clears: seq<SG>, e: SG)
    ensures ClearsOf(clears + [e]) == ClearsOf(clears) + seq(e.length, b requires b >= 0 => e.addr + b)
  {
    assert (clears + [e])[..|clears|] == clears;
  }

  /** Merging an entry with the one it continues, in the file and in memory, moves the same bytes. */
  lemma MergeMoves(list: seq<SG>, e: SG)
    requires list != []
    requires var last := list[|list| - 1]; e.offset == last.offset + last.length && e.addr == last.addr + last.length
    ensures var last := list[|list| - 1];
      MovesOf(list[|list| - 1 := last.(length := last.length + e.length)]) == MovesOf(list) + EntryMoves(e)
  {
    var last := list[|list| - 1];
    var merged := last.(length := last.length + e.length);
    var list' := list[|list| - 1 := merged];
    assert list'[..|list'| - 1] == list[..|list| - 1];
    assert EntryMoves(merged) == EntryMoves(last) + EntryMoves(e);
  }

  /** The bytes up to the end of a grain are in that grain, in a row. */
  lemma SameGrain(cur: nat, grainSize: int, b: nat)
    requires grainSize > 0 && b < grainSize - cur % grainSize
    ensures (cur + b) / grainSize == cur / grainSize && (cur + b) % grainSize == cur % grainSize + b
  {
    DivUnique(cur + b, grainSize, cur / grainSize, cur % grainSize + b);
  }

  lemma NextGrain(cur: nat, grainSize: int)
    requires grainSize > 0
    ensures var next := cur + (grainSize - cur % grainSize); next / grainSize == cur / grainSize + 1 && next % grainSize == 0
  {
    DivUnique(cur + (grainSize - cur % grainSize), grainSize, cur / grainSize + 1, 0);
  }

  lemma MulAtLeast(x: int, n: int)
    requires n > 0
    ensures x >= 1 ==> x * n >= n
    ensures x <= -1 ==> x * n <= -n
  {
    if x >= 1 {
      assert (x - 1) * n >= 0;
    } else if x <= -1 {
      assert (-x - 1) * n >= 0;
    }
  }

  lemma DivUnique(a: int, n: int, q: int, r: int)
    requires n > 0 && 0 <= r < n && a == q * n + r
    ensures a / n == q && a % n == r
  {
    DivMod(a, n);
    Distribute(q, a / n, n);
    MulAtLeast(q - a / n, n);
  }

  lemma DivMod(a: int, n: int)
    requires n > 0
    ensures a == a / n * n + a % n && 0 <= a % n < n
  {
  }

  lemma Distribute(x: int, y: int, n: int)
    ensures (x - y) * n == x * n - y * n
  {
  }

  lemma DivOrder(a: int, b: int, n: int)
    requires n > 0 && a <= b
    ensures a / n <= b / n
  {
    DivMod(a, n);
    DivMod(b, n);
    Distribute(a / n, b / n, n);
    MulAtLeast(a / n - b / n, n);
  }

  /** The grains an entry touches, as COWPrepareIOInfo counts them; 0 or 1 for an empty entry. */
  function Blocks(e: SG, grainSize: int): int
    requires grainSize > 0
  {
    (e.offset + e.length - 1) / grainSize - e.offset / grainSize + 1
  }

  function TotalBlocks(req: seq<SG>, grainSize: int, n: nat): int
    requires grainSize > 0 && n <= |req|
  {
    if n == 0 then 0 else TotalBlocks(req, grainSize, n - 1) + Blocks(req[n - 1], grainSize)
  }

  // ----- the lists built

  /** The lists and clears do exactly the copies of the bytes: every byte in a file once, by that file's
      list, in order; every zero byte once. */
  ghost predicate Gathered(lists: seq<seq<SG>>, clears: seq<SG>, bytes: seq<ByteCopy>)
  {
    && (forall f :: 0 <= f < |lists| ==> MovesOf(lists[f]) == OnFile(bytes, f))
    && ClearsOf(clears) == ToZero(bytes)
    && forall b :: 0 <= b < |bytes| ==> (bytes[b].source.InFile? && bytes[b].source.file < |lists|) || bytes[b].source.Zero?
  }

  lemma GatherFile(lists: seq<seq<SG>>, clears: seq<SG>, bytes: seq<ByteCopy>, piece: seq<ByteCopy>, file: nat, list': seq<SG>, e: SG)
    requires Gathered(lists, clears, bytes) && file < |lists| && MovesOf(list') == MovesOf(lists[file]) + EntryMoves(e) && e.length == |piece|
    requires forall b :: 0 <= b < |piece| ==> piece[b] == ByteCopy(InFile(file, e.offset + b), e.addr + b)
    ensures Gathered(lists[file := list'], clears, bytes + piece)
  {
    hide EntryMoves, MovesOf, OnFile, ToZero, ClearsOf;
    PieceMoves(piece, file, e.offset, e.addr);
    ToZeroAppend(bytes, piece);
    assert ToZero(bytes) + [] == ToZero(bytes);
    forall f | 0 <= f < |lists| ensures MovesOf(lists[file := list'][f]) == OnFile(bytes + piece, f) {
      OnFileAppend(bytes, piece, f);
      if f != file {
        assert OnFile(bytes, f) + [] == OnFile(bytes, f);
      }
    }
  }

  lemma GatherZero(lists: seq<seq<SG>>, clears: seq<SG>, bytes: seq<ByteCopy>, piece: seq<ByteCopy>, addr: int)
    requires Gathered(lists, clears, bytes)
    requires forall b :: 0 <= b < |piece| ==> piece[b] == ByteCopy(Zero, addr + b)
    ensures Gathered(lists, clears + [SG(0, |piece|, addr)], bytes + piece)
  {
    hide EntryMoves, MovesOf, OnFile, ToZero, ClearsOf;
    PieceZero(piece, addr);
    ToZeroAppend(bytes, piece);
    ClearsAppend(clears, SG(0, |piece|, addr));
    forall f | 0 <= f < |lists| ensures MovesOf(lists[f]) == OnFile(bytes + piece, f) {
      OnFileAppend(bytes, piece, f);
      assert OnFile(bytes, f) + [] == OnFile(bytes, f);
    }
  }

  /** One piece joins a file's list: merged with the last entry, or appended. A gap at a file offset that
      does not start a sector is refused. */
  method AddPiece(list: seq<SG>, e: SG, ghost capacity: int) returns (status: Status, list': seq<SG>)
    requires |list| < capacity
    ensures status == OK ==> MovesOf(list') == MovesOf(list) + EntryMoves(e) && |list'| <= |list| + 1 <= capacity
    ensures status == OK || status == BadParam
    ensures status == BadParam <==> list != [] && e.offset != list[|list| - 1].offset + list[|list| - 1].length && e.offset % SECTOR_SIZE != 0
  {
    hide EntryMoves, MovesOf;
    status := OK;
    if |list| > 0 {
      var last := list[|list| - 1];
      if e.offset != last.offset + last.length {
        if e.offset % SECTOR_SIZE != 0 {
          return BadParam, list;
        }
      } else if e.addr == last.addr + last.length {
        MergeMoves(list, e);
        return OK, list[|list| - 1 := last.(length := last.length + e.length)];
      }
    }
    MovesAppend(list, e);
    list' := list + [e];
  }

  // ----- one entry of the request

  /** Files and sectors the lookup may answer with. */
  ghost predicate LookupOk(at: int -> Where, files: nat)
  {
    forall x ::
      && (at(x).InLog? ==> at(x).level < files && at(x).lbn >= 0)
      && (at(x).InBase? ==> 0 < files && at(x).lbn >= 0)
  }

  lemma PieceIs(at: int -> Where, grainSize: int, e: SG, done: nat, n: nat, b: nat)
    requires grainSize > 0 && b < n <= grainSize - (e.offset + done) % grainSize
    ensures var cur := e.offset + done;
      SourceOf(at, grainSize, cur + b) == match at(cur / grainSize)
        case InLog(k, lbn) => InFile(k, lbn * SECTOR_SIZE + cur % grainSize + b)
        case InBase(lbn) => InFile(0, lbn * SECTOR_SIZE + cur % grainSize + b)
        case NullSector => Zero
        case Failed => Nowhere
  {
    SameGrain(e.offset + done, grainSize, b);
  }

  /** The next n bytes of an entry. */
  function Piece(at: int -> Where, grainSize: int, e: SG, done: nat, n: nat): seq<ByteCopy>
    requires grainSize > 0
  {
    seq(n, b requires b >= 0 => ByteCopy(SourceOf(at, grainSize, e.offset + done + b), e.addr + done + b))
  }

  lemma BytesMore(at: int -> Where, grainSize: int, e: SG, done: nat, n: nat)
    requires grainSize > 0
    ensures EntryBytes(at, grainSize, e, done + n) == EntryBytes(at, grainSize, e, done) + Piece(at, grainSize, e, done, n)
  {
    hide SourceOf;
  }

  lemma PieceInFile(at: int -> Where, grainSize: int, e: SG, done: nat, n: nat, file: nat, start: nat)
    requires grainSize > 0 && n <= grainSize - (e.offset + done) % grainSize
    requires var w := at((e.offset + done) / grainSize);
      (w.InLog? && file == w.level && start == w.lbn * SECTOR_SIZE + (e.offset + done) % grainSize)
      || (w.InBase? && file == 0 && start == w.lbn * SECTOR_SIZE + (e.offset + done) % grainSize)
    ensures forall b :: 0 <= b < n ==> Piece(at, grainSize, e, done, n)[b] == ByteCopy(InFile(file, start + b), e.addr + done + b)
  {
    hide SourceOf;
    forall b | 0 <= b < n ensures Piece(at, grainSize, e, done, n)[b] == ByteCopy(InFile(file, start + b), e.addr + done + b) {
      PieceIs(at, grainSize, e, done, n, b);
    }
  }

  lemma PieceAllZero(at: int -> Where, grainSize: int, e: SG, done: nat, n: nat)
    requires grainSize > 0 && n <= grainSize - (e.offset + done) % grainSize && at((e.offset + done) / grainSize) == NullSector
    ensures forall b :: 0 <= b < n ==> Piece(at, grainSize, e, done, n)[b] == ByteCopy(Zero, e.addr + done + b)
  {
    hide SourceOf;
    forall b | 0 <= b < n ensures Piece(at, grainSize, e, done, n)[b] == ByteCopy(Zero, e.addr + done + b) {
      PieceIs(at, grainSize, e, done, n, b);
    }
  }

  /** Within a grain the offset in the sector is that of the request. */
  lemma SectorOffset(cur: nat, granularity: int)
    requires granularity > 0
    ensures cur % (granularity * SECTOR_SIZE) % SECTOR_SIZE == cur % SECTOR_SIZE
  {
    var n := granularity * SECTOR_SIZE;
    var q, r := cur / n, cur % n;
    DivMod(cur, n);
    MulSwap(q, granularity);
    DivUnique(r, SECTOR_SIZE, r / SECTOR_SIZE, r % SECTOR_SIZE);
    DivUnique(cur, SECTOR_SIZE, q * granularity + r / SECTOR_SIZE, r % SECTOR_SIZE);
  }

  lemma MulSwap(q: int, granularity: int)
    ensures q * (granularity * SECTOR_SIZE) == q * granularity * SECTOR_SIZE
  {
  }

  /** Some byte of the entry is in a sector the lookup fails on. */
  ghost predicate Unreadable(at: int -> Where, grainSize: int, e: SG)
    requires grainSize > 0
  {
    exists b :: 0 <= b < e.length && EntryBytes(at, grainSize, e, e.length)[b].source == Nowhere
  }

  /** The lookup PrepareRead is given: where the stack has the first sector of a grain. */
  ghost function StackAt(stack: seq<CowState.State>, sparse: bool, granularity: int, block: int): Where
  {
    if block >= 0 && forall i :: 0 <= i < |stack| ==> stack[i].granularity > 0 then Locate(stack, sparse, |stack|, block * granularity) else Failed
  }

  lemma {:induction false} LocateOk(stack: seq<CowState.State>, hs: seq<CowInvariant.History>, sparse: bool, k: nat, sector: int)
    requires |hs| == |stack| && k <= |stack| && sector >= 0
    requires forall i :: 0 <= i < |stack| ==> CowInvariant.Inv(stack[i], hs[i]) && stack[i].granularity > 0
    ensures var w := Locate(stack, sparse, k, sector);
      (w.InLog? ==> w.level <= k && w.lbn >= 0) && (w.InBase? ==> w.lbn >= 0)
  {
    hide CowInvariant.Inv, DiskEntry;
    if k > 0 {
      var s := stack[k - 1];
      var g := CowState.ToGrain(s.granularity, sector);
      if 0 <= g.root < |s.rootEntries| {
        EntryPositive(s, hs[k - 1], g);
        LocateOk(stack, hs, sparse, k - 1, sector);
      }
    }
  }

  lemma EntryPositive(s: CowState.State, h: CowInvariant.History, g: CowState.Grain)
    requires CowInvariant.Inv(s, h) && CowState.IsGrain(g, |s.rootEntries|)
    ensures DiskEntry(s, g) >= 0
  {
    hide CowInvariant.Inv, At;
    CowCrash.InvSound(s, h);
    CowCrash.SoundEntry(s.disk, s.rootOffset, s.rootEntries, s.freeSector, s.granularity, h.extents, h.finished, g.root, g.pos);
  }

  /** The stack's lookup answers with files and sectors there are. */
  lemma StackLookup(stack: seq<CowState.State>, hs: seq<CowInvariant.History>, sparse: bool, granularity: nat)
    requires |hs| == |stack|
    requires forall i :: 0 <= i < |stack| ==> CowInvariant.Inv(stack[i], hs[i]) && stack[i].granularity > 0
    ensures LookupOk(x => StackAt(stack, sparse, granularity, x), |stack| + 1)
  {
    hide CowInvariant.Inv;
    forall x: int
      ensures var w := StackAt(stack, sparse, granularity, x); (w.InLog? ==> w.level <= |stack| && w.lbn >= 0) && (w.InBase? ==> w.lbn >= 0)
    {
      if x >= 0 {
        LocateOk(stack, hs, sparse, |stack|, x * granularity);
      }
    }
  }

  /** The piece of an entry that lies in one grain. */
  method OnePiece(at: int -> Where, granularity: int, e: SG, done: nat, toXfer: nat, blockNumber: int, blockOffset: int,
      lists0: seq<seq<SG>>, clears0: seq<SG>, ghost bytes: seq<ByteCopy>, ghost most: int, ghost capacity: int)
    returns (status: Status, lists: seq<seq<SG>>, clears: seq<SG>)
    requires granularity > 0 && LookupOk(at, |lists0|) && Gathered(lists0, clears0, bytes + EntryBytes(at, granularity * SECTOR_SIZE, e, done))
    requires blockNumber == (e.offset + done) / (granularity * SECTOR_SIZE) && blockOffset == (e.offset + done) % (granularity * SECTOR_SIZE)
    requires toXfer <= granularity * SECTOR_SIZE - blockOffset && most < capacity && forall f :: 0 <= f < |lists0| ==> |lists0[f]| <= most
    ensures status == OK ==>
      && |lists| == |lists0| && Gathered(lists, clears, bytes + EntryBytes(at, granularity * SECTOR_SIZE, e, done + toXfer))
      && forall f :: 0 <= f < |lists| ==> |lists[f]| <= most + 1
    ensures status == OK || (status == BadParam && blockOffset % SECTOR_SIZE != 0) || (status == ReadError && at(blockNumber) == Failed)
  {
    hide Gathered, EntryBytes, Blocks, Piece, SourceOf, MovesOf, EntryMoves;
    var grainSize := granularity * SECTOR_SIZE;
    lists, clears := lists0, clears0;
    ghost var before := bytes + EntryBytes(at, grainSize, e, done);
    ghost var next := Piece(at, grainSize, e, done, toXfer);
    BytesMore(at, grainSize, e, done, toXfer);
    assert bytes + EntryBytes(at, grainSize, e, done + toXfer) == before + next;
    PieceSize(at, grainSize, e, done, toXfer);
    var where := at(blockNumber);
    if where == Failed {
      status := ReadError;
    } else if where == NullSector {
      PieceAllZero(at, grainSize, e, done, toXfer);
      GatherZero(lists, clears, before, next, e.addr + done);
      status, clears := OK, clears + [SG(0, toXfer, e.addr + done)];
    } else {
      var index := if where.InLog? then where.level else 0;
      var piece := SG(where.lbn * SECTOR_SIZE + blockOffset, toXfer, e.addr + done);
      var list;
      status, list := AddPiece(lists[index], piece, capacity);
      if status == OK {
        PieceInFile(at, grainSize, e, done, toXfer, index, piece.offset);
        GatherFile(lists, clears, before, next, index, list, piece);
        lists := lists[index := list];
      }
    }
  }

  method SplitEntry(at: int -> Where, granularity: int, e: SG, lists0: seq<seq<SG>>, clears0: seq<SG>, ghost bytes: seq<ByteCopy>, ghost used: int, ghost capacity: int)
    returns (status: Status, lists: seq<seq<SG>>, clears: seq<SG>)
    requires granularity > 0 && LookupOk(at, |lists0|) && Gathered(lists0, clears0, bytes)
    requires used + Blocks(e, granularity * SECTOR_SIZE) <= capacity && forall f :: 0 <= f < |lists0| ==> |lists0[f]| <= used
    ensures status == OK ==>
      && |lists| == |lists0| && Gathered(lists, clears, bytes + EntryBytes(at, granularity * SECTOR_SIZE, e, e.length))
      && forall f :: 0 <= f < |lists| ==> |lists[f]| <= used + Blocks(e, granularity * SECTOR_SIZE)
    ensures status == BadParam ==> e.offset % SECTOR_SIZE != 0
    ensures status == ReadError <==> status != OK && status != BadParam
    ensures status == ReadError ==> Unreadable(at, granularity * SECTOR_SIZE, e)
  {
    hide Gathered, EntryBytes, Blocks, LookupOk, Unreadable;
    var grainSize := granularity * SECTOR_SIZE;
    lists, clears := lists0, clears0;
    ghost var first := e.offset / grainSize;
    var blockNumber := e.offset / grainSize;
    var blockOffset := e.offset % grainSize;
    var bytesLeft: nat := e.length;
    NoBytes(at, grainSize, e, bytes);
    BlocksLeft(e, grainSize, 0);
    while bytesLeft > 0
      invariant bytesLeft <= e.length && |lists| == |lists0|
      invariant Gathered(lists, clears, bytes + EntryBytes(at, grainSize, e, e.length - bytesLeft))
      invariant bytesLeft > 0 ==> blockNumber == (e.offset + (e.length - bytesLeft)) / grainSize && blockOffset == (e.offset + (e.length - bytesLeft)) % grainSize
      invariant bytesLeft < e.length ==> blockOffset == 0
      invariant forall f :: 0 <= f < |lists| ==> |lists[f]| <= used + (blockNumber - first)
      invariant blockNumber - first <= Blocks(e, grainSize)
    {
      var done: nat := e.length - bytesLeft;
      BlocksLeft(e, grainSize, done);
      GrainRest(e.offset + done, grainSize);
      var toXfer: nat := grainSize - blockOffset;
      if toXfer > bytesLeft {
        toXfer := bytesLeft;
      }
      status, lists, clears := OnePiece(at, granularity, e, done, toXfer, blockNumber, blockOffset, lists, clears, bytes, used + (blockNumber - first), capacity);
      if status != OK {
        SectorOffset(e.offset + done, granularity);
        FailedByte(at, grainSize, e, done);
        return;
      }
      NextGrain(e.offset + done, grainSize);
      bytesLeft := bytesLeft - toXfer;
      blockNumber := blockNumber + 1;
      blockOffset := 0;
    }
    status := OK;
  }

  lemma GrainRest(cur: nat, grainSize: int)
    requires grainSize > 0
    ensures 0 <= cur % grainSize < grainSize
  {
  }

  lemma NoBytes(at: int -> Where, grainSize: int, e: SG, bytes: seq<ByteCopy>)
    requires grainSize > 0
    ensures bytes + EntryBytes(at, grainSize, e, 0) == bytes
  {
  }

  lemma PieceSize(at: int -> Where, grainSize: int, e: SG, done: nat, n: nat)
    requires grainSize > 0
    ensures |Piece(at, grainSize, e, done, n)| == n
  {
  }

  lemma FailedByte(at: int -> Where, grainSize: int, e: SG, done: nat)
    requires grainSize > 0 && done < e.length
    ensures at((e.offset + done) / grainSize) == Failed ==> Unreadable(at, grainSize, e)
  {
    assert EntryBytes(at, grainSize, e, e.length)[done].source == SourceOf(at, grainSize, e.offset + done);
  }

  /** The grains not yet reached are among those counted. */
  lemma BlocksLeft(e: SG, grainSize: int, done: nat)
    requires grainSize > 0
    ensures done < e.length ==> (e.offset + done) / grainSize - e.offset / grainSize < Blocks(e, grainSize)
    ensures Blocks(e, grainSize) >= 0
  {
    if done < e.length {
      DivOrder(e.offset + done, e.offset + e.length - 1, grainSize);
    }
    DivOrder(e.offset, e.offset - 1 + grainSize, grainSize);
    DivOrder(e.offset - 1, e.offset + e.length - 1, grainSize);
    DivStep(e.offset - 1, grainSize);
  }

  lemma DivStep(a: int, n: int)
    requires n > 0
    ensures (a + n) / n == a / n + 1
  {
    DivMod(a, n);
    Distribute(a / n, -1, n);
    DivUnique(a + n, n, a / n + 1, a % n);
  }

  // ----- the whole request

  lemma {:induction false} BlocksSum(req: seq<SG>, grainSize: int, m: nat, n: nat)
    requires grainSize > 0 && m <= n <= |req|
    ensures TotalBlocks(req, grainSize, m) <= TotalBlocks(req, grainSize, n)
    decreases n
  {
    if m < n {
      BlocksSum(req, grainSize, m, n - 1);
      BlocksLeft(req[n - 1], grainSize, 0);
    }
  }

  /** COWPrepareIOInfo for a read. On success the lists, one for the base and one for each redo log, move
      every byte of the request that is in that file once and in order, exactly as looking up each byte on
      its own would; the rest is zeroed; and no list outgrows the totalBlocks entries allocated for it. */
  method PrepareRead(at: int -> Where, granularity: int, files: nat, fileLength: int, req: seq<SG>)
    returns (status: Status, lists: seq<seq<SG>>, clears: seq<SG>, totalBlocks: int)
    requires granularity > 0 && LookupOk(at, files)
    ensures status == OK ==>
      && |lists| == files && Gathered(lists, clears, AllBytes(at, granularity * SECTOR_SIZE, req, |req|))
      && forall f :: 0 <= f < files ==> |lists[f]| <= totalBlocks
    ensures status == LimitExceeded <==> exists i :: 0 <= i < |req| && req[i].offset + req[i].length > fileLength
    ensures status == ReadError ==> exists i :: 0 <= i < |req| && Unreadable(at, granularity * SECTOR_SIZE, req[i])
    ensures status == BadParam ==> exists i :: 0 <= i < |req| && req[i].offset % SECTOR_SIZE != 0
  {
    hide Gathered, EntryBytes, Blocks, Unreadable, LookupOk;
    var grainSize := granularity * SECTOR_SIZE;
    lists, clears, totalBlocks := [], [], 0;
    for i := 0 to |req|
      invariant totalBlocks == TotalBlocks(req, grainSize, i)
      invariant forall k :: 0 <= k < i ==> req[k].offset + req[k].length <= fileLength
    {
      if req[i].offset + req[i].length > fileLength {
        return LimitExceeded, lists, clears, totalBlocks;
      }
      totalBlocks := totalBlocks + Blocks(req[i], grainSize);
    }
    lists := seq(files, f => []);
    assert Gathered(lists, clears, []) by { NothingGathered(files); }
    for i := 0 to |req|
      invariant |lists| == files && Gathered(lists, clears, AllBytes(at, grainSize, req, i))
      invariant forall f :: 0 <= f < files ==> |lists[f]| <= TotalBlocks(req, grainSize, i)
    {
      BlocksSum(req, grainSize, i + 1, |req|);
      status, lists, clears := SplitEntry(at, granularity, req[i], lists, clears, AllBytes(at, grainSize, req, i), TotalBlocks(req, grainSize, i), totalBlocks);
      if status != OK {
        return;
      }
    }
    status := OK;
  }

  lemma NothingGathered(files: nat)
    ensures Gathered(seq(files, f => []), [], [])
  {
  }

  // ----- what the lists do

  /** No two bytes of the request go to the same place in memory. */
  ghost predicate Disjoint(bytes: seq<ByteCopy>)
  {
    forall a, b :: 0 <= a < b < |bytes| ==> bytes[a].to != bytes[b].to
  }

  /** One byte read from a file. */
  datatype Arrival = Arrival(file: nat, move: Move)

  function CopyOf(a: Arrival): ByteCopy
  {
    ByteCopy(InFile(a.file, a.move.from), a.move.to)
  }

  /** The bytes the lists read arrive, in whatever order. */
  ghost predicate Arrivals(lists: seq<seq<SG>>, arrivals: seq<Arrival>)
  {
    && (forall i :: 0 <= i < |arrivals| ==> arrivals[i].file < |lists| && arrivals[i].move in MovesOf(lists[arrivals[i].file]))
    && (forall f, m :: 0 <= f < |lists| && m in MovesOf(lists[f]) ==> Arrival(f, m) in arrivals)
  }

  /** Memory after some arrivals, the earliest first. */
  function Filled(mem: map<int, int>, files: seq<int -> int>, arrivals: seq<Arrival>): map<int, int>
    requires forall i :: 0 <= i < |arrivals| ==> arrivals[i].file < |files|
    decreases |arrivals|
  {
    if arrivals == [] then mem
    else
      var a := arrivals[|arrivals| - 1];
      Filled(mem, files, arrivals[..|arrivals| - 1])[a.move.to := files[a.file](a.move.from)]
  }

  /** Memory after the clears, which are done while the lists are built. */
  function Cleared(mem: map<int, int>, addrs: seq<int>): map<int, int>
  {
    mem + map a | a in addrs :: 0
  }

  ghost predicate SameAt(mem: map<int, int>, mem': map<int, int>, a: int)
  {
    (a in mem' <==> a in mem) && (a in mem ==> mem'[a] == mem[a])
  }

  /** The byte is in its place. */
  ghost predicate Arrived(mem': map<int, int>, files: seq<int -> int>, c: ByteCopy)
  {
    && (c.source.Zero? ==> c.to in mem' && mem'[c.to] == 0)
    && (c.source.InFile? && c.source.file < |files| ==> c.to in mem' && mem'[c.to] == files[c.source.file](c.source.offset))
  }

  /** Byte by byte: every byte is in its place, and memory where no byte goes is as before. */
  ghost predicate Effect(mem: map<int, int>, mem': map<int, int>, files: seq<int -> int>, bytes: seq<ByteCopy>)
  {
    && (forall c :: c in bytes ==> Arrived(mem', files, c))
    && (forall a :: (forall c :: c in bytes ==> c.to != a) ==> SameAt(mem, mem', a))
  }

  lemma {:induction false} ToZeroIs(bytes: seq<ByteCopy>, a: int)
    ensures a in ToZero(bytes) <==> ByteCopy(Zero, a) in bytes
    decreases |bytes|
  {
    if bytes != [] {
      ToZeroIs(bytes[..|bytes| - 1], a);
      assert bytes == bytes[..|bytes| - 1] + [bytes[|bytes| - 1]];
    }
  }

  lemma {:induction false} OnFileIs(bytes: seq<ByteCopy>, a: Arrival)
    ensures a.move in OnFile(bytes, a.file) <==> CopyOf(a) in bytes
    decreases |bytes|
  {
    if bytes != [] {
      OnFileIs(bytes[..|bytes| - 1], a);
      assert bytes == bytes[..|bytes| - 1] + [bytes[|bytes| - 1]];
    }
  }

  /** A place changes only when its own byte arrives. */
  lemma {:induction false} FilledIs(mem: map<int, int>, files: seq<int -> int>, bytes: seq<ByteCopy>, arrivals: seq<Arrival>, c: ByteCopy)
    requires Disjoint(bytes) && c in bytes
    requires forall i :: 0 <= i < |arrivals| ==> arrivals[i].file < |files| && CopyOf(arrivals[i]) in bytes
    ensures var mem' := Filled(mem, files, arrivals);
      if c.source.InFile? && Arrival(c.source.file, Move(c.source.offset, c.to)) in arrivals then
        c.source.file < |files| && c.to in mem' && mem'[c.to] == files[c.source.file](c.source.offset)
      else SameAt(mem, mem', c.to)
    decreases |arrivals|
  {
    if arrivals != [] {
      var front, a := arrivals[..|arrivals| - 1], arrivals[|arrivals| - 1];
      FilledIs(mem, files, bytes, front, c);
      assert arrivals == front + [a];
      var i, j :| 0 <= i < |bytes| && bytes[i] == c && 0 <= j < |bytes| && bytes[j] == CopyOf(a);
      assert a.move.to == c.to ==> i == j;
    }
  }

  lemma {:induction false} FilledElsewhere(mem: map<int, int>, files: seq<int -> int>, arrivals: seq<Arrival>, a: int)
    requires forall i :: 0 <= i < |arrivals| ==> arrivals[i].file < |files| && arrivals[i].move.to != a
    ensures SameAt(mem, Filled(mem, files, arrivals), a)
    decreases |arrivals|
  {
    if arrivals != [] {
      FilledElsewhere(mem, files, arrivals[..|arrivals| - 1], a);
    }
  }

  lemma ArrivalsFrom(lists: seq<seq<SG>>, clears: seq<SG>, bytes: seq<ByteCopy>, arrivals: seq<Arrival>)
    requires Gathered(lists, clears, bytes) && Arrivals(lists, arrivals)
    ensures forall i :: 0 <= i < |arrivals| ==> CopyOf(arrivals[i]) in bytes
    ensures forall c :: c in bytes && c.source.InFile? ==> Arrival(c.source.file, Move(c.source.offset, c.to)) in arrivals
  {
    hide MovesOf, OnFile, ClearsOf, ToZero;
    forall i | 0 <= i < |arrivals| ensures CopyOf(arrivals[i]) in bytes {
      OnFileIs(bytes, arrivals[i]);
    }
    forall c | c in bytes && c.source.InFile? ensures Arrival(c.source.file, Move(c.source.offset, c.to)) in arrivals {
      var a := Arrival(c.source.file, Move(c.source.offset, c.to));
      OnFileIs(bytes, a);
      assert MovesOf(lists[a.file]) == OnFile(bytes, a.file);
    }
  }

  /** A request to disjoint memory, cleared and then read through its lists, the bytes arriving in whatever
      order, puts in each place the byte a lookup of its own grain finds, and leaves the rest of memory alone. */
  lemma SameEffect(mem: map<int, int>, files: seq<int -> int>, lists: seq<seq<SG>>, clears: seq<SG>, bytes: seq<ByteCopy>, arrivals: seq<Arrival>)
    requires |files| == |lists| && Gathered(lists, clears, bytes) && Disjoint(bytes) && Arrivals(lists, arrivals)
    ensures Effect(mem, Filled(Cleared(mem, ClearsOf(clears)), files, arrivals), files, bytes)
  {
    hide MovesOf, OnFile, ClearsOf, ToZero, Filled;
    var cleared := Cleared(mem, ClearsOf(clears));
    var mem' := Filled(cleared, files, arrivals);
    ArrivalsFrom(lists, clears, bytes, arrivals);
    forall c | c in bytes ensures Arrived(mem', files, c) {
      FilledIs(cleared, files, bytes, arrivals, c);
      ToZeroIs(bytes, c.to);
      assert c.source.Zero? ==> c == ByteCopy(Zero, c.to);
    }
    forall a | forall c :: c in bytes ==> c.to != a ensures SameAt(mem, mem', a) {
      ToZeroIs(bytes, a);
      assert ByteCopy(Zero, a).to == a;
      forall i | 0 <= i < |arrivals| ensures arrivals[i].move.to != a {
        assert CopyOf(arrivals[i]) in bytes;
      }
      FilledElsewhere(cleared, files, arrivals, a);
    }
  }
}
