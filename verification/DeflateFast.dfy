/** deflate_fast: the compression function of levels 1 to 3, without lazy evaluation. */
module DeflateFast {
  import opened Sums
  import opened Bits
  import opened Inflate
  import opened StaticTables
  import opened BitWriter
  import opened Tokens
  import opened Blocks
  import opened RollingHash
  import opened HashChains
  import opened LongestMatch
  import opened LazyParse
  import opened Lz77
  import opened Deflate
  import opened FillWindow
  import opened LazyMatch
  import opened DeflateSlow

  // ---------- What is skipped ----------

  /** p lies within a match whose strings are not inserted: longer than max_insert, or, at the end of the
      input, ending less than three bytes before it. */
  ghost predicate Within(finds: map<int, Find>, a: int, p: int, maxInsert: nat, n: int, end: bool)
  {
    a in finds && a < p < a + finds[a].len && (finds[a].len > maxInsert || (end && a + finds[a].len + MIN_MATCH > n))
  }

  predicate Lies(p: int, a: int, b: int)
  {
    a < p < b
  }

  function Between(a: int, b: int): set<int>
  {
    set p: int | a < p < b && Lies(p, a, b)
  }

  /** What deflate_fast may skip: positions within such a match, and at the end of the input the last ones. */
  ghost predicate Skippable(finds: map<int, Find>, p: int, maxInsert: nat, n: int, end: bool)
  {
    (end && p + MIN_MATCH > n) || exists a :: Within(finds, a, p, maxInsert, n, end)
  }

  ghost predicate SkipsOnly(skipped: set<int>, skipped': set<int>, finds: map<int, Find>, maxInsert: nat, n: int, end: bool)
  {
    skipped <= skipped' && forall p :: p in skipped' && p !in skipped ==> Skippable(finds, p, maxInsert, n, end)
  }

  lemma SkipsJoin(skipped: set<int>, skipped1: set<int>, skipped2: set<int>, finds1: map<int, Find>, finds2: map<int, Find>, maxInsert: nat,
                  n1: int, n2: int, end1: bool, end2: bool)
    requires SkipsOnly(skipped, skipped1, finds1, maxInsert, n1, end1) && SkipsOnly(skipped1, skipped2, finds2, maxInsert, n2, end2)
    requires Grown(finds1, finds2) && (end1 ==> end2 && n1 == n2)
    ensures SkipsOnly(skipped, skipped2, finds2, maxInsert, n2, end2)
  {
    forall p | p in skipped2 && p !in skipped ensures Skippable(finds2, p, maxInsert, n2, end2) {
      if p in skipped1 {
        assert Skippable(finds1, p, maxInsert, n1, end1);
        if !(end1 && p + MIN_MATCH > n1) {
          var a :| Within(finds1, a, p, maxInsert, n1, end1);
          assert Within(finds2, a, p, maxInsert, n2, end2);
        }
      }
    }
  }

  // ---------- One step ----------

  /** Find the longest match, discarding those not longer than prev_length, which is 2 throughout. */
  method FindNow(s: Deflater, hashHead: Pos) returns (ghost view: View)
    requires s.Stepping() && s.lookahead >= 1 && s.level <= 3
    requires s.matchLength < MIN_MATCH && s.prevLength == MIN_MATCH - 1
    requires s.lookahead >= MIN_MATCH ==> NewestLink(s.window[..], s.dict.z, s.dict.ins, s.strstart, hashHead)
    modifies s`matchLength, s`matchStart
    ensures s.Stepping() && ((s.matchLength <= MAX_MATCH && s.matchLength <= s.lookahead) || s.matchLength < MIN_MATCH)
    ensures view == ViewOf(s, hashHead, s.prevLength, view.q, view.ps, view.found)
    ensures Outcome(s.ParseMode(), view, s.strstart, s.matchLength, s.matchStart)
    ensures s.matchLength >= MIN_MATCH ==> MatchIn(s.input, s.base + s.matchStart, s.base + s.strstart, s.matchLength, s.wBits)
  {
    hide Deflater.Stepping, Pow2, NewestLink, MatchIn, Result, SearchOk, Configuration;
    SteppingAt(s);
    view := ViewOf(s, hashHead, s.prevLength, Search(0, 0, 0, 0, 0, 0), [], 0);
    if hashHead != NIL && hashHead <= s.strstart && s.strstart - hashHead <= MaxDist(s.wBits) {
      if s.strategy != Z_HUFFMAN_ONLY {
        var len, start;
        ghost var q, ps;
        len, start, q, ps := Longest(s, hashHead);
        s.matchLength := len;
        s.matchStart := start;
        view := ViewOf(s, hashHead, s.prevLength, q, ps, len);
      }
    }
  }

  /** Insert the string, search, and note the outcome. */
  method SeekNow(s: Deflater, hashHead0: Pos) returns (hashHead: Pos)
    requires s.Windowed() && s.strstart + MIN_LOOKAHEAD <= s.window.Length && s.lookahead >= 1 && s.level <= 3
    requires s.matchLength < MIN_MATCH && s.prevLength == MIN_MATCH - 1 && s.Recorded(s.base + s.strstart)
    requires s.TalliedTo(s.base + s.strstart, false)
    modifies s.dict.head, s.dict.prev, s.dict`ins, s.dict`next, s.dict`insH, s`skipped, s`finds, s`matchLength, s`matchStart
    ensures s.Stepping() && s.Recorded(s.base + s.strstart + 1)
    ensures s.skipped == old(s.skipped) + if s.lookahead >= MIN_MATCH then {} else {s.base + s.strstart}
    ensures (s.matchLength <= MAX_MATCH && s.matchLength <= s.lookahead) || s.matchLength < MIN_MATCH
    ensures s.base + s.strstart !in old(s.finds)
    ensures Noted(s.finds, s.base + s.strstart, s.matchLength, s.base + s.matchStart)
    ensures s.finds == old(s.finds)[s.base + s.strstart := s.finds[s.base + s.strstart]]
    ensures s.TalliedTo(s.base + s.strstart, false)
    ensures s.matchLength >= MIN_MATCH ==> MatchIn(s.input, s.base + s.matchStart, s.base + s.strstart, s.matchLength, s.wBits)
  {
    hide BlockState.Valid, Deflater.Windowed, Deflater.Stepping, Pow2, Tallied, TokensOf, NewestLink, Outcome, MatchIn, AllHonest, Configuration,
         Honest;
    WindowedAt(s);
    ghost var pos, finds0 := s.base + s.strstart, s.finds;
    hashHead := InsertHead(s, hashHead0);
    ghost var view := FindNow(s, hashHead);
    ViewHonest(s, view, s.matchLength, s.matchStart);
    ghost var find := Find(s.matchLength, s.base + s.matchStart, view);
    s.finds := s.finds[pos := find];
    NowNoted(s.ParseMode(), s.input, old(s.skipped), s.skipped, finds0, pos, find);
    TalliedFind(s.input, s.base + s.blockStart, pos, false, s.blocks.Tokens(), Pow2(s.wBits), Log(s.level >= 4, finds0, s.done), pos, find);
  }

  lemma NowNoted(m: Mode, input: seq<byte>, skipped: set<int>, skipped': set<int>, finds: map<int, Find>, pos: int, find: Find)
    requires AllHonest(m, input, skipped, finds, pos) && skipped <= skipped' && pos >= 0 && Honest(m, input, skipped', pos, find) && !m.lazy
    ensures pos !in finds && AllHonest(m, input, skipped', finds[pos := find], pos + 1)
  {
    hide Honest;
    HonestMore(m, input, [], skipped, skipped', finds, pos, pos);
    assert input + [] == input;
    HonestNext(m, input, skipped', finds, pos, find);
  }

  /** The string at strstart is inserted and searched for, and nothing tallied since. */
  ghost predicate Sought(s: Deflater)
    reads s, s.window, s.dict, s.dict.head, s.dict.prev, s.blocks`lastLit, s.blocks.dBuf, s.blocks.lBuf
  {
    && s.Stepping() && s.lookahead >= 1 && s.level <= 3 && !s.matchAvailable && s.prevLength == MIN_MATCH - 1
    && s.TalliedTo(s.base + s.strstart, false) && s.Recorded(s.base + s.strstart + 1)
    && ((s.matchLength <= MAX_MATCH && s.matchLength <= s.lookahead) || s.matchLength < MIN_MATCH)
    && Noted(s.finds, s.base + s.strstart, s.matchLength, s.base + s.matchStart)
    && (s.matchLength >= MIN_MATCH ==> MatchIn(s.input, s.base + s.matchStart, s.base + s.strstart, s.matchLength, s.wBits))
  }

  /** Tally the match at strstart; returns whether the block must be flushed. */
  method TallyNow(s: Deflater) returns (flush: bool)
    requires s.Sliding() && s.blocks.Valid() && s.blocks.lastLit < s.blocks.litBufsize - 1
    requires MIN_MATCH <= s.matchLength <= s.lookahead && s.level <= 3
    requires s.TalliedTo(s.base + s.strstart, false)
    requires Noted(s.finds, s.base + s.strstart, s.matchLength, s.base + s.matchStart)
    requires MatchIn(s.input, s.base + s.matchStart, s.base + s.strstart, s.matchLength, s.wBits)
    modifies s.blocks.dBuf, s.blocks.lBuf, s.blocks.l.fc, s.blocks.d.fc, s.blocks`lastLit
    ensures s.Sliding() && s.window[..] == old(s.window[..])
    ensures s.blocks.Valid() && (flush <==> s.blocks.lastLit == s.blocks.litBufsize - 1)
    ensures s.TalliedTo(s.base + s.strstart + s.matchLength, false)
  {
    hide BlockState.Valid, Held, Chains, Pow2, Adler32, Tallied, Repeats, TokensOf;
    ValidSizes(s.blocks);
    SlidingIs(s);
    ghost var toks, pos := s.blocks.Tokens(), s.base + s.strstart + 1;
    TalliedHold(s.input, s.base + s.blockStart, s.base + s.strstart, toks, Pow2(s.wBits), s.ParseLog());
    TalliedMatch(s.input, s.base + s.blockStart, pos, toks, s.wBits, s.base + s.matchStart, s.matchLength, s.ParseLog());
    flush := s.blocks.TallyDist(s.strstart - s.matchStart, s.matchLength - MIN_MATCH);
    ValidSizes(s.blocks);
  }

  /** Move on to the end of a short match, inserting all its strings. */
  method InsertMatch(s: Deflater, ghost valid: nat)
    requires s.Fixed() && s.dict.Valid(s.window[..], valid) && s.matchLength >= 1
    requires s.strstart + s.matchLength + 4 <= s.window.Length && s.strstart + s.matchLength + MIN_MATCH <= valid
    requires s.dict.next == s.strstart + 1 && Primed(s.window[..], s.dict.z, s.dict.insH, s.strstart + 1)
    requires s.base + s.strstart >= 0 && Indexed(s.dict.ins, s.skipped, s.base, s.strstart + 1)
    modifies s.dict.head, s.dict.prev, s.dict`ins, s.dict`next, s.dict`insH, s`strstart, s`matchLength
    ensures Indexed(s.dict.ins, s.skipped, s.base, s.strstart)
    ensures s.strstart == old(s.strstart) + old(s.matchLength) && s.matchLength == 0
    ensures s.dict.Valid(s.window[..], valid) && s.dict.next == s.strstart
    ensures Primed(s.window[..], s.dict.z, s.dict.insH, s.strstart)
  {
    hide Held, Chains, Pow2, Adler32, Primed, HashAt, Link, Indexed;
    WindowSize(s.wBits);
    s.matchLength := s.matchLength - 1;
    while s.matchLength != 0
      invariant s.strstart + s.matchLength + 1 == old(s.strstart) + old(s.matchLength) && old(s.strstart) <= s.strstart
      invariant s.dict.Valid(s.window[..], valid) && s.dict.next == s.strstart + 1
      invariant Primed(s.window[..], s.dict.z, s.dict.insH, s.strstart + 1)
      invariant Indexed(s.dict.ins, s.skipped, s.base, s.strstart + 1)
    {
      s.strstart := s.strstart + 1;
      IndexedNext(s.dict.ins, s.skipped, s.base, s.strstart);
      var _ := s.dict.Insert(s.window, s.strstart, valid);
      s.matchLength := s.matchLength - 1;
    }
    s.strstart := s.strstart + 1;
  }

  /** Move on to the end of the match. */
  method PassNow(s: Deflater, ghost end: bool)
    requires s.Stepping()
    requires MIN_MATCH <= s.matchLength <= MAX_MATCH && s.matchLength <= s.lookahead && (s.lookahead < MIN_LOOKAHEAD ==> end)
    requires s.base + s.strstart in s.finds && s.finds[s.base + s.strstart].len == s.matchLength
    modifies s.dict.head, s.dict.prev, s.dict`ins, s.dict`next, s.dict`insH, s`strstart, s`lookahead, s`matchLength, s`skipped
    ensures SkipsOnly(old(s.skipped), s.skipped, s.finds, Configuration(s.level).maxLazy, |s.input|, end)
    ensures s.Windowed() && s.strstart == old(s.strstart) + old(s.matchLength)
    ensures s.strstart + s.lookahead == old(s.strstart + s.lookahead) && s.matchLength == 0
  {
    hide Held, Chains, Pow2, Adler32, Primed, Configuration, Indexed;
    SlidingIs(s);
    ghost var valid := s.strstart + s.lookahead;
    s.lookahead := s.lookahead - s.matchLength;
    if s.matchLength <= Configuration(s.level).maxLazy && s.lookahead >= MIN_MATCH {
      InsertMatch(s, valid);
    } else {
      ghost var a, b := s.base + s.strstart, s.base + s.strstart + s.matchLength;
      IndexedOver(s.dict.ins, s.skipped, s.base, s.strstart + 1, s.strstart + s.matchLength);
      s.skipped := s.skipped + Between(a, b);
      SkipsWithin(old(s.skipped), s.skipped, s.finds, a, Configuration(s.level).maxLazy, |s.input|, end);
      s.strstart := s.strstart + s.matchLength;
      s.matchLength := 0;
      s.dict.Prime(s.window, s.strstart);
    }
  }

  lemma IndexedOver(ins: set<nat>, skipped: set<int>, base: int, from: int, next: int)
    requires Indexed(ins, skipped, base, from) && from <= next
    ensures Indexed(ins, skipped + Between(base + from - 1, base + next), base, next)
  {
  }

  lemma SkipsWithin(skipped: set<int>, skipped': set<int>, finds: map<int, Find>, a: int, maxInsert: nat, n: int, end: bool)
    requires a in finds && (finds[a].len > maxInsert || (end && a + finds[a].len + MIN_MATCH > n))
    requires skipped' == skipped + Between(a, a + finds[a].len)
    ensures SkipsOnly(skipped, skipped', finds, maxInsert, n, end)
  {
    forall p | p in skipped' && p !in skipped ensures Skippable(finds, p, maxInsert, n, end) {
      assert Within(finds, a, p, maxInsert, n, end);
    }
  }

  /** Output the match and move on to its end. */
  method MatchNow(s: Deflater, ghost end: bool) returns (flush: bool)
    requires (s.lookahead < MIN_LOOKAHEAD ==> end) && Sought(s) && s.matchLength >= MIN_MATCH
    requires s.blocks.Valid() && s.blocks.lastLit < s.blocks.litBufsize - 1
    modifies s.dict.head, s.dict.prev, s.dict`ins, s.dict`next, s.dict`insH, s`strstart, s`lookahead, s`matchLength, s`skipped
    modifies s.blocks.dBuf, s.blocks.lBuf, s.blocks.l.fc, s.blocks.d.fc, s.blocks`lastLit
    ensures s.Windowed() && s.blocks.Valid() && s.strstart == old(s.strstart) + old(s.matchLength) && s.matchLength == 0
    ensures s.strstart + s.lookahead == old(s.strstart + s.lookahead)
    ensures flush <==> s.blocks.lastLit == s.blocks.litBufsize - 1
    ensures s.TalliedTo(s.base + s.strstart, false)
    ensures SkipsOnly(old(s.skipped), s.skipped, s.finds, Configuration(s.level).maxLazy, |s.input|, end)
  {
    hide BlockState.Valid, Pow2, Deflater.Windowed, Deflater.Stepping, Deflater.Sliding, Deflater.Recorded, Deflater.TalliedTo, Configuration,
         MatchIn, SkipsOnly;
    SteppingSlides(s);
    flush := TallyNow(s);
    PassNow(s, end);
    ValidSizes(s.blocks);
  }

  /** A match, or a literal. */
  method TakeNow(s: Deflater, ghost end: bool) returns (flush: bool)
    requires (s.lookahead < MIN_LOOKAHEAD ==> end) && Sought(s)
    requires s.blocks.Valid() && s.blocks.lastLit < s.blocks.litBufsize - 1
    modifies s.dict.head, s.dict.prev, s.dict`ins, s.dict`next, s.dict`insH, s`strstart, s`lookahead, s`matchLength, s`skipped
    modifies s.blocks.dBuf, s.blocks.lBuf, s.blocks.l.fc, s.blocks.d.fc, s.blocks`lastLit
    ensures Taken(s) && s.lookahead < old(s.lookahead)
    ensures s.blocks.lastLit <= s.blocks.litBufsize - 1 && (flush <==> s.blocks.lastLit == s.blocks.litBufsize - 1)
    ensures SkipsOnly(old(s.skipped), s.skipped, s.finds, Configuration(s.level).maxLazy, |s.input|, end)
  {
    hide BlockState.Valid, Pow2, Tallied, MatchHeld, TokensOf, Deflater.Windowed, Deflater.Stepping, Deflater.Sliding, AllHonest,
         Configuration, MatchIn, SkipsOnly, Deflater.TalliedTo;
    SteppingSlides(s);
    SkipsNone(s.skipped, s.finds, Configuration(s.level).maxLazy);
    ghost var skipped0, pos := s.skipped, s.base + s.strstart;
    if s.matchLength >= MIN_MATCH {
      flush := MatchNow(s, end);
    } else {
      flush := LiteralNow(s);
    }
    ValidSizes(s.blocks);
    NowTaken(s.ParseMode(), s.input, skipped0, s.skipped, s.finds, pos, Configuration(s.level).maxLazy, |s.input|, end, s.base + s.matchStart,
             s.base + s.strstart, s.matchLength);
    WindowedSizes(s);
  }

  lemma NowTaken(m: Mode, input: seq<byte>, skipped: set<int>, skipped': set<int>, finds: map<int, Find>, pos: int, maxInsert: nat, n: int,
                 end: bool, from: int, pos': int, len: nat)
    requires AllHonest(m, input, skipped, finds, pos + 1) && SkipsOnly(skipped, skipped', finds, maxInsert, n, end) && pos < pos'
    requires len < MIN_MATCH && (pos' == pos + 1 ==> Noted(finds, pos, len, from))
    ensures AllHonest(m, input, skipped', finds, pos') && MatchHeld(input, from, pos', len, false, m.wBits, finds)
  {
    hide AllHonest, Skippable;
    FindsEnd(m, input, skipped, finds, pos + 1);
    HonestMore(m, input, [], skipped, skipped', finds, pos + 1, pos');
    assert input + [] == input;
    NoMatchHeld(input, from, pos', len, m.wBits, finds);
  }

  lemma SteppingSlides(s: Deflater)
    requires s.Stepping()
    ensures s.Sliding() && s.Fixed() && s.base + s.strstart >= 0 && |s.input| == s.base + s.strstart + s.lookahead
  {
    hide Chains, Primed, Adler32, Indexed;
  }

  lemma WindowedSizes(s: Deflater)
    requires s.Windowed()
    ensures |s.input| == s.base + s.strstart + s.lookahead
  {
  }

  /** Output a literal byte. */
  method LiteralNow(s: Deflater) returns (flush: bool)
    requires s.Stepping() && s.lookahead >= 1
    requires s.blocks.Valid() && s.blocks.lastLit < s.blocks.litBufsize - 1
    requires s.TalliedTo(s.base + s.strstart, false) && s.level <= 3
    requires s.base + s.strstart in s.finds && s.finds[s.base + s.strstart].len < MIN_MATCH
    modifies s`strstart, s`lookahead, s.blocks.dBuf, s.blocks.lBuf, s.blocks.l.fc, s.blocks`lastLit
    ensures s.Windowed() && s.blocks.Valid() && s.strstart == old(s.strstart) + 1 && s.lookahead == old(s.lookahead) - 1
    ensures flush <==> s.blocks.lastLit == s.blocks.litBufsize - 1
    ensures s.TalliedTo(s.base + s.strstart, false)
  {
    hide BlockState.Valid, Chains, Pow2, Adler32, Tallied, TokensOf, Primed;
    ValidSizes(s.blocks);
    ghost var pos, c := s.base + s.strstart, s.window[s.strstart];
    TalliedHold(s.input, s.base + s.blockStart, pos, s.blocks.Tokens(), Pow2(s.wBits), s.ParseLog());
    TalliedLit(s.input, s.base + s.blockStart, pos + 1, s.blocks.Tokens(), Pow2(s.wBits), c, s.ParseLog());
    flush := s.blocks.TallyLit(s.window[s.strstart]);
    ValidSizes(s.blocks);
    s.lookahead := s.lookahead - 1;
    s.strstart := s.strstart + 1;
  }

  /** One step of the loop, with input ahead; full says that the output space is used up. */
  method FastStep(s: Deflater, hashHead0: Pos, ghost end: bool) returns (hashHead: Pos, full: bool)
    requires s.level <= 3 && Ready(s) && s.strstart + MIN_LOOKAHEAD <= s.window.Length && s.lookahead >= 1
    requires (s.lookahead < MIN_LOOKAHEAD ==> end) && s.blocks.out.pending == []
    modifies s.dict.head, s.dict.prev, s.dict`ins, s.dict`next, s.dict`insH, s`skipped, s`finds, s`done, s`cuts
    modifies s`strstart, s`lookahead, s`matchLength, s`matchStart, s`blockStart, s`dataEnd
    modifies s.blocks.dBuf, s.blocks.lBuf, s.blocks.st, s.blocks.st.heap, s.blocks.st.depth, s.blocks.st.blCount
    modifies s.blocks.l`maxCode, s.blocks.l.fc, s.blocks.l.dl, s.blocks.d`maxCode, s.blocks.d.fc, s.blocks.d.dl
    modifies s.blocks.bl`maxCode, s.blocks.bl.fc, s.blocks.bl.dl, s.blocks.out, s.blocks`lastEobLen, s.blocks`lastLit
    ensures Ready(s) && Grows(s.blocks.out) && s.lookahead < old(s.lookahead) && Grown(old(s.finds), s.finds)
    ensures old(s.base + s.strstart) in s.finds && old(s.base + s.strstart) !in old(s.finds)
    ensures SkipsOnly(old(s.skipped), s.skipped, s.finds, Configuration(s.level).maxLazy, |s.input|, end)
    ensures Outputs(s, full)
  {
    hide BlockState.Valid, AllHonest, Configuration, SkipsOnly, MatchIn, FullOnly, Ready, SentTo, Sought, Noted, Deflater.Windowed,
         Deflater.Stepping, Deflater.Recorded, Deflater.TalliedTo;
    ghost var skipped0 := s.skipped;
    ReadyNow(s);
    hashHead := SeekNow(s, hashHead0);
    SoughtFrom(s);
    ghost var skipped1 := s.skipped;
    SkipsHead(skipped0, skipped1, s.finds, s.base + s.strstart, Configuration(s.level).maxLazy, |s.input|, s.lookahead, end);
    full := EmitNow(s, end);
    SkipsJoin(skipped0, skipped1, s.skipped, s.finds, s.finds, Configuration(s.level).maxLazy, |s.input|, |s.input|, end, end);
  }

  lemma ReadyNow(s: Deflater)
    requires Ready(s) && s.level <= 3
    ensures 1 <= s.level && s.Windowed() && s.matchLength < MIN_MATCH && s.prevLength == MIN_MATCH - 1 && !s.matchAvailable
    ensures s.Recorded(s.base + s.strstart) && s.TalliedTo(s.base + s.strstart, false)
    ensures s.blocks.Valid() && s.blocks.lastLit < s.blocks.litBufsize - 1 && SentTo(s, s.base + s.blockStart)
  {
    hide BlockState.Valid, Deflater.Windowed, Deflater.Recorded, Deflater.TalliedTo, SentTo, MatchHeld;
    ReadyLevel(s);
  }

  lemma SoughtFrom(s: Deflater)
    requires s.Stepping() && s.lookahead >= 1 && s.level <= 3 && !s.matchAvailable && s.prevLength == MIN_MATCH - 1
    requires s.TalliedTo(s.base + s.strstart, false) && s.Recorded(s.base + s.strstart + 1)
    requires (s.matchLength <= MAX_MATCH && s.matchLength <= s.lookahead) || s.matchLength < MIN_MATCH
    requires Noted(s.finds, s.base + s.strstart, s.matchLength, s.base + s.matchStart)
    requires s.matchLength >= MIN_MATCH ==> MatchIn(s.input, s.base + s.matchStart, s.base + s.strstart, s.matchLength, s.wBits)
    ensures Sought(s) && |s.input| == s.base + s.strstart + s.lookahead
  {
    hide Deflater.Recorded, Deflater.TalliedTo, Noted, MatchIn, Chains, Primed, Indexed, Adler32;
  }

  lemma SkipsNone(skipped: set<int>, finds: map<int, Find>, maxInsert: nat)
    ensures forall n, end :: SkipsOnly(skipped, skipped, finds, maxInsert, n, end)
  {
  }

  lemma SkipsHead(skipped: set<int>, skipped': set<int>, finds: map<int, Find>, pos: int, maxInsert: nat, n: int, lookahead: nat,
                  end: bool)
    requires skipped' == skipped + (if lookahead >= MIN_MATCH then {} else {pos}) && n == pos + lookahead
    requires lookahead < MIN_LOOKAHEAD ==> end
    ensures SkipsOnly(skipped, skipped', finds, maxInsert, n, end)
  {
  }

  lemma SoughtLevel(s: Deflater)
    requires Sought(s)
    ensures 1 <= s.level <= 3 && !s.matchAvailable
  {
    hide Deflater.Stepping, Deflater.TalliedTo, AllHonest, MatchIn;
  }

  /** Output the match or the literal, and the block if it is full. */
  method EmitNow(s: Deflater, ghost end: bool) returns (full: bool)
    requires (s.lookahead < MIN_LOOKAHEAD ==> end) && Sought(s)
    requires s.blocks.Valid() && s.blocks.lastLit < s.blocks.litBufsize - 1 && SentTo(s, s.base + s.blockStart)
    requires s.blocks.out.pending == []
    modifies s.dict.head, s.dict.prev, s.dict`ins, s.dict`next, s.dict`insH, s`skipped, s`done, s`cuts
    modifies s`strstart, s`lookahead, s`matchLength, s`blockStart, s`dataEnd
    modifies s.blocks.dBuf, s.blocks.lBuf, s.blocks.st, s.blocks.st.heap, s.blocks.st.depth, s.blocks.st.blCount
    modifies s.blocks.l`maxCode, s.blocks.l.fc, s.blocks.l.dl, s.blocks.d`maxCode, s.blocks.d.fc, s.blocks.d.dl
    modifies s.blocks.bl`maxCode, s.blocks.bl.fc, s.blocks.bl.dl, s.blocks.out, s.blocks`lastEobLen, s.blocks`lastLit
    ensures Ready(s) && Grows(s.blocks.out) && s.lookahead < old(s.lookahead)
    ensures SkipsOnly(old(s.skipped), s.skipped, s.finds, Configuration(s.level).maxLazy, |s.input|, end)
    ensures Outputs(s, full)
  {
    hide BlockState.Valid, Pow2, Sending, Sought, Deflater.Windowed, Deflater.Parsed, Deflater.Stepping, Deflater.Recorded, Deflater.TalliedTo,
         SkipsOnly, Configuration, MatchHeld, AllHonest, TokensOf, Tallied, Taken, Ready, SentTo;
    SoughtLevel(s);
    var flush := TakeNow(s, end);
    full := false;
    if flush {
      FlushFull(s);
      full := s.blocks.out.availOut == 0;
    } else {
      TakenReady(s);
    }
  }

  /** What deflate_fast adds to the record. */
  twostate predicate TrailsFast(s: Deflater, flush: int)
    reads s
  {
    && Grown(old(s.finds), s.finds)
    && (1 <= s.level <= 9 ==> SkipsOnly(old(s.skipped), s.skipped, s.finds, Configuration(s.level).maxLazy, |s.input|, flush != Z_NO_FLUSH && s.nextIn == []))
  }

  /** deflate_fast. */
  method Fast(s: Deflater, flush: int) returns (r: BlockResult)
    requires s.level <= 3 && Ready(s) && s.blocks.out.pending == []
    modifies s.window, s.dict.head, s.dict.prev, s.dict`ins, s.dict`next, s.dict`insH, s`skipped, s`finds, s`done, s`cuts
    modifies s`strstart, s`lookahead, s`matchLength, s`matchStart, s`matchAvailable, s`blockStart, s`dataEnd
    modifies s`base, s`nextIn, s`adler, s`input
    modifies s.blocks.dBuf, s.blocks.lBuf, s.blocks.st, s.blocks.st.heap, s.blocks.st.depth, s.blocks.st.blCount
    modifies s.blocks.l`maxCode, s.blocks.l.fc, s.blocks.l.dl, s.blocks.d`maxCode, s.blocks.d.fc, s.blocks.d.dl
    modifies s.blocks.bl`maxCode, s.blocks.bl.fc, s.blocks.bl.dl, s.blocks.out, s.blocks`lastEobLen, s.blocks`lastLit
    ensures Grows(s.blocks.out) && Consumes(s) && Leaves(s, flush, r) && TrailsFast(s, flush) && Cuts(s, flush, r.NeedMore?)
  {
    hide Ready, Finished, DeflateSlow.Flushed, SkipsOnly, Grown;
    var early := FastLoop(s, flush);
    if early {
      return NeedMore;
    }
    ghost var cuts := s.cuts;
    FastEnd(s, flush == Z_FINISH);
    assert s.cuts[..|s.cuts| - 1] == cuts;
    if s.blocks.out.availOut == 0 {
      return if flush == Z_FINISH then FinishStarted else NeedMore;
    }
    r := if flush == Z_FINISH then FinishDone else BlockDone;
  }

  /** After the loop: the last block. */
  method FastEnd(s: Deflater, eof: bool)
    requires s.level <= 3 && Ready(s) && s.lookahead == 0 && s.nextIn == [] && s.blocks.out.pending == []
    modifies s`blockStart, s`dataEnd, s`done, s`cuts
    modifies s.blocks.st, s.blocks.st.heap, s.blocks.st.depth, s.blocks.st.blCount
    modifies s.blocks.l`maxCode, s.blocks.l.fc, s.blocks.l.dl, s.blocks.d`maxCode, s.blocks.d.fc, s.blocks.d.dl
    modifies s.blocks.bl`maxCode, s.blocks.bl.fc, s.blocks.bl.dl, s.blocks.out, s.blocks`lastEobLen, s.blocks`lastLit
    ensures Grows(s.blocks.out) && DeflateSlow.Flushed(s) && s.blocks.lastLit == 0 && (s.blocks.out.pending == [] || s.blocks.out.availOut == 0)
    ensures if eof then Finished(s) else Ready(s)
    ensures |s.cuts| == |old(s.cuts)| + 1 && old(s.cuts) < s.cuts && s.cuts[|old(s.cuts)|].asked
  {
    hide Ready, Finished, DeflateSlow.Flushed, Deflater.Windowed, Deflater.Parsed, BlockState.Valid, SentTo;
    ReadyParts(s);
    BlockEnd(s, eof);
  }

  /** The loop of deflate_fast: compress as much as possible; stopped early, the result is NeedMore. */
  method FastLoop(s: Deflater, flush: int) returns (early: bool)
    requires s.level <= 3 && Ready(s) && s.blocks.out.pending == []
    modifies s.window, s.dict.head, s.dict.prev, s.dict`ins, s.dict`next, s.dict`insH, s`skipped, s`finds, s`done, s`cuts
    modifies s`strstart, s`lookahead, s`matchLength, s`matchStart, s`matchAvailable, s`blockStart, s`dataEnd
    modifies s`base, s`nextIn, s`adler, s`input
    modifies s.blocks.dBuf, s.blocks.lBuf, s.blocks.st, s.blocks.st.heap, s.blocks.st.depth, s.blocks.st.blCount
    modifies s.blocks.l`maxCode, s.blocks.l.fc, s.blocks.l.dl, s.blocks.d`maxCode, s.blocks.d.fc, s.blocks.d.dl
    modifies s.blocks.bl`maxCode, s.blocks.bl.fc, s.blocks.bl.dl, s.blocks.out, s.blocks`lastEobLen, s.blocks`lastLit
    ensures Ready(s) && Grows(s.blocks.out) && Consumes(s) && TrailsFast(s, flush)
    ensures early ==> s.blocks.out.availOut == 0 || (flush == Z_NO_FLUSH && s.nextIn == [])
    ensures !early ==> s.lookahead == 0 && s.nextIn == [] && flush != Z_NO_FLUSH && s.blocks.out.pending == []
    ensures FullOnly(old(s.cuts), s.cuts, s.blocks.litBufsize - 1)
  {
    hide Ready, SkipsOnly, Configuration;
    var hashHead: Pos, r := NIL, Continue;
    ReadyLevel(s);
    SkipsNone(s.skipped, s.finds, Configuration(s.level).maxLazy);
    while r.Continue?
      invariant Ready(s) && Grows(s.blocks.out) && Consumes(s) && TrailsFast(s, flush)
      invariant r.Return? ==> s.blocks.out.availOut == 0 || (flush == Z_NO_FLUSH && s.nextIn == [])
      invariant r.Leave? ==> s.lookahead == 0 && s.nextIn == [] && flush != Z_NO_FLUSH
      invariant FullOnly(old(s.cuts), s.cuts, s.blocks.litBufsize - 1) && (!r.Return? ==> s.blocks.out.pending == [])
      decreases r.Continue?, s.lookahead + |s.nextIn|
    {
      ghost var skipped, finds, n, end := s.skipped, s.finds, |s.input|, flush != Z_NO_FLUSH && s.nextIn == [];
      r, hashHead := FastRound(s, flush, hashHead);
      SkipsJoin(old(s.skipped), skipped, s.skipped, finds, s.finds, Configuration(s.level).maxLazy, n, |s.input|, end,
                flush != Z_NO_FLUSH && s.nextIn == []);
    }
    early := r.Return?;
  }

  /** One round of the loop. */
  method FastRound(s: Deflater, flush: int, hashHead0: Pos) returns (r: Round, hashHead: Pos)
    requires s.level <= 3 && Ready(s) && s.blocks.out.pending == []
    modifies s.window, s.dict.head, s.dict.prev, s.dict`ins, s.dict`next, s.dict`insH, s`skipped, s`finds, s`done, s`cuts
    modifies s`strstart, s`lookahead, s`matchLength, s`matchStart, s`blockStart, s`dataEnd
    modifies s`base, s`nextIn, s`adler, s`input
    modifies s.blocks.dBuf, s.blocks.lBuf, s.blocks.st, s.blocks.st.heap, s.blocks.st.depth, s.blocks.st.blCount
    modifies s.blocks.l`maxCode, s.blocks.l.fc, s.blocks.l.dl, s.blocks.d`maxCode, s.blocks.d.fc, s.blocks.d.dl
    modifies s.blocks.bl`maxCode, s.blocks.bl.fc, s.blocks.bl.dl, s.blocks.out, s.blocks`lastEobLen, s.blocks`lastLit
    ensures Ready(s) && Grows(s.blocks.out) && Consumes(s) && TrailsFast(s, flush)
    ensures r.Return? ==> s.blocks.out.availOut == 0 || (flush == Z_NO_FLUSH && s.nextIn == [])
    ensures r.Leave? ==> s.lookahead == 0 && s.nextIn == [] && flush != Z_NO_FLUSH
    ensures r.Continue? ==> s.lookahead + |s.nextIn| < old(s.lookahead + |s.nextIn|)
    ensures FullOnly(old(s.cuts), s.cuts, s.blocks.litBufsize - 1) && (!r.Return? ==> s.blocks.out.pending == [])
  {
    hide Ready, SkipsOnly, Configuration, FullOnly;
    NoCuts(s.cuts, s.blocks.litBufsize - 1);
    hashHead := hashHead0;
    ReadyLevel(s);
    SkipsNone(s.skipped, s.finds, Configuration(s.level).maxLazy);
    r := Refill(s, flush);
    if r.Continue? {
      var full;
      hashHead, full := FastStep(s, hashHead, flush != Z_NO_FLUSH && s.nextIn == []);
      r := if full then Return else Continue;
    }
  }
}
