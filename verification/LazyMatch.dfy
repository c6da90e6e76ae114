/** One step of deflate_slow: insert, search, and decide what to tally. */
module LazyMatch {
  import opened Sums
  import opened Bits
  import opened Inflate
  import opened StaticTables
  import opened Tokens
  import BitWriter
  import opened Blocks
  import opened RollingHash
  import opened HashChains
  import opened LongestMatch
  import opened LazyParse
  import opened Lz77
  import opened Deflate

  lemma LinkHead(w: seq<byte>, head: seq<Pos>, prev: seq<Pos>, wBits: nat, z: HashSize, ins: set<nat>, ins': set<nat>, next: nat,
                 valid: nat, x: nat, scan: nat)
    requires Chains(w, head, prev, wBits, z, ins, next, valid) && scan + 3 <= |w| && Link(w, z, ins, x, HashAt(w, z, scan), scan)
    requires ins <= ins' <= ins + {scan}
    ensures NewestLink(w, z, ins', scan, x)
  {
    hide HashAt, Slot, SizeOk;
  }

  /** With enough lookahead, insert the string at strstart; hashHead becomes the head of its chain. */
  method InsertHead(s: Deflater, hashHead0: Pos) returns (hashHead: Pos)
    requires s.Windowed() && s.strstart + MIN_LOOKAHEAD <= s.window.Length
    modifies s.dict.head, s.dict.prev, s.dict`ins, s.dict`next, s.dict`insH, s`skipped
    ensures s.Stepping()
    ensures s.dict.ins == old(s.dict.ins) + if s.lookahead >= MIN_MATCH && s.strstart > 0 then {s.strstart} else {}
    ensures s.skipped == old(s.skipped) + if s.lookahead >= MIN_MATCH then {} else {s.base + s.strstart}
    ensures s.lookahead >= MIN_MATCH ==> NewestLink(s.window[..], s.dict.z, s.dict.ins, s.strstart, hashHead)
  {
    hide Held, Chains, Primed, Pow2, Adler32, HashAt, Link, Indexed;
    WindowSize(s.wBits);
    hashHead := hashHead0;
    IndexedNext(s.dict.ins, s.skipped, s.base, s.strstart);
    if s.lookahead >= MIN_MATCH {
      ghost var w, h0, p0, ins0, next0 := s.window[..], s.dict.head[..], s.dict.prev[..], s.dict.ins, s.dict.next;
      ChainSizes(w, h0, p0, s.wBits, s.dict.z, ins0, next0, s.strstart + s.lookahead);
      hashHead := s.dict.Insert(s.window, s.strstart, s.strstart + s.lookahead);
      LinkHead(w, h0, p0, s.wBits, s.dict.z, ins0, s.dict.ins, next0, s.strstart + s.lookahead, hashHead, s.strstart);
    } else {
      s.skipped := s.skipped + {s.base + s.strstart};
    }
  }

  lemma HeadOnChain(w: seq<byte>, z: HashSize, wBits: nat, ins: set<nat>, scan: nat, x: nat)
    requires NewestLink(w, z, ins, scan, x) && x != NIL && scan - x <= MaxDist(wBits)
    ensures OnChain(w, z, wBits, ins, scan, x)
  {
    hide HashAt;
  }

  /** The outcome of the search at strstart, and a match worth keeping if it improves on the one held. */
  ghost predicate Better(s: Deflater)
    reads s
  {
    && Noted(s.finds, s.base + s.strstart, s.matchLength, s.base + s.matchStart)
    && (s.matchLength >= MIN_MATCH && s.matchLength > s.prevLength ==>
          MatchHeld(s.input, s.base + s.matchStart, s.base + s.strstart + 1, s.matchLength, true, s.wBits, s.finds))
  }

  /** What a search at strstart looks at. */
  ghost function ViewOf(s: Deflater, hashHead: nat, prevLength: nat, q: Search, ps: seq<nat>, found: nat): View
    reads s, s.window, s.dict, s.dict.head, s.dict.prev
  {
    View(s.window[..], s.dict.head[..], s.dict.prev[..], s.dict.ins, s.base, s.lookahead, hashHead, prevLength, q, ps, found)
  }

  /** longest_match at strstart, improving on prev_length. */
  method Longest(s: Deflater, hashHead: Pos) returns (len: nat, start: int, ghost q: Search, ghost ps: seq<nat>)
    requires s.Stepping() && s.lookahead >= 1 && 1 <= s.level <= 9 && 1 <= s.prevLength <= MAX_MATCH
    requires hashHead != NIL && hashHead <= s.strstart && s.strstart - hashHead <= MaxDist(s.wBits)
    requires s.lookahead >= MIN_MATCH ==> NewestLink(s.window[..], s.dict.z, s.dict.ins, s.strstart, hashHead)
    ensures 1 <= len <= s.lookahead && len <= MAX_MATCH
    ensures SearchOk(q, s.wBits, s.strstart, s.lookahead, s.prevLength, Configuration(s.level)) && q.start == s.matchStart
    ensures s.lookahead >= MIN_MATCH ==>
              Result(s.window[..], s.dict.prev[..], s.wBits, s.dict.ins, q, hashHead, ps, s.lookahead,
                     Configuration(s.level).niceLength, len, start)
    ensures len >= MIN_MATCH && len > s.prevLength ==> MatchIn(s.input, s.base + start, s.base + s.strstart, len, s.wBits)
  {
    hide Held, Chains, Pow2, Adler32, NewestLink, OnChain, MatchIn, Result, SearchOk, Configuration, Indexed, Primed;
    if s.lookahead >= MIN_MATCH {
      HeadOnChain(s.window[..], s.dict.z, s.wBits, s.dict.ins, s.strstart, hashHead);
    }
    var cfg := Configuration(s.level);
    len, start, q, ps := FindLongest(s.window, s.dict, s.strstart, s.lookahead, s.prevLength, cfg, hashHead, s.matchStart);
    FoundIn(s.window[..], s.input, s.base, s.wBits, s.dict.prev[..], s.dict.ins, s.skipped, q, hashHead, ps, s.strstart, s.lookahead,
            s.prevLength, cfg, len, start);
  }

  /** Find the longest match, discarding those not longer than prev_length; found is its length before a poor
      one is dropped. */
  method FindMatch(s: Deflater, hashHead: Pos) returns (ghost view: View)
    requires s.Stepping() && s.lookahead >= 1 && s.level >= 4 && 1 <= s.matchLength <= MAX_MATCH
    requires s.lookahead >= MIN_MATCH ==> NewestLink(s.window[..], s.dict.z, s.dict.ins, s.strstart, hashHead)
    modifies s`prevLength, s`prevMatch, s`matchLength, s`matchStart
    ensures s.prevLength == old(s.matchLength) && s.prevMatch == old(s.matchStart)
    ensures 1 <= s.matchLength <= MAX_MATCH && s.Stepping()
    ensures view == ViewOf(s, hashHead, s.prevLength, view.q, view.ps, view.found)
    ensures Outcome(s.ParseMode(), view, s.strstart, s.matchLength, s.matchStart)
    ensures s.matchLength >= MIN_MATCH && s.matchLength > s.prevLength ==>
              MatchIn(s.input, s.base + s.matchStart, s.base + s.strstart, s.matchLength, s.wBits)
  {
    hide Deflater.Stepping, Pow2, NewestLink, MatchIn, Result, SearchOk, Configuration;
    SteppingAt(s);
    s.prevLength := s.matchLength;
    s.prevMatch := s.matchStart;
    s.matchLength := MIN_MATCH - 1;
    view := ViewOf(s, hashHead, s.prevLength, Search(0, 0, 0, 0, 0, 0), [], 0);
    var cfg := Configuration(s.level);
    if hashHead != NIL && s.prevLength < cfg.maxLazy && hashHead <= s.strstart && s.strstart - hashHead <= MaxDist(s.wBits) {
      if s.strategy != Z_HUFFMAN_ONLY {
        var len, start;
        ghost var q, ps;
        len, start, q, ps := Longest(s, hashHead);
        s.matchLength := len;
        s.matchStart := start;
        view := ViewOf(s, hashHead, s.prevLength, q, ps, len);
      }
      if s.matchLength <= 5 && (s.strategy == Z_FILTERED ||
                                (s.matchLength == MIN_MATCH && s.strstart - s.matchStart > TOO_FAR)) {
        s.matchLength := MIN_MATCH - 1;
      }
    }
  }

  lemma FoundIn(w: seq<byte>, input: seq<byte>, base: int, wBits: nat, prev: seq<Pos>, ins: set<nat>, skipped: set<int>, q: Search,
                cur: nat, ps: seq<nat>, scan: nat, lookahead: nat, prevLength: nat, cfg: Config, len: nat, start: int)
    requires Held(w, input, base, scan + lookahead) && SearchOk(q, wBits, scan, lookahead, prevLength, cfg) && len <= lookahead
    requires lookahead >= MIN_MATCH ==> Result(w, prev, wBits, ins, q, cur, ps, lookahead, cfg.niceLength, len, start)
    requires len <= MAX_MATCH && Indexed(ins, skipped, base, scan + 1)
    ensures len >= MIN_MATCH && len > prevLength ==> MatchIn(input, base + start, base + scan, len, wBits)
  {
    hide Held, MatchIn, Walk, Ends, MatchAt, Pow2, Nearest, Complete, FirstBest;
    if lookahead >= MIN_MATCH {
      if len >= MIN_MATCH && len > prevLength {
        MatchFound(w, input, base, scan + lookahead, wBits, start, scan, len);
      }
    }
  }

  /** What was looked at was honest. */
  lemma ViewHonest(s: Deflater, view: View, len: nat, from: int)
    requires s.Stepping() && view == ViewOf(s, view.hashHead, view.prevLength, view.q, view.ps, view.found)
    requires s.lookahead >= MIN_MATCH ==> NewestLink(s.window[..], s.dict.z, s.dict.ins, s.strstart, view.hashHead)
    requires Outcome(s.ParseMode(), view, s.strstart, len, from)
    ensures Honest(s.ParseMode(), s.input, s.skipped, s.base + s.strstart, Find(len, s.base + from, view))
  {
    hide Chains, NewestLink, Outcome, Primed, Adler32, Configuration;
    IndexedLess(s.dict.ins, s.skipped, s.base, s.strstart);
  }

  lemma WindowedAt(s: Deflater)
    requires s.Windowed()
    ensures s.Fixed() && s.base + s.strstart >= 0 && |s.input| == s.base + s.strstart + s.lookahead
  {
    hide Chains, Primed, Adler32, Indexed;
  }

  lemma SteppingAt(s: Deflater)
    requires s.Stepping()
    ensures s.Fixed() && s.base + s.strstart >= 0 && |s.input| == s.base + s.strstart + s.lookahead
  {
    hide Chains, Primed, Adler32, Indexed;
  }

  /** Insert the string and search. */
  method SearchAt(s: Deflater, hashHead0: Pos) returns (hashHead: Pos, ghost view: View)
    requires s.Windowed() && s.strstart + MIN_LOOKAHEAD <= s.window.Length && s.lookahead >= 1 && s.level >= 4
    requires 1 <= s.matchLength <= MAX_MATCH
    modifies s.dict.head, s.dict.prev, s.dict`ins, s.dict`next, s.dict`insH, s`skipped
    modifies s`prevLength, s`prevMatch, s`matchLength, s`matchStart
    ensures s.Stepping()
    ensures s.skipped == old(s.skipped) + if s.lookahead >= MIN_MATCH then {} else {s.base + s.strstart}
    ensures s.prevLength == old(s.matchLength) && s.prevMatch == old(s.matchStart) && 1 <= s.matchLength <= MAX_MATCH
    ensures Honest(s.ParseMode(), s.input, s.skipped, s.base + s.strstart, Find(s.matchLength, s.base + s.matchStart, view))
    ensures view.prevLength == s.prevLength
    ensures s.matchLength >= MIN_MATCH && s.matchLength > s.prevLength ==>
              MatchIn(s.input, s.base + s.matchStart, s.base + s.strstart, s.matchLength, s.wBits)
  {
    hide Deflater.Windowed, Deflater.Stepping, Pow2, NewestLink, Outcome, MatchIn, Configuration, Honest;
    WindowedAt(s);
    hashHead := InsertHead(s, hashHead0);
    view := FindMatch(s, hashHead);
    ViewHonest(s, view, s.matchLength, s.matchStart);
  }

  /** Insert the string, search, and note the outcome. */
  method Seek(s: Deflater, hashHead0: Pos) returns (hashHead: Pos)
    requires s.Windowed() && s.strstart + MIN_LOOKAHEAD <= s.window.Length && s.lookahead >= 1 && s.level >= 4
    requires 1 <= s.matchLength <= MAX_MATCH && s.Recorded(s.base + s.strstart)
    requires s.TalliedTo(s.base + s.strstart, s.matchAvailable)
    requires MatchHeld(s.input, s.base + s.matchStart, s.base + s.strstart, s.matchLength, s.matchAvailable, s.wBits, s.finds)
    modifies s.dict.head, s.dict.prev, s.dict`ins, s.dict`next, s.dict`insH, s`skipped, s`finds
    modifies s`prevLength, s`prevMatch, s`matchLength, s`matchStart
    ensures s.Stepping() && s.Recorded(s.base + s.strstart + 1)
    ensures s.skipped == old(s.skipped) + if s.lookahead >= MIN_MATCH then {} else {s.base + s.strstart}
    ensures s.prevLength == old(s.matchLength) && s.prevMatch == old(s.matchStart) && 1 <= s.matchLength <= MAX_MATCH
    ensures s.base + s.strstart !in old(s.finds) && Better(s)
    ensures s.finds == old(s.finds)[s.base + s.strstart := s.finds[s.base + s.strstart]]
    ensures s.TalliedTo(s.base + s.strstart, s.matchAvailable)
    ensures MatchHeld(s.input, s.base + s.prevMatch, s.base + s.strstart, s.prevLength, s.matchAvailable, s.wBits, s.finds)
  {
    hide BlockState.Valid, Deflater.Windowed, Deflater.Stepping, Pow2, Tallied, TokensOf, NewestLink, Outcome, MatchIn, AllHonest, Configuration,
         Honest, MatchHeld;
    WindowedAt(s);
    ghost var pos, finds0 := s.base + s.strstart, s.finds;
    ghost var view;
    hashHead, view := SearchAt(s, hashHead0);
    ghost var find := Find(s.matchLength, s.base + s.matchStart, view);
    s.finds := s.finds[pos := find];
    SeekNoted(s.ParseMode(), s.input, old(s.skipped), s.skipped, finds0, pos, find, old(s.matchLength), old(s.base + s.matchStart),
              s.base + s.blockStart, s.matchAvailable, s.blocks.Tokens(), s.done);
    MatchNoted(s.input, s.base + s.matchStart, pos, s.matchLength, s.wBits, s.finds);
  }

  lemma MatchNoted(input: seq<byte>, from: int, p: int, len: nat, wBits: nat, finds: map<int, Find>)
    requires Noted(finds, p, len, from)
    ensures MatchIn(input, from, p, len, wBits) ==> MatchHeld(input, from, p + 1, len, true, wBits, finds)
  {
    hide MatchIn;
  }

  lemma SeekNoted(m: Mode, input: seq<byte>, skipped: set<int>, skipped': set<int>, finds: map<int, Find>, pos: int, find: Find,
                  len: nat, from: int, start: int, available: bool, toks: seq<Token>, done: seq<Token>)
    requires AllHonest(m, input, skipped, finds, pos) && skipped <= skipped' && pos >= 0 && Honest(m, input, skipped', pos, find)
    requires MatchHeld(input, from, pos, len, available, m.wBits, finds) && find.view.prevLength == len
    requires Tallied(input, start, pos, available, toks, Pow2(m.wBits), Log(m.lazy, finds, done))
    ensures Tallied(input, start, pos, available, toks, Pow2(m.wBits), Log(m.lazy, finds[pos := find], done))
    ensures pos !in finds && AllHonest(m, input, skipped', finds[pos := find], pos + 1)
    ensures MatchHeld(input, from, pos, len, available, m.wBits, finds[pos := find])
  {
    hide Honest, Tallied, Pow2, MatchIn;
    FindsEnd(m, input, skipped, finds, pos);
    TalliedFind(input, start, pos, available, toks, Pow2(m.wBits), Log(m.lazy, finds, done), pos, find);
    HonestMore(m, input, [], skipped, skipped', finds, pos, pos);
    assert input + [] == input;
    HonestNext(m, input, skipped', finds, pos, find);
  }

  /** Tally the match of the previous position; returns whether the block must be flushed. */
  method TallyMatch(s: Deflater) returns (flush: bool)
    requires s.blocks.Valid() && s.blocks.lastLit < s.blocks.litBufsize - 1 && s.Fixed()
    requires s.prevLength >= MIN_MATCH && s.base + s.strstart <= |s.input|
    requires s.TalliedTo(s.base + s.strstart, true)
    requires MatchHeld(s.input, s.base + s.prevMatch, s.base + s.strstart, s.prevLength, true, s.wBits, s.finds)
    requires s.base + s.strstart in s.finds && s.finds[s.base + s.strstart].len <= s.prevLength
    modifies s.blocks.dBuf, s.blocks.lBuf, s.blocks.l.fc, s.blocks.d.fc, s.blocks`lastLit
    ensures s.blocks.Valid() && (flush <==> s.blocks.lastLit == s.blocks.litBufsize - 1)
    ensures s.base + s.strstart - 1 + s.prevLength <= |s.input|
    ensures s.TalliedTo(s.base + s.strstart - 1 + s.prevLength, false)
  {
    hide BlockState.Valid, Tallied, MatchHeld, Pow2, Counting, LengthTablesOk, DistTablesOk, Sends, TokensOf, BitWriter.Carries;
    ValidSizes(s.blocks);
    ghost var toks := s.blocks.Tokens();
    TalliedMatch(s.input, s.base + s.blockStart, s.base + s.strstart, toks, s.wBits, s.base + s.prevMatch, s.prevLength,
                 s.ParseLog());
    HeldBounds(s.input, s.base + s.prevMatch, s.base + s.strstart, s.prevLength, true, s.wBits, s.finds);
    flush := s.blocks.TallyDist(s.strstart - 1 - s.prevMatch, s.prevLength - MIN_MATCH);
    ValidSizes(s.blocks);
  }

  lemma HeldBounds(input: seq<byte>, from: int, pos: int, len: nat, available: bool, wBits: nat,
                   finds: map<int, Find>)
    requires MatchHeld(input, from, pos, len, available, wBits, finds)
    ensures len >= MIN_MATCH ==> available && len <= MAX_MATCH && pos - 1 + len <= |input|
  {
  }

  /** Insert all strings up to the end of the match: of length strings from strstart + 1 on, those that
      lie within the input. */
  method InsertRest(s: Deflater, maxInsert: nat)
    requires s.Fixed() && s.prevLength >= 1 && s.strstart + s.prevLength + 5 <= s.window.Length
    requires s.dict.Valid(s.window[..], maxInsert + MIN_MATCH) && s.dict.next <= s.strstart + 1
    requires s.strstart <= maxInsert ==>
               s.dict.next == s.strstart + 1 && Primed(s.window[..], s.dict.z, s.dict.insH, s.strstart + 1)
    requires s.base + s.strstart >= 0 && Indexed(s.dict.ins, s.skipped, s.base, s.strstart + 1)
    modifies s.dict.head, s.dict.prev, s.dict`ins, s.dict`next, s.dict`insH, s`skipped, s`strstart, s`prevLength
    ensures Indexed(s.dict.ins, s.skipped, s.base, s.strstart + 1)
    ensures Late(old(s.skipped), s.skipped, s.base + maxInsert + MIN_MATCH)
    ensures s.strstart <= maxInsert ==> s.skipped == old(s.skipped)
    ensures s.strstart == old(s.strstart) + old(s.prevLength) && s.prevLength == 0
    ensures s.dict.Valid(s.window[..], maxInsert + MIN_MATCH) && s.dict.next <= s.strstart + 1
    ensures s.strstart <= maxInsert ==> Primed(s.window[..], s.dict.z, s.dict.insH, s.strstart + 1)
  {
    hide Held, Chains, Pow2, Adler32, Primed, HashAt, Link, Indexed;
    WindowSize(s.wBits);
    ghost var valid := maxInsert + MIN_MATCH;
    while s.prevLength != 0
      invariant s.strstart + s.prevLength == old(s.strstart) + old(s.prevLength) && old(s.strstart) <= s.strstart
      invariant s.dict.Valid(s.window[..], valid) && s.dict.next <= s.strstart + 1
      invariant s.strstart <= maxInsert ==>
                  s.dict.next == s.strstart + 1 && Primed(s.window[..], s.dict.z, s.dict.insH, s.strstart + 1)
      invariant Indexed(s.dict.ins, s.skipped, s.base, s.strstart + 1)
      invariant Late(old(s.skipped), s.skipped, s.base + maxInsert + MIN_MATCH)
      invariant s.strstart <= maxInsert ==> s.skipped == old(s.skipped)
    {
      s.strstart := s.strstart + 1;
      IndexedNext(s.dict.ins, s.skipped, s.base, s.strstart);
      if s.strstart <= maxInsert {
        var _ := s.dict.Insert(s.window, s.strstart, valid);
      } else {
        s.skipped := s.skipped + {s.base + s.strstart};
      }
      s.prevLength := s.prevLength - 1;
    }
  }

  /** Output the previous match. */
  method EmitMatch(s: Deflater) returns (flush: bool)
    requires s.level >= 4 && s.Stepping() && s.Recorded(s.base + s.strstart + 1)
    requires s.base + s.strstart in s.finds && s.finds[s.base + s.strstart].len <= s.prevLength
    requires s.blocks.Valid() && s.blocks.lastLit < s.blocks.litBufsize - 1
    requires s.prevLength >= MIN_MATCH && s.matchAvailable && s.strstart >= 1
    requires s.TalliedTo(s.base + s.strstart, true)
    requires MatchHeld(s.input, s.base + s.prevMatch, s.base + s.strstart, s.prevLength, true, s.wBits, s.finds)
    modifies s.blocks.dBuf, s.blocks.lBuf, s.blocks.l.fc, s.blocks.d.fc, s.blocks`lastLit
    modifies s.dict.head, s.dict.prev, s.dict`ins, s.dict`next, s.dict`insH, s`skipped
    modifies s`strstart, s`lookahead, s`prevLength, s`matchLength, s`matchAvailable
    ensures Late(old(s.skipped), s.skipped, |s.input|) && s.Recorded(s.base + s.strstart)
    ensures old(s.lookahead) >= MIN_LOOKAHEAD ==> s.skipped == old(s.skipped)
    ensures s.Windowed() && s.Parsed() && s.blocks.Valid() && (flush <==> s.blocks.lastLit == s.blocks.litBufsize - 1)
    ensures !s.matchAvailable && s.lookahead < old(s.lookahead)
  {
    hide BlockState.Valid, Held, Chains, Pow2, Adler32, Primed, Tallied, MatchHeld, Counting, LengthTablesOk, DistTablesOk, Sends, TokensOf,
         BitWriter.Carries;
    SlidingIs(s);
    HeldBounds(s.input, s.base + s.prevMatch, s.base + s.strstart, s.prevLength, true, s.wBits, s.finds);
    flush := TallyMatch(s);
    ValidSizes(s.blocks);
    ghost var skipped0, end := s.skipped, s.base + s.strstart + 1;
    FindsEnd(s.ParseMode(), s.input, s.skipped, s.finds, end);
    PassMatch(s);
    HonestMore(s.ParseMode(), s.input, [], skipped0, s.skipped, s.finds, end, s.base + s.strstart);
    assert s.input + [] == s.input;
    NoMatchHeld(s.input, s.base + s.matchStart, s.base + s.strstart, s.matchLength, s.wBits, s.finds);
  }

  /** Move on to the end of the previous match. */
  method PassMatch(s: Deflater)
    requires s.Stepping()
    requires MIN_MATCH <= s.prevLength <= MAX_MATCH && s.strstart >= 1 && s.prevLength <= s.lookahead + 1
    modifies s.dict.head, s.dict.prev, s.dict`ins, s.dict`next, s.dict`insH, s`skipped
    modifies s`strstart, s`lookahead, s`prevLength, s`matchLength, s`matchAvailable
    ensures Late(old(s.skipped), s.skipped, |s.input|)
    ensures old(s.lookahead) >= MIN_LOOKAHEAD ==> s.skipped == old(s.skipped)
    ensures s.Windowed() && s.strstart == old(s.strstart) - 1 + old(s.prevLength)
    ensures s.strstart + s.lookahead == old(s.strstart + s.lookahead) && !s.matchAvailable && s.matchLength == MIN_MATCH - 1
  {
    hide Held, Chains, Pow2, Adler32, Primed, Indexed;
    SlidingIs(s);
    var maxInsert: nat := s.strstart + s.lookahead - MIN_MATCH;
    s.lookahead := s.lookahead - (s.prevLength - 1);
    s.prevLength := s.prevLength - 2;
    InsertRest(s, maxInsert);
    s.matchAvailable := false;
    s.matchLength := MIN_MATCH - 1;
    s.strstart := s.strstart + 1;
  }

  lemma SlidingIs(s: Deflater)
    requires s.Sliding()
    ensures |s.input| == s.base + s.strstart + s.lookahead
  {
  }

  lemma NoMatchHeld(input: seq<byte>, from: int, pos: int, len: nat, wBits: nat, finds: map<int, Find>)
    requires len < MIN_MATCH && (pos - 1 in finds ==> Noted(finds, pos - 1, len, from))
    ensures MatchHeld(input, from, pos, len, false, wBits, finds)
  {
  }

  lemma FindsEnd(m: Mode, input: seq<byte>, skipped: set<int>, finds: map<int, Find>, end: int)
    requires AllHonest(m, input, skipped, finds, end)
    ensures forall k :: k in finds ==> 0 <= k < end
  {
    hide Honest, Carried;
  }
}
