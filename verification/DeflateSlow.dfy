/** deflate_slow and the flushing of blocks. */
module DeflateSlow {
  import opened Sums
  import opened Bits
  import opened Inflate
  import opened StaticTables
  import opened BitWriter
  import opened Tokens
  import opened BlockFormat
  import opened Blocks
  import FlushBlock
  import opened RollingHash
  import opened HashChains
  import opened LongestMatch
  import opened LazyParse
  import opened Lz77
  import opened Deflate
  import opened FillWindow
  import opened LazyMatch

  // ---------- The compressed data sent so far ----------

  /** After the header, the bits sent are non-final blocks that make the text. */
  ghost predicate Sending(sent: seq<bool>, header: nat, wsize: nat, text: seq<byte>)
  {
    header <= |sent| && header % 8 == 0 && Open(sent[header..], wsize, text)
  }

  /** From the header to position end the bits sent are a complete stream that makes the text, then
      comes the padding to the next byte. */
  ghost predicate Sent(sent: seq<bool>, header: nat, end: nat, wsize: nat, text: seq<byte>)
  {
    header <= end && end + Padding(end) <= |sent| && header % 8 == 0 && Closed(sent[header..end], wsize, text)
  }

  lemma SendingBlock(sent: seq<bool>, header: nat, wsize: nat, before: seq<byte>, block: seq<bool>, final: bool, text: seq<byte>,
                     pad: seq<bool>)
    requires Sending(sent, header, wsize, before) && Encodes(block, wsize, |sent| - header, before, final, text)
    requires |pad| == if final then Padding(|sent + block|) else 0
    ensures !final ==> Sending(sent + block + pad, header, wsize, text)
    ensures final ==> Sent(sent + block + pad, header, |sent + block|, wsize, text)
  {
    hide Open, Closed, Encodes;
    OpenNext(sent[header..], wsize, before, block, final, text);
    assert (sent + block + pad)[header..|sent + block|] == sent[header..] + block;
    assert !final ==> sent + block + pad == sent + block;
    assert !final ==> (sent + block)[header..] == sent[header..] + block;
  }

  /** Bytes are only ever added to those delivered, and each takes one byte of the space offered. */
  twostate predicate Delivers(out: Output)
    reads out
  {
    old(out.delivered) <= out.delivered && |out.delivered| - |old(out.delivered)| == old(out.availOut) - out.availOut
  }

  /** What flushing a block keeps: the bits and bytes before. */
  twostate predicate Grows(out: Output)
    reads out
  {
    old(out.sent) <= out.sent && Delivers(out)
  }

  // ---------- FLUSH_BLOCK_ONLY ----------

  /** The window holds the text of the block, unless it has moved out of it. */
  lemma BufferHeld(w: seq<byte>, input: seq<byte>, base: int, strstart: nat, lookahead: nat, blockStart: int, toks: seq<Token>,
                   wsize: nat, log: Log)
    requires Held(w, input, base, strstart + lookahead) && strstart + 4 <= |w| <= 65536
    requires Tallied(input, base + blockStart, base + strstart, false, toks, wsize, log)
    ensures 0 <= base + blockStart <= |input|
    ensures blockStart <= strstart
    ensures FlushBlock.BufferOk(w, blockStart, strstart - blockStart, input[..base + blockStart], toks)
    ensures AllReach(input[..base + blockStart], toks, wsize) && Text(input[..base + blockStart], toks) == input[..base + strstart]
  {
    hide Held, Text, AllReach, ParsedTo;
    if blockStart >= 0 {
      HeldLength(w, input, base, strstart + lookahead);
      HeldSlice(w, input, base, strstart + lookahead, blockStart, strstart);
      assert input[..base + blockStart] + input[base + blockStart..base + strstart] == input[..base + strstart];
    }
  }

  /** The compressed data sent makes the input up to pos. */
  ghost predicate SentTo(s: Deflater, pos: int)
    reads s`input, s`header, s.blocks.out`sent
  {
    0 <= pos <= |s.input| && Sending(s.blocks.out.sent, s.header, Pow2(s.wBits), s.input[..pos])
  }

  /** The compressed data is complete and makes the input up to pos. */
  ghost predicate AllSent(s: Deflater, pos: int)
    reads s`input, s`header, s`dataEnd, s.blocks.out`sent, s.blocks.out`biValid
  {
    && 0 <= pos <= |s.input| && Sent(s.blocks.out.sent, s.header, s.dataEnd, Pow2(s.wBits), s.input[..pos])
    && |s.blocks.out.sent| == s.dataEnd + Padding(s.dataEnd) && s.blocks.out.biValid == 0
  }

  /** Flush a block of which the text is known, and as much output as possible. */
  method FlushText(s: BlockState, window: array<byte>, blockStart: int, storedLen: nat, eof: bool,
                   ghost wsize: nat, ghost header: nat, ghost before: seq<byte>, ghost text: seq<byte>)
      returns (ghost dataEnd: nat)
    requires s.Valid() && window != s.lBuf && AllReach(before, s.Tokens(), wsize) && Text(before, s.Tokens()) == text
    requires FlushBlock.BufferOk(window[..], blockStart, storedLen, before, s.Tokens())
    requires Sending(s.out.sent, header, wsize, before)
    modifies s.st, s.st.heap, s.st.depth, s.st.blCount, s.l`maxCode, s.l.fc, s.l.dl
    modifies s.d`maxCode, s.d.fc, s.d.dl, s.bl`maxCode, s.bl.fc, s.bl.dl, s.out, s`lastEobLen, s`lastLit
    ensures s.Valid() && s.lastLit == 0 && Grows(s.out)
    ensures !eof ==> Sending(s.out.sent, header, wsize, text)
    ensures eof ==> Sent(s.out.sent, header, dataEnd, wsize, text) && |s.out.sent| == dataEnd + Padding(dataEnd) && s.out.biValid == 0
    ensures s.out.pending == [] || s.out.availOut == 0
  {
    hide BlockState.Valid, Sending, Sent, Encodes, TokensOf, Text, AllReach, FlushBlock.BufferOk, FlushBlock.Flushed, Padding, Zeros,
         Carries, FlushBlock.Best;
    ValidSizes(s);
    ghost var sent0, m, toks := s.out.sent, s.CodeMaps(), s.Tokens();
    SendingStart(sent0, header, wsize, before);
    ghost var block, c;
    var kind, optLen, staticLen;
    block, kind, optLen, staticLen, c := FlushBlock.FlushBlock(s, window, blockStart, storedLen, eof, wsize, header, before);
    FlushedEncodes(block, kind, c, optLen, staticLen, m, toks, wsize, |sent0| - header, before, eof);
    ghost var pad := if eof then Zeros(Padding(|sent0 + block|)) else [];
    assert s.out.sent == sent0 + block + pad;
    SendingBlock(sent0, header, wsize, before, block, eof, text, pad);
    dataEnd := |sent0 + block|;
    ValidSizes(s);
    NoTokensLeft(s);
    FlushOut(s);
  }

  lemma SendingStart(sent: seq<bool>, header: nat, wsize: nat, text: seq<byte>)
    requires Sending(sent, header, wsize, text)
    ensures header <= |sent| && header % 8 == 0
  {
  }

  lemma FlushedEncodes(block: seq<bool>, kind: nat, c: DynCode, optLen: int, staticLen: int, m: Maps, toks: seq<Token>,
                       wsize: nat, pos: nat, before: seq<byte>, eof: bool)
    requires FlushBlock.Flushed(block, kind, c, optLen, staticLen, m, toks, wsize, pos, before, eof)
    ensures Encodes(block, wsize, pos, before, eof, Text(before, toks))
  {
    hide Encodes, MapsOk, FlushBlock.Sized, Text;
  }

  lemma NoTokensLeft(s: BlockState)
    requires s.Valid() && s.Tokens() == []
    ensures s.lastLit == 0
  {
    hide Carries, Counting, LengthTablesOk, DistTablesOk, Sends;
  }

  /** What the block to be flushed stands for, and what is tallied afterwards. */
  lemma BlockText(s: Deflater)
    requires s.Sliding() && s.blocks.Valid() && s.base + s.strstart <= |s.input| && s.TalliedTo(s.base + s.strstart, false)
    ensures 0 <= s.base + s.blockStart <= |s.input| && s.base + s.strstart >= 0 && s.blockStart <= s.strstart && s.window != s.blocks.lBuf
    ensures s.blocks.lastLit <= s.blocks.dBuf.Length && s.blocks.lastLit <= s.blocks.lBuf.Length
    ensures var before, toks := s.input[..s.base + s.blockStart], s.blocks.Tokens();
            && FlushBlock.BufferOk(s.window[..], s.blockStart, s.strstart - s.blockStart, before, toks)
            && AllReach(before, toks, Pow2(s.wBits)) && Text(before, toks) == s.input[..s.base + s.strstart]
            && Tallied(s.input, s.base + s.strstart, s.base + s.strstart, false, [], Pow2(s.wBits),
                       Log(s.level >= 4, s.finds, s.done + toks))
  {
    hide BlockState.Valid, Held, Chains, Pow2, Adler32, Tallied, TokensOf, Text, AllReach, FlushBlock.BufferOk;
    WindowSize(s.wBits);
    BufferHeld(s.window[..], s.input, s.base, s.strstart, s.lookahead, s.blockStart, s.blocks.Tokens(), Pow2(s.wBits), s.ParseLog());
    TalliedFlushed(s.input, s.base + s.blockStart, s.base + s.strstart, s.blocks.Tokens(), Pow2(s.wBits), s.ParseLog());
  }

  /** Flush the current block, which ends at strstart, and as much output as possible. */
  method FlushBlockOnly(s: Deflater, eof: bool, ghost asked: bool)
    requires s.Sliding() && s.blocks.Valid() && SentTo(s, s.base + s.blockStart) && s.blocks.out.pending == []
    requires s.base + s.strstart <= |s.input|
    requires s.TalliedTo(s.base + s.strstart, false)
    modifies s.blocks.st, s.blocks.st.heap, s.blocks.st.depth, s.blocks.st.blCount, s.blocks.l`maxCode, s.blocks.l.fc, s.blocks.l.dl
    modifies s.blocks.d`maxCode, s.blocks.d.fc, s.blocks.d.dl, s.blocks.bl`maxCode, s.blocks.bl.fc, s.blocks.bl.dl
    modifies s.blocks.out, s.blocks`lastEobLen, s.blocks`lastLit, s`blockStart, s`dataEnd, s`done, s`cuts
    ensures s.Sliding() && s.blocks.Valid() && s.blocks.lastLit == 0 && s.blockStart == s.strstart && Grows(s.blocks.out)
    ensures s.done == old(s.done) + old(s.blocks.Tokens()) && s.TalliedTo(s.base + s.strstart, false)
    ensures s.cuts == old(s.cuts) + [Cut(old(s.blocks.lastLit), asked)]
    ensures if eof then AllSent(s, s.base + s.strstart) else SentTo(s, s.base + s.strstart)
    ensures s.blocks.out.pending == [] || s.blocks.out.availOut == 0
  {
    hide BlockState.Valid, Deflater.Sliding, Pow2, Tallied, Sending, Sent, TokensOf, Text, AllReach, FlushBlock.BufferOk, Padding;
    ValidSizes(s.blocks);
    BlockText(s);
    ghost var before := s.input[..s.base + s.blockStart];
    ghost var toks, n := s.blocks.Tokens(), s.blocks.lastLit;
    ghost var end := FlushText(s.blocks, s.window, s.blockStart, s.strstart - s.blockStart, eof, Pow2(s.wBits), s.header, before,
                               s.input[..s.base + s.strstart]);
    s.dataEnd := end;
    s.blockStart := s.strstart;
    s.done, s.cuts := s.done + toks, s.cuts + [Cut(n, asked)];
    ValidSizes(s.blocks);
    assert s.blocks.Tokens() == [];
  }

  /** flush_pending leaves the rest of the state valid. */
  method FlushOut(s: BlockState)
    requires s.Valid()
    modifies s.out`pending, s.out`delivered, s.out`availOut
    ensures s.Valid() && Delivers(s.out)
    ensures s.out.pending == [] || s.out.availOut == 0
    ensures s.out.availOut > 0 <==> |old(s.out.pending)| < old(s.out.availOut)
  {
    hide Carries, Counting, LengthTablesOk, DistTablesOk, Sends, TokensOf;
    s.out.FlushPending();
  }

  // ---------- deflate_slow ----------

  /** Ready for the next step of the compression loop. */
  ghost predicate Ready(s: Deflater)
    reads s, s.window, s.dict, s.dict.head, s.dict.prev
    reads s.blocks, s.blocks.out, s.blocks.st, s.blocks.l.fc, s.blocks.d.fc, s.blocks.bl.fc, s.blocks.dBuf, s.blocks.lBuf
  {
    && s.Windowed() && s.Parsed() && s.blocks.Valid() && s.blocks.lastLit < s.blocks.litBufsize - 1
    && SentTo(s, s.base + s.blockStart) && s.Recorded(s.base + s.strstart)
  }

  /** Tally the literal held back; returns whether the block must be flushed. */
  method TallyHeld(s: Deflater) returns (flush: bool)
    requires s.Sliding() && s.blocks.Valid() && s.blocks.lastLit < s.blocks.litBufsize - 1
    requires s.strstart >= 1 && s.base + s.strstart <= |s.input|
    requires s.TalliedTo(s.base + s.strstart, true) && LiteralDue(s.ParseLog(), s.base + s.strstart)
    modifies s.blocks.dBuf, s.blocks.lBuf, s.blocks.l.fc, s.blocks`lastLit
    ensures s.blocks.Valid() && (flush <==> s.blocks.lastLit == s.blocks.litBufsize - 1)
    ensures s.Sliding() && s.window[..] == old(s.window[..])
    ensures s.TalliedTo(s.base + s.strstart, false)
  {
    hide BlockState.Valid, Chains, Pow2, Adler32, Tallied, TokensOf, Indexed, LiteralDue;
    ValidSizes(s.blocks);
    TalliedBounds(s.input, s.base + s.blockStart, s.base + s.strstart, true, s.blocks.Tokens(), Pow2(s.wBits), s.ParseLog());
    TalliedLit(s.input, s.base + s.blockStart, s.base + s.strstart, s.blocks.Tokens(), Pow2(s.wBits), s.window[s.strstart - 1],
               s.ParseLog());
    flush := s.blocks.TallyLit(s.window[s.strstart - 1]);
    ValidSizes(s.blocks);
  }

  /** What a step adds to the record: searches, and skipped positions only at the end of the input. */
  twostate predicate Advances(s: Deflater)
    reads s
  {
    && Grown(old(s.finds), s.finds) && Late(old(s.skipped), s.skipped, |s.input|)
    && (old(s.lookahead) >= MIN_LOOKAHEAD ==> s.skipped == old(s.skipped))
  }

  /** What a step leaves of the output: only full blocks are flushed, each when nothing is pending, and
      full says that the output space is used up. */
  twostate predicate Outputs(s: Deflater, full: bool)
    reads s, s.blocks.out
  {
    && FullOnly(old(s.cuts), s.cuts, s.blocks.litBufsize - 1)
    && (if full then s.blocks.out.availOut == 0 else s.blocks.out.pending == [])
  }

  /** Output the previous match, and the block if it is full. */
  method TakeMatch(s: Deflater) returns (flush: bool)
    requires s.level >= 4 && s.Stepping() && s.Recorded(s.base + s.strstart + 1)
    requires s.base + s.strstart in s.finds && s.finds[s.base + s.strstart].len <= s.prevLength
    requires s.blocks.Valid() && s.blocks.lastLit < s.blocks.litBufsize - 1 && SentTo(s, s.base + s.blockStart)
    requires s.prevLength >= MIN_MATCH && s.matchAvailable && s.strstart >= 1
    requires s.TalliedTo(s.base + s.strstart, true) && s.blocks.out.pending == []
    requires MatchHeld(s.input, s.base + s.prevMatch, s.base + s.strstart, s.prevLength, true, s.wBits, s.finds)
    modifies s.dict.head, s.dict.prev, s.dict`ins, s.dict`next, s.dict`insH, s`skipped, s`done, s`cuts
    modifies s`strstart, s`lookahead, s`prevLength, s`matchLength, s`matchAvailable, s`blockStart, s`dataEnd
    modifies s.blocks.dBuf, s.blocks.lBuf, s.blocks.st, s.blocks.st.heap, s.blocks.st.depth, s.blocks.st.blCount
    modifies s.blocks.l`maxCode, s.blocks.l.fc, s.blocks.l.dl, s.blocks.d`maxCode, s.blocks.d.fc, s.blocks.d.dl
    modifies s.blocks.bl`maxCode, s.blocks.bl.fc, s.blocks.bl.dl, s.blocks.out, s.blocks`lastEobLen, s.blocks`lastLit
    ensures Ready(s) && Grows(s.blocks.out) && s.lookahead < old(s.lookahead) && Advances(s)
    ensures Outputs(s, flush && s.blocks.out.availOut == 0)
  {
    hide BlockState.Valid, MatchHeld, SentTo, AllHonest, Taken, Ready, Deflater.Windowed, Deflater.Parsed, Deflater.Stepping,
         Deflater.Recorded, Deflater.TalliedTo;
    flush := EmitMatch(s);
    EmitTaken(s);
    if flush {
      FlushFull(s);
    } else {
      TakenReady(s);
    }
  }

  /** Between two steps, no literal being held back; the block may be full. */
  ghost predicate Taken(s: Deflater)
    reads s, s.window, s.dict, s.dict.head, s.dict.prev
    reads s.blocks, s.blocks.out, s.blocks.st, s.blocks.l.fc, s.blocks.d.fc, s.blocks.bl.fc, s.blocks.dBuf, s.blocks.lBuf
  {
    s.Windowed() && s.Parsed() && !s.matchAvailable && s.blocks.Valid() && s.Recorded(s.base + s.strstart)
  }

  lemma TakenReady(s: Deflater)
    requires Taken(s) && s.blocks.lastLit < s.blocks.litBufsize - 1 && SentTo(s, s.base + s.blockStart)
    ensures Ready(s)
  {
    hide BlockState.Valid, Deflater.Windowed, Deflater.Parsed, Deflater.Recorded, SentTo;
  }

  lemma EmitTaken(s: Deflater)
    requires s.Windowed() && s.Parsed() && !s.matchAvailable && s.blocks.Valid() && s.Recorded(s.base + s.strstart)
    ensures Taken(s) && s.blocks.lastLit <= s.blocks.litBufsize - 1
  {
    hide BlockState.Valid, Deflater.Windowed, Deflater.Parsed, Deflater.Recorded;
    ValidSizes(s.blocks);
  }

  /** Flush a full block between two steps, when no literal is held back. */
  method FlushFull(s: Deflater)
    requires Taken(s) && SentTo(s, s.base + s.blockStart) && s.blocks.lastLit == s.blocks.litBufsize - 1 && s.blocks.out.pending == []
    modifies s.blocks.st, s.blocks.st.heap, s.blocks.st.depth, s.blocks.st.blCount, s.blocks.l`maxCode, s.blocks.l.fc, s.blocks.l.dl
    modifies s.blocks.d`maxCode, s.blocks.d.fc, s.blocks.d.dl, s.blocks.bl`maxCode, s.blocks.bl.fc, s.blocks.bl.dl
    modifies s.blocks.out, s.blocks`lastEobLen, s.blocks`lastLit, s`blockStart, s`dataEnd, s`done, s`cuts
    ensures Ready(s) && Grows(s.blocks.out) && Outputs(s, s.blocks.out.availOut == 0)
  {
    hide BlockState.Valid, Deflater.Windowed, Deflater.Sliding, Deflater.Recorded, Deflater.TalliedTo, MatchHeld, SentTo;
    WindowedSlides(s);
    FlushBlockOnly(s, false, false);
    ValidSizes(s.blocks);
  }

  lemma WindowedSlides(s: Deflater)
    requires s.Windowed()
    ensures s.Sliding()
  {
  }

  /** Move on by one position, which becomes the literal held back. */
  method HoldNext(s: Deflater)
    requires s.level >= 4
    requires s.Stepping() && s.lookahead >= 1
    requires s.blocks.Valid() && 1 <= s.matchLength <= MAX_MATCH
    requires s.TalliedTo(s.base + s.strstart, false)
    requires MatchHeld(s.input, s.base + s.matchStart, s.base + s.strstart + 1, s.matchLength, true, s.wBits, s.finds)
    modifies s`strstart, s`lookahead, s`matchAvailable
    ensures s.Windowed() && s.Parsed() && s.matchAvailable && s.strstart == old(s.strstart) + 1 && s.lookahead < old(s.lookahead)
  {
    hide BlockState.Valid, Held, Chains, Pow2, Adler32, Tallied, MatchHeld, TokensOf, Primed;
    ValidSizes(s.blocks);
    SlidingIs(s);
    TalliedHold(s.input, s.base + s.blockStart, s.base + s.strstart, s.blocks.Tokens(), Pow2(s.wBits), s.ParseLog());
    s.matchAvailable := true;
    s.strstart := s.strstart + 1;
    s.lookahead := s.lookahead - 1;
  }

  /** Output the literal held back, and the block if it is full. */
  method TakeLiteral(s: Deflater)
    requires s.Sliding() && s.strstart >= 1 && s.base + s.strstart <= |s.input|
    requires s.blocks.Valid() && s.blocks.lastLit < s.blocks.litBufsize - 1 && SentTo(s, s.base + s.blockStart)
    requires s.blocks.out.pending == []
    requires s.TalliedTo(s.base + s.strstart, true) && LiteralDue(s.ParseLog(), s.base + s.strstart)
    modifies s`blockStart, s`dataEnd, s`done, s`cuts
    modifies s.blocks.dBuf, s.blocks.lBuf, s.blocks.st, s.blocks.st.heap, s.blocks.st.depth, s.blocks.st.blCount
    modifies s.blocks.l`maxCode, s.blocks.l.fc, s.blocks.l.dl, s.blocks.d`maxCode, s.blocks.d.fc, s.blocks.d.dl
    modifies s.blocks.bl`maxCode, s.blocks.bl.fc, s.blocks.bl.dl, s.blocks.out, s.blocks`lastEobLen, s.blocks`lastLit
    ensures s.Sliding() && s.blocks.Valid() && s.blocks.lastLit < s.blocks.litBufsize - 1 && SentTo(s, s.base + s.blockStart)
    ensures s.window[..] == old(s.window[..]) && Grows(s.blocks.out)
    ensures s.TalliedTo(s.base + s.strstart, false) && Outputs(s, s.blocks.out.availOut == 0)
  {
    hide BlockState.Valid, Held, Chains, Pow2, Adler32, Tallied, Sending, Sent, TokensOf, Deflater.Sliding;
    var flush := TallyHeld(s);
    ValidSizes(s.blocks);
    if flush {
      FlushBlockOnly(s, false, false);
      ValidSizes(s.blocks);
    }
  }

  /** One step of the loop, with input ahead; full says that the output space is used up. */
  method SlowStep(s: Deflater, hashHead0: Pos) returns (hashHead: Pos, full: bool)
    requires s.level >= 4
    requires Ready(s) && s.strstart + MIN_LOOKAHEAD <= s.window.Length && s.lookahead >= 1 && s.blocks.out.pending == []
    modifies s.dict.head, s.dict.prev, s.dict`ins, s.dict`next, s.dict`insH, s`skipped, s`finds, s`done, s`cuts
    modifies s`strstart, s`lookahead, s`prevLength, s`prevMatch, s`matchLength, s`matchStart, s`matchAvailable, s`blockStart, s`dataEnd
    modifies s.blocks.dBuf, s.blocks.lBuf, s.blocks.st, s.blocks.st.heap, s.blocks.st.depth, s.blocks.st.blCount
    modifies s.blocks.l`maxCode, s.blocks.l.fc, s.blocks.l.dl, s.blocks.d`maxCode, s.blocks.d.fc, s.blocks.d.dl
    modifies s.blocks.bl`maxCode, s.blocks.bl.fc, s.blocks.bl.dl, s.blocks.out, s.blocks`lastEobLen, s.blocks`lastLit
    ensures Ready(s) && Grows(s.blocks.out) && s.lookahead < old(s.lookahead) && Advances(s)
    ensures old(s.base + s.strstart) in s.finds && old(s.base + s.strstart) !in old(s.finds)
    ensures Outputs(s, full)
  {
    hide BlockState.Valid, Pow2, MatchHeld, Ready, SentTo, AllHonest, Better, Deflater.Windowed, Deflater.Stepping, Deflater.Recorded,
         Deflater.TalliedTo, FullOnly;
    ReadyHeld(s);
    WindowedAt(s);
    hashHead := Seek(s, hashHead0);
    full := Decide(s);
  }

  /** Tally the previous match, or the literal held back, or nothing yet. */
  method Decide(s: Deflater) returns (full: bool)
    requires s.level >= 4
    requires s.Stepping() && s.lookahead >= 1
    requires s.blocks.Valid() && s.blocks.lastLit < s.blocks.litBufsize - 1 && SentTo(s, s.base + s.blockStart)
    requires s.TalliedTo(s.base + s.strstart, s.matchAvailable)
    requires MatchHeld(s.input, s.base + s.prevMatch, s.base + s.strstart, s.prevLength, s.matchAvailable, s.wBits, s.finds)
    requires (s.matchAvailable ==> s.strstart >= 1) && 1 <= s.matchLength <= MAX_MATCH && Better(s)
    requires s.Recorded(s.base + s.strstart + 1) && s.blocks.out.pending == []
    modifies s.dict.head, s.dict.prev, s.dict`ins, s.dict`next, s.dict`insH, s`skipped, s`done, s`cuts
    modifies s`strstart, s`lookahead, s`prevLength, s`matchLength, s`matchAvailable, s`blockStart, s`dataEnd
    modifies s.blocks.dBuf, s.blocks.lBuf, s.blocks.st, s.blocks.st.heap, s.blocks.st.depth, s.blocks.st.blCount
    modifies s.blocks.l`maxCode, s.blocks.l.fc, s.blocks.l.dl, s.blocks.d`maxCode, s.blocks.d.fc, s.blocks.d.dl
    modifies s.blocks.bl`maxCode, s.blocks.bl.fc, s.blocks.bl.dl, s.blocks.out, s.blocks`lastEobLen, s.blocks`lastLit
    ensures Ready(s) && Grows(s.blocks.out) && s.lookahead < old(s.lookahead) && Advances(s)
    ensures Outputs(s, full)
  {
    hide BlockState.Valid, Held, Chains, Pow2, Adler32, Tallied, MatchHeld, SentTo, TokensOf, Primed, Ready, Deflater.Stepping, AllHonest,
         MatchIn;
    full := false;
    if s.prevLength >= MIN_MATCH && s.matchLength <= s.prevLength {
      AvailableHeld(s.input, s.base + s.prevMatch, s.base + s.strstart, s.prevLength, s.matchAvailable, s.wBits, s.finds);
      var flush := TakeMatch(s);
      full := flush && s.blocks.out.availOut == 0;
    } else {
      KeptHeld(s);
      GivenUp(s);
      full := KeepCurrent(s);
    }
  }

  /** Output the literal held back, if any, and hold the next one back. */
  method KeepCurrent(s: Deflater) returns (full: bool)
    requires s.level >= 4
    requires s.Stepping() && s.lookahead >= 1
    requires s.blocks.Valid() && s.blocks.lastLit < s.blocks.litBufsize - 1 && SentTo(s, s.base + s.blockStart)
    requires s.TalliedTo(s.base + s.strstart, s.matchAvailable)
    requires (s.matchAvailable ==> s.strstart >= 1) && 1 <= s.matchLength <= MAX_MATCH
    requires MatchHeld(s.input, s.base + s.matchStart, s.base + s.strstart + 1, s.matchLength, true, s.wBits, s.finds)
    requires s.Recorded(s.base + s.strstart + 1) && (s.matchAvailable ==> LiteralDue(s.ParseLog(), s.base + s.strstart))
    requires s.blocks.out.pending == []
    modifies s`strstart, s`lookahead, s`matchAvailable, s`blockStart, s`dataEnd, s`done, s`cuts
    modifies s.blocks.dBuf, s.blocks.lBuf, s.blocks.st, s.blocks.st.heap, s.blocks.st.depth, s.blocks.st.blCount
    modifies s.blocks.l`maxCode, s.blocks.l.fc, s.blocks.l.dl, s.blocks.d`maxCode, s.blocks.d.fc, s.blocks.d.dl
    modifies s.blocks.bl`maxCode, s.blocks.bl.fc, s.blocks.bl.dl, s.blocks.out, s.blocks`lastEobLen, s.blocks`lastLit
    ensures Ready(s) && Grows(s.blocks.out) && s.lookahead < old(s.lookahead)
    ensures Outputs(s, full)
  {
    hide BlockState.Valid, Held, Chains, Pow2, Adler32, Tallied, MatchHeld, Sending, Sent, TokensOf, Primed, AllHonest, Indexed;
    SlidingIs(s);
    full := false;
    if s.matchAvailable {
      TakeLiteral(s);
      HoldNext(s);
      full := s.blocks.out.availOut == 0;
    } else {
      HoldNext(s);
    }
  }

  /** The match held at the previous position, if any, is beaten. */
  lemma GivenUp(s: Deflater)
    requires Better(s) && !(s.prevLength >= MIN_MATCH && s.matchLength <= s.prevLength) && s.level >= 4
    requires MatchHeld(s.input, s.base + s.prevMatch, s.base + s.strstart, s.prevLength, s.matchAvailable, s.wBits, s.finds)
    ensures s.matchAvailable ==> LiteralDue(s.ParseLog(), s.base + s.strstart)
  {
    hide MatchIn;
  }

  lemma AvailableHeld(input: seq<byte>, from: int, pos: int, len: nat, available: bool, wBits: nat, finds: map<int, Find>)
    requires MatchHeld(input, from, pos, len, available, wBits, finds) && len >= MIN_MATCH
    ensures available
  {
  }

  /** The current match is kept when the previous one is not taken. */
  lemma KeptHeld(s: Deflater)
    requires Better(s) && !(s.prevLength >= MIN_MATCH && s.matchLength <= s.prevLength)
    ensures MatchHeld(s.input, s.base + s.matchStart, s.base + s.strstart + 1, s.matchLength, true, s.wBits, s.finds)
  {
    hide MatchIn;
  }

  /** What a run of the compression loop leaves alone. */
  twostate predicate Consumes(s: Deflater)
    reads s
  {
    s.input + s.nextIn == old(s.input + s.nextIn) && old(s.input) <= s.input
  }

  /** With lazy matching strings are skipped at the end of the input only, when a flush is asked for. */
  twostate predicate Trails(s: Deflater, flush: int)
    reads s
  {
    && Grown(old(s.finds), s.finds)
    && (if flush != Z_NO_FLUSH && s.nextIn == [] then Late(old(s.skipped), s.skipped, |s.input|) else s.skipped == old(s.skipped))
  }

  /** How a round of the compression loop ends: go on, return need_more, or leave the loop. */
  datatype Round = Continue | Return | Leave

  /** Make sure there is enough lookahead, except at the end of the input. */
  method Refill(s: Deflater, flush: int) returns (r: Round)
    requires Ready(s)
    modifies s.window, s.dict.head, s.dict.prev, s.dict`ins, s.dict`next, s.dict`insH
    modifies s`strstart, s`blockStart, s`matchStart, s`base, s`lookahead, s`nextIn, s`adler, s`input
    ensures Ready(s) && Consumes(s) && s.lookahead + |s.nextIn| == old(s.lookahead + |s.nextIn|)
    ensures r.Continue? ==>
              && s.strstart + MIN_LOOKAHEAD <= s.window.Length && s.lookahead >= 1
              && (s.lookahead < MIN_LOOKAHEAD ==> flush != Z_NO_FLUSH && s.nextIn == [])
    ensures r.Return? ==> flush == Z_NO_FLUSH && s.nextIn == []
    ensures r.Leave? ==> s.lookahead == 0 && s.nextIn == [] && flush != Z_NO_FLUSH
  {
    hide Ready;
    r := Continue;
    if s.lookahead < MIN_LOOKAHEAD {
      FillReady(s);
      if s.lookahead < MIN_LOOKAHEAD && flush == Z_NO_FLUSH {
        return Return;
      }
      if s.lookahead == 0 {
        return Leave;
      }
    } else {
      ReadyFits(s);
    }
  }

  /** One round of the loop: enough lookahead, then one step. */
  method SlowRound(s: Deflater, flush: int, hashHead0: Pos) returns (r: Round, hashHead: Pos)
    requires s.level >= 4
    requires Ready(s) && s.blocks.out.pending == []
    modifies s.window, s.dict.head, s.dict.prev, s.dict`ins, s.dict`next, s.dict`insH, s`skipped, s`finds, s`done, s`cuts
    modifies s`strstart, s`lookahead, s`prevLength, s`prevMatch, s`matchLength, s`matchStart, s`matchAvailable, s`blockStart, s`dataEnd
    modifies s`base, s`nextIn, s`adler, s`input
    modifies s.blocks.dBuf, s.blocks.lBuf, s.blocks.st, s.blocks.st.heap, s.blocks.st.depth, s.blocks.st.blCount
    modifies s.blocks.l`maxCode, s.blocks.l.fc, s.blocks.l.dl, s.blocks.d`maxCode, s.blocks.d.fc, s.blocks.d.dl
    modifies s.blocks.bl`maxCode, s.blocks.bl.fc, s.blocks.bl.dl, s.blocks.out, s.blocks`lastEobLen, s.blocks`lastLit
    ensures Ready(s) && Grows(s.blocks.out) && Consumes(s) && Trails(s, flush)
    ensures r.Return? ==> s.blocks.out.availOut == 0 || (flush == Z_NO_FLUSH && s.nextIn == [])
    ensures r.Leave? ==> s.lookahead == 0 && s.nextIn == [] && flush != Z_NO_FLUSH
    ensures r.Continue? ==> s.lookahead + |s.nextIn| < old(s.lookahead + |s.nextIn|)
    ensures FullOnly(old(s.cuts), s.cuts, s.blocks.litBufsize - 1) && (!r.Return? ==> s.blocks.out.pending == [])
  {
    hide Ready, FullOnly;
    NoCuts(s.cuts, s.blocks.litBufsize - 1);
    hashHead := hashHead0;
    r := Refill(s, flush);
    if r.Continue? {
      var full;
      hashHead, full := SlowStep(s, hashHead);
      r := if full then Return else Continue;
    }
  }

  /** The loop of deflate_slow: compress as much as possible; stopped early, the result is NeedMore. */
  method SlowLoop(s: Deflater, flush: int) returns (early: bool)
    requires s.level >= 4
    requires Ready(s) && s.blocks.out.pending == []
    modifies s.window, s.dict.head, s.dict.prev, s.dict`ins, s.dict`next, s.dict`insH, s`skipped, s`finds, s`done, s`cuts
    modifies s`strstart, s`lookahead, s`prevLength, s`prevMatch, s`matchLength, s`matchStart, s`matchAvailable, s`blockStart, s`dataEnd
    modifies s`base, s`nextIn, s`adler, s`input
    modifies s.blocks.dBuf, s.blocks.lBuf, s.blocks.st, s.blocks.st.heap, s.blocks.st.depth, s.blocks.st.blCount
    modifies s.blocks.l`maxCode, s.blocks.l.fc, s.blocks.l.dl, s.blocks.d`maxCode, s.blocks.d.fc, s.blocks.d.dl
    modifies s.blocks.bl`maxCode, s.blocks.bl.fc, s.blocks.bl.dl, s.blocks.out, s.blocks`lastEobLen, s.blocks`lastLit
    ensures Ready(s) && Grows(s.blocks.out) && Consumes(s) && Trails(s, flush)
    ensures early ==> s.blocks.out.availOut == 0 || (flush == Z_NO_FLUSH && s.nextIn == [])
    ensures !early ==> s.lookahead == 0 && s.nextIn == [] && flush != Z_NO_FLUSH && s.blocks.out.pending == []
    ensures FullOnly(old(s.cuts), s.cuts, s.blocks.litBufsize - 1)
  {
    hide Ready;
    var hashHead: Pos, r := NIL, Continue;
    while r.Continue?
      invariant Ready(s) && Grows(s.blocks.out) && Consumes(s) && Trails(s, flush)
      invariant r.Return? ==> s.blocks.out.availOut == 0 || (flush == Z_NO_FLUSH && s.nextIn == [])
      invariant r.Leave? ==> s.lookahead == 0 && s.nextIn == [] && flush != Z_NO_FLUSH
      invariant FullOnly(old(s.cuts), s.cuts, s.blocks.litBufsize - 1) && (!r.Return? ==> s.blocks.out.pending == [])
      decreases r.Continue?, s.lookahead + |s.nextIn|
    {
      r, hashHead := SlowRound(s, flush, hashHead);
    }
    early := r.Return?;
  }

  /** With enough lookahead the string at strstart lies well within the window. */
  lemma ReadyFits(s: Deflater)
    requires Ready(s) && s.lookahead >= MIN_LOOKAHEAD
    ensures s.strstart + MIN_LOOKAHEAD <= s.window.Length
  {
  }

  /** Fill the window between two steps. */
  method FillReady(s: Deflater)
    requires Ready(s) && s.lookahead < MIN_LOOKAHEAD
    modifies s.window, s.dict.head, s.dict.prev, s.dict`ins, s.dict`next, s.dict`insH
    modifies s`strstart, s`blockStart, s`matchStart, s`base, s`lookahead, s`nextIn, s`adler, s`input
    ensures Ready(s) && SamePlaces(s) && s.strstart + MIN_LOOKAHEAD <= s.window.Length
    ensures s.lookahead >= MIN_LOOKAHEAD || s.nextIn == []
  {
    hide BlockState.Valid, Held, Chains, Pow2, Adler32, Tallied, MatchHeld, Sending, Sent, TokensOf, Primed, Deflater.Parsed, AllHonest, Indexed;
    ghost var start := s.base + s.blockStart;
    Fill(s);
    assert s.input[..start] == old(s.input[..start]);
    ghost var more := s.input[|old(s.input)|..];
    assert s.input == old(s.input) + more;
    HonestMore(s.ParseMode(), old(s.input), more, s.skipped, s.skipped, s.finds, s.base + s.strstart, s.base + s.strstart);
  }

  /** Everything read is in finished blocks, the last one marked as final. */
  ghost predicate Finished(s: Deflater)
    reads s, s.window, s.dict, s.dict.head, s.dict.prev
    reads s.blocks, s.blocks.out, s.blocks.st, s.blocks.l.fc, s.blocks.d.fc, s.blocks.bl.fc, s.blocks.dBuf, s.blocks.lBuf
  {
    && s.Sliding() && s.blocks.Valid() && s.lookahead == 0 && s.base + s.strstart == |s.input| && AllSent(s, |s.input|)
    && s.blocks.lastLit == 0 && s.TalliedTo(|s.input|, false) && s.Recorded(|s.input|)
  }

  /** Nothing is left to tally, and the last block was flushed. */
  ghost predicate Flushed(s: Deflater)
    reads s
  {
    s.lookahead == 0 && s.nextIn == [] && s.blockStart == s.strstart && !s.matchAvailable
  }

  /** After the loop of deflate_slow: the literal held back, then the last block. */
  method SlowEnd(s: Deflater, eof: bool)
    requires Ready(s) && s.lookahead == 0 && s.nextIn == [] && s.blocks.out.pending == []
    modifies s`matchAvailable, s`blockStart, s`dataEnd, s`done, s`cuts
    modifies s.blocks.dBuf, s.blocks.lBuf, s.blocks.st, s.blocks.st.heap, s.blocks.st.depth, s.blocks.st.blCount
    modifies s.blocks.l`maxCode, s.blocks.l.fc, s.blocks.l.dl, s.blocks.d`maxCode, s.blocks.d.fc, s.blocks.d.dl
    modifies s.blocks.bl`maxCode, s.blocks.bl.fc, s.blocks.bl.dl, s.blocks.out, s.blocks`lastEobLen, s.blocks`lastLit
    ensures Grows(s.blocks.out) && Flushed(s) && s.blocks.lastLit == 0 && (s.blocks.out.pending == [] || s.blocks.out.availOut == 0)
    ensures if eof then Finished(s) else Ready(s)
    ensures |s.cuts| == |old(s.cuts)| + 1 && old(s.cuts) < s.cuts && s.cuts[|old(s.cuts)|].asked
  {
    hide Ready, Finished, Deflater.Windowed, Deflater.Parsed, BlockState.Valid, SentTo;
    TallyLast(s);
    BlockEnd(s, eof);
  }

  /** Flush the last block of all input offered. */
  method BlockEnd(s: Deflater, eof: bool)
    requires s.Windowed() && s.Parsed() && s.blocks.Valid() && SentTo(s, s.base + s.blockStart)
    requires s.lookahead == 0 && s.nextIn == [] && !s.matchAvailable && s.Recorded(s.base + s.strstart)
    requires s.blocks.out.pending == []
    modifies s`blockStart, s`dataEnd, s`done, s`cuts
    modifies s.blocks.st, s.blocks.st.heap, s.blocks.st.depth, s.blocks.st.blCount
    modifies s.blocks.l`maxCode, s.blocks.l.fc, s.blocks.l.dl, s.blocks.d`maxCode, s.blocks.d.fc, s.blocks.d.dl
    modifies s.blocks.bl`maxCode, s.blocks.bl.fc, s.blocks.bl.dl, s.blocks.out, s.blocks`lastEobLen, s.blocks`lastLit
    ensures Grows(s.blocks.out) && Flushed(s) && s.blocks.lastLit == 0 && (s.blocks.out.pending == [] || s.blocks.out.availOut == 0)
    ensures if eof then Finished(s) else Ready(s)
    ensures |s.cuts| == |old(s.cuts)| + 1 && old(s.cuts) < s.cuts && s.cuts[|old(s.cuts)|].asked
  {
    hide BlockState.Valid, Held, Chains, Pow2, Adler32, Tallied, MatchHeld, Sending, Sent, TokensOf, Primed, AllHonest, Indexed;
    SlidingIs(s);
    FlushBlockOnly(s, eof, true);
    ValidSizes(s.blocks);
  }

  /** Tally the literal held back, if any, at the end of the input. */
  method TallyLast(s: Deflater)
    requires Ready(s) && s.lookahead == 0
    modifies s`matchAvailable, s.blocks.dBuf, s.blocks.lBuf, s.blocks.l.fc, s.blocks`lastLit
    ensures s.Windowed() && s.Parsed() && s.blocks.Valid() && SentTo(s, s.base + s.blockStart) && !s.matchAvailable
    ensures s.Recorded(s.base + s.strstart)
  {
    hide BlockState.Valid, Held, Chains, Pow2, Adler32, Tallied, MatchHeld, Sending, TokensOf, Primed, AllHonest, Indexed;
    SlidingIs(s);
    ShortHeld(s.input, s.base + s.matchStart, s.base + s.strstart, s.matchLength, s.matchAvailable, s.wBits, s.ParseLog());
    if s.matchAvailable {
      var _ := TallyHeld(s);
      s.matchAvailable := false;
    }
    NoMatchHeld(s.input, s.base + s.matchStart, s.base + s.strstart, s.matchLength, s.wBits, s.finds);
    ValidSizes(s.blocks);
  }

  /** What a step of lazy matching starts from. */
  lemma ReadyHeld(s: Deflater)
    requires Ready(s) && s.level >= 4
    ensures s.Windowed() && s.blocks.Valid() && s.blocks.lastLit < s.blocks.litBufsize - 1 && SentTo(s, s.base + s.blockStart)
    ensures s.Recorded(s.base + s.strstart) && s.TalliedTo(s.base + s.strstart, s.matchAvailable)
    ensures MatchHeld(s.input, s.base + s.matchStart, s.base + s.strstart, s.matchLength, s.matchAvailable, s.wBits, s.finds)
    ensures (s.matchAvailable ==> s.strstart >= 1) && 1 <= s.matchLength <= MAX_MATCH
  {
    hide BlockState.Valid, Deflater.Windowed, Deflater.Recorded, Deflater.TalliedTo, SentTo, MatchHeld;
  }

  lemma ReadyLevel(s: Deflater)
    requires Ready(s)
    ensures 1 <= s.level <= 9
  {
    hide BlockState.Valid, Deflater.Windowed, Deflater.Parsed, SentTo, AllHonest;
  }

  lemma ReadyParts(s: Deflater)
    requires Ready(s)
    ensures s.Windowed() && s.Parsed() && s.blocks.Valid() && SentTo(s, s.base + s.blockStart) && s.Recorded(s.base + s.strstart)
    ensures s.level <= 3 ==> !s.matchAvailable
  {
    hide BlockState.Valid, Deflater.Windowed, SentTo, Tallied, MatchHeld, TokensOf;
  }

  lemma ShortHeld(input: seq<byte>, from: int, pos: int, len: nat, available: bool, wBits: nat, log: Log)
    requires MatchHeld(input, from, pos, len, available, wBits, log.finds) && pos == |input|
    ensures len < MIN_MATCH && (pos - 1 in log.finds ==> Noted(log.finds, pos - 1, len, from))
    ensures available ==> LiteralDue(log, pos)
  {
  }

  /** How a compression function leaves the state. */
  ghost predicate Leaves(s: Deflater, flush: int, r: BlockResult)
    reads s, s.window, s.dict, s.dict.head, s.dict.prev
    reads s.blocks, s.blocks.out, s.blocks.st, s.blocks.l.fc, s.blocks.d.fc, s.blocks.bl.fc, s.blocks.dBuf, s.blocks.lBuf
  {
    match r
    case NeedMore => Ready(s) && (s.blocks.out.availOut == 0 || (flush == Z_NO_FLUSH && s.nextIn == []))
    case BlockDone =>
      && Ready(s) && Flushed(s) && s.blocks.lastLit == 0 && s.blocks.out.availOut > 0 && s.blocks.out.pending == []
      && flush != Z_NO_FLUSH && flush != Z_FINISH
    case FinishStarted => Finished(s) && Flushed(s) && s.blocks.out.availOut == 0 && flush == Z_FINISH
    case FinishDone =>
      Finished(s) && Flushed(s) && s.blocks.out.availOut > 0 && s.blocks.out.pending == [] && flush == Z_FINISH
  }

  /** A block is flushed only when the token buffer is full, and once more when a flush is asked for and all
      input is read; that is so unless the result is NeedMore. */
  twostate predicate Cuts(s: Deflater, flush: int, more: bool)
    reads s
  {
    && (FullOnly(old(s.cuts), s.cuts, s.blocks.litBufsize - 1) ||
        (flush != Z_NO_FLUSH && s.nextIn == [] && CutNow(old(s.cuts), s.cuts, s.blocks.litBufsize - 1)))
    && (!more ==> CutNow(old(s.cuts), s.cuts, s.blocks.litBufsize - 1))
  }

  /** deflate_slow. */
  method Slow(s: Deflater, flush: int) returns (r: BlockResult)
    requires s.level >= 4
    requires Ready(s) && s.blocks.out.pending == []
    modifies s.window, s.dict.head, s.dict.prev, s.dict`ins, s.dict`next, s.dict`insH, s`skipped, s`finds, s`done, s`cuts
    modifies s`strstart, s`lookahead, s`prevLength, s`prevMatch, s`matchLength, s`matchStart, s`matchAvailable, s`blockStart, s`dataEnd
    modifies s`base, s`nextIn, s`adler, s`input
    modifies s.blocks.dBuf, s.blocks.lBuf, s.blocks.st, s.blocks.st.heap, s.blocks.st.depth, s.blocks.st.blCount
    modifies s.blocks.l`maxCode, s.blocks.l.fc, s.blocks.l.dl, s.blocks.d`maxCode, s.blocks.d.fc, s.blocks.d.dl
    modifies s.blocks.bl`maxCode, s.blocks.bl.fc, s.blocks.bl.dl, s.blocks.out, s.blocks`lastEobLen, s.blocks`lastLit
    ensures Grows(s.blocks.out) && Consumes(s) && Leaves(s, flush, r) && Trails(s, flush) && Cuts(s, flush, r.NeedMore?)
  {
    hide Ready, Finished, Flushed;
    var early := SlowLoop(s, flush);
    if early {
      return NeedMore;
    }
    ghost var cuts := s.cuts;
    SlowEnd(s, flush == Z_FINISH);
    assert s.cuts[..|s.cuts| - 1] == cuts;
    if s.blocks.out.availOut == 0 {
      return if flush == Z_FINISH then FinishStarted else NeedMore;
    }
    r := if flush == Z_FINISH then FinishDone else BlockDone;
  }
}
