/** deflate(): the resumable stream. */
module Stream {
  import opened Sums
  import opened Bits
  import opened HuffmanCode
  import opened Inflate
  import opened StaticTables
  import opened BitWriter
  import opened BlockFormat
  import opened Blocks
  import FlushBlock
  import Checksum
  import FillWindow
  import opened HashChains
  import opened Lz77
  import opened Deflate
  import opened DeflateSlow
  import DeflateFast
  import opened ZlibStream
  import opened Resume
  import opened LazyParse

  /** The trailer has been written behind the complete data. */
  ghost predicate Trailed(s: Deflater)
    reads s, s.blocks.out
  {
    && Sent(s.blocks.out.sent, s.header, s.dataEnd, Pow2(s.wBits), s.input)
    && |s.blocks.out.sent| == s.dataEnd + Padding(s.dataEnd) + 32
    && Adler32(s.All()) < 0x1_0000_0000
    && s.blocks.out.sent[s.dataEnd + Padding(s.dataEnd)..] == BytesBits(Msb4(Adler32(s.All())))
    && s.blocks.out.biValid == 0 && s.blocks.out.Valid()
  }

  /** Before the header. */
  ghost predicate Fresh(s: Deflater)
    reads s, s.blocks.out
  {
    !s.raw && s.noheader == 0 && s.blocks.out.sent == [] && s.blocks.out.biValid == 0 && s.header == 0 && s.base + s.blockStart == 0
    && s.input == [] && s.past == [] && s.marks == [Mark(16, 0)]
  }

  /** The header is out, unless suppressed, and from every mark on the data before the current input decodes. */
  ghost predicate Headed(s: Deflater)
    reads s, s.blocks.out
  {
    && 1 <= s.level <= 9 && (!s.raw ==> HeadSent(s.blocks.out.sent, s.wBits, s.level))
    && s.marks != [] && s.marks[0] == Mark(if s.raw then 0 else 16, 0)
    && s.header % 8 == 0 && Resumable(s.marks, s.blocks.out.sent, s.header, s.past, Pow2(s.wBits))
  }

  lemma HeadedGrows(s: Deflater, sent: seq<bool>, sent': seq<bool>)
    requires 1 <= s.level <= 9 && (!s.raw ==> HeadSent(sent, s.wBits, s.level)) && sent <= sent' && s.marks != []
    requires Resumable(s.marks, sent, s.header, s.past, Pow2(s.wBits))
    ensures !s.raw ==> HeadSent(sent', s.wBits, s.level)
    ensures Resumable(s.marks, sent', s.header, s.past, Pow2(s.wBits))
  {
    hide HeadSent, Open, Pow2;
    if !s.raw {
      HeadGrows(sent, sent', s.wBits, s.level);
    }
    assert Resumes(s.marks[0], sent, s.header, s.past, Pow2(s.wBits));
    ResumeGrows(s.marks, sent, sent', s.header, s.past, Pow2(s.wBits));
  }

  /** Busy, or finished but for the trailer. */
  ghost predicate Wrapped(s: Deflater)
    reads s, s.blocks.out
  {
    Headed(s) && s.noheader == if s.raw then 1 else 0
  }

  /** Finished, trailer included. */
  ghost predicate Ended(s: Deflater)
    reads s, s.blocks.out
  {
    s.lookahead == 0 && !s.raw && s.noheader == -1 && Trailed(s) && Headed(s)
  }

  /** The stream between two calls. */
  ghost predicate Valid(s: Deflater)
    reads s, s.window, s.dict, s.dict.head, s.dict.prev
    reads s.blocks, s.blocks.out, s.blocks.st, s.blocks.l.fc, s.blocks.d.fc, s.blocks.bl.fc, s.blocks.dBuf, s.blocks.lBuf
  {
    if s.status == INIT_STATE then Ready(s) && Fresh(s)
    else if s.status == BUSY_STATE then Ready(s) && Wrapped(s)
    else s.status == FINISH_STATE && ((Finished(s) && Wrapped(s)) || Ended(s))
  }

  lemma AdlerBound(data: seq<byte>)
    ensures Adler32(data) < 0x1_0000_0000
  {
    Checksum.AdlerReduced((1, 0), data);
  }

  /** putShortMSB. */
  method PutShortMSB(s: BlockState, b: nat)
    requires s.Valid() && s.out.biValid == 0 && b < 0x1_0000
    modifies s.out`pending, s.out`sent
    ensures s.Valid() && s.out.sent == old(s.out.sent) + BytesBits(Msb2(b)) && |s.out.pending| == |old(s.out.pending)| + 2
  {
    hide Carries, BytesBits, ValueBits, Counting, LengthTablesOk, DistTablesOk, Sends, TokensOf;
    ghost var sent0 := s.out.sent;
    s.out.PutByte(b / 256);
    s.out.PutByte(b % 256);
    Msb2Bits(sent0, b);
  }

  lemma Msb2Bits(sent: seq<bool>, b: nat)
    requires b < 0x1_0000
    ensures sent + ValueBits(b / 256, 8) + ValueBits(b % 256, 8) == sent + BytesBits(Msb2(b))
  {
    hide ValueBits;
    var hi: byte, lo: byte := b / 256, b % 256;
    AppendByte([], hi);
    AppendByte([hi], lo);
    assert [] + [hi] == [hi] && [hi] + [lo] == Msb2(b);
    assert BytesBits([]) == [];
    ConcatAssoc(sent, ValueBits(hi, 8), ValueBits(lo, 8));
  }

  /** Write the zlib header. */
  method WriteHeader(s: Deflater)
    requires Valid(s) && s.status == INIT_STATE
    modifies s`status, s`adler, s`header, s.blocks.out`pending, s.blocks.out`sent
    ensures Valid(s) && s.status == BUSY_STATE && s.blocks.out.delivered == old(s.blocks.out.delivered) && s.blocks.out.pending != []
  {
    hide BlockState.Valid, Held, Chains, Pow2, Adler32, Tallied, MatchHeld, Sending, Open, TokensOf, Primed, HeaderValue, BytesBits, Finished,
         Ended, Announces, ZlibHeaderOk;
    HeaderValueOk(s.wBits, s.level);
    s.status := BUSY_STATE;
    PutShortMSB(s.blocks, HeaderValue(s.wBits, s.level));
    s.adler := 1;
    s.header := 16;
    StartSending(s.blocks.out.sent, HeaderValue(s.wBits, s.level), s.wBits, s.level, s.input);
    AdlerEmpty();
    assert s.past + s.input == [];
    ValidSizes(s.blocks);
  }

  lemma StartSending(sent: seq<bool>, h: nat, wBits: nat, level: nat, input: seq<byte>)
    requires 1 <= level <= 9
    requires h < 0x1_0000 && sent == [] + BytesBits(Msb2(h)) && Announces(h, wBits) && h % 256 / 64 == Flevel(level)
    ensures HeadSent(sent, wBits, level) && Sending(sent, 16, Pow2(wBits), input[..0])
    ensures Resumable([Mark(16, 0)], sent, 16, [], Pow2(wBits))
  {
    hide BytesBits, Open, Announces;
    assert sent[16..] == [] && sent[16..16] == [];
    OpenStart(Pow2(wBits));
    assert input[..0] == [];
  }

  // ---------- After a flushed block ----------

  lemma SendingAlign(sent: seq<bool>, header: nat, wsize: nat, text: seq<byte>)
    requires Sending(sent, header, wsize, text)
    ensures Sending(sent + AlignBits(), header, wsize, text)
  {
    hide Encodes, AlignBits, Open, Sent;
    AlignBlock(wsize, |sent| - header, text);
    SendingBlock(sent, header, wsize, text, AlignBits(), false, text, []);
    assert sent + AlignBits() + [] == sent + AlignBits();
  }

  lemma SendingEmpty(sent: seq<bool>, header: nat, wsize: nat, text: seq<byte>)
    requires Sending(sent, header, wsize, text)
    ensures Sending(sent + StoredBits(Padding(|sent| + 3), [], false), header, wsize, text)
  {
    hide Encodes, StoredBits, Open, Padding, Sent;
    FlushBlock.SamePadding(|sent|, |sent| - header);
    StoredBlock([], false, wsize, |sent| - header, text);
    assert text + [] == text;
    var block := StoredBits(Padding(|sent| + 3), [], false);
    SendingBlock(sent, header, wsize, text, block, false, text, []);
    assert sent + block + [] == sent + block;
  }

  /** Empty blocks behind a flushed block: static ones for a partial flush, else a stored one. */
  method SendMarker(s: BlockState, window: array<byte>, partial: bool, ghost header: nat, ghost wsize: nat, ghost text: seq<byte>)
    requires s.Valid() && Sending(s.out.sent, header, wsize, text)
    modifies s.out`biBuf, s.out`biValid, s.out`pending, s.out`sent, s`lastEobLen
    ensures s.Valid() && Sending(s.out.sent, header, wsize, text) && old(s.out.sent) <= s.out.sent
    ensures if partial then |s.out.sent| - s.out.biValid >= |old(s.out.sent)| else s.out.biValid == 0
    ensures partial ==> 1 + old(s.lastEobLen) + |s.out.sent| - s.out.biValid - |old(s.out.sent)| >= 9
  {
    hide BlockState.Valid, Sending;
    if partial {
      SendAlign(s, header, wsize, text);
    } else {
      SendEmptyStored(s, window, header, wsize, text);
    }
  }

  method SendEmptyStored(s: BlockState, window: array<byte>, ghost header: nat, ghost wsize: nat, ghost text: seq<byte>)
    requires s.Valid() && Sending(s.out.sent, header, wsize, text)
    modifies s.out`biBuf, s.out`biValid, s.out`pending, s.out`sent, s`lastEobLen
    ensures s.Valid() && Sending(s.out.sent, header, wsize, text) && old(s.out.sent) <= s.out.sent && s.out.biValid == 0
  {
    hide Carries, Counting, LengthTablesOk, DistTablesOk, Sends, TokensOf, Sending, StoredBits, Padding;
    ghost var sent0 := s.out.sent;
    FlushBlock.StoreBlock(s, window, 0, 0, false);
    assert window[0..0 + 0] == [];
    SendingEmpty(sent0, header, wsize, text);
  }

  method SendAlign(s: BlockState, ghost header: nat, ghost wsize: nat, ghost text: seq<byte>)
    requires s.Valid() && Sending(s.out.sent, header, wsize, text)
    modifies s.out`biBuf, s.out`biValid, s.out`pending, s.out`sent, s`lastEobLen
    ensures s.Valid() && Sending(s.out.sent, header, wsize, text) && old(s.out.sent) <= s.out.sent
    ensures |s.out.sent| - s.out.biValid >= |old(s.out.sent)|
    ensures 1 + old(s.lastEobLen) + |s.out.sent| - s.out.biValid - |old(s.out.sent)| >= 9
  {
    hide Carries, Counting, LengthTablesOk, DistTablesOk, Sends, TokensOf, Sending, AlignBits;
    AlignLength();
    ghost var sent0 := s.out.sent;
    ghost var twice := FlushBlock.Align(s);
    SendingAlign(sent0, header, wsize, text);
    if twice {
      SendingAlign(sent0 + AlignBits(), header, wsize, text);
    } else {
      assert sent0 + AlignBits() + [] == sent0 + AlignBits();
    }
  }

  /** Forget history: clear the hash table. The data that follows decodes on its own. */
  method ClearHistory(s: Deflater)
    requires Ready(s) && Headed(s) && Flushed(s) && s.blocks.lastLit == 0 && s.blocks.out.biValid == 0
    modifies s.dict.head, s.dict`ins, s`input, s`past, s`base, s`header, s`marks, s`finds, s`done, s`skipped
    ensures Ready(s) && Headed(s) && Flushed(s) && s.All() == old(s.All())
    ensures s.skipped == {} && s.input == [] && s.header == |s.blocks.out.sent| && s.marks == old(s.marks) + [Mark(s.header, |s.All()|)]
  {
    hide BlockState.Valid, Dictionary.Valid, Pow2, Adler32, Ready, Headed, HeadSent, Resumable;
    ghost var sent, all := s.blocks.out.sent, s.All();
    ClearMarks(s);
    FlushedParts(s);
    HeadedParts(s);
    s.dict.Clear(s.window[..], s.strstart + s.lookahead);
    StartAnew(s, sent, all);
  }

  ghost method SetAnew(s: Deflater, n: nat, all: seq<byte>)
    modifies s`input, s`past, s`base, s`header, s`marks, s`finds, s`done, s`skipped
    ensures s.input == [] && s.past == all && s.base == 0 - s.strstart && s.header == n && s.marks == old(s.marks) + [Mark(n, |all|)]
    ensures s.finds == map[] && s.done == [] && s.skipped == {}
  {
    s.marks, s.header, s.past, s.input, s.base, s.finds, s.done, s.skipped :=
      s.marks + [Mark(n, |all|)], n, all, [], 0 - s.strstart, map[], [], {};
  }

  /** The record starts anew. */
  ghost method StartAnew(s: Deflater, sent: seq<bool>, all: seq<byte>)
    requires s.Fixed() && s.strstart + 4 <= s.window.Length && s.dict.Valid(s.window[..], s.strstart + s.lookahead)
    requires s.noheader == 0 ==> s.adler == Adler32(all)
    requires s.dict.next <= s.strstart && s.dict.ins == {} && s.blocks.Valid() && s.blocks.lastLit == 0
    requires Flushed(s) && s.matchLength < MIN_MATCH && sent == s.blocks.out.sent
    requires if s.level <= 3 then s.prevLength == MIN_MATCH - 1 else 1 <= s.matchLength
    requires (!s.raw ==> HeadSent(sent, s.wBits, s.level)) && s.marks != [] && s.marks[0] == Mark(if s.raw then 0 else 16, 0)
    requires |sent| % 8 == 0 && Resumable(s.marks + [Mark(|sent|, |all|)], sent, |sent|, all, Pow2(s.wBits))
    modifies s`input, s`past, s`base, s`header, s`marks, s`finds, s`done, s`skipped
    ensures Ready(s) && Headed(s) && Flushed(s) && s.All() == all
    ensures s.skipped == {} && s.input == [] && s.header == |sent| && s.marks == old(s.marks) + [Mark(|sent|, |all|)]
  {
    hide BlockState.Valid, Dictionary.Valid, Pow2, Adler32, Ready, Headed, HeadSent, Resumable;
    assert all + [] == all;
    SetAnew(s, |sent|, all);
    Restarted(s);
    HeadedFrom(s);
  }

  lemma HeadedParts(s: Deflater)
    requires Headed(s)
    ensures 1 <= s.level <= 9 && (!s.raw ==> HeadSent(s.blocks.out.sent, s.wBits, s.level))
    ensures s.marks != [] && s.marks[0] == Mark(if s.raw then 0 else 16, 0)
  {
    hide HeadSent, Resumable, Pow2;
  }

  lemma HeadedFrom(s: Deflater)
    requires 1 <= s.level <= 9 && (!s.raw ==> HeadSent(s.blocks.out.sent, s.wBits, s.level))
    requires s.marks != [] && s.marks[0] == Mark(if s.raw then 0 else 16, 0)
    requires s.header % 8 == 0 && Resumable(s.marks, s.blocks.out.sent, s.header, s.past, Pow2(s.wBits))
    ensures Headed(s)
  {
  }

  /** Everything read is in the blocks sent. */
  lemma ClearMarks(s: Deflater)
    requires Ready(s) && Headed(s) && Flushed(s) && s.blocks.out.biValid == 0
    ensures |s.blocks.out.sent| % 8 == 0
    ensures Resumable(s.marks + [Mark(|s.blocks.out.sent|, |s.All()|)], s.blocks.out.sent, |s.blocks.out.sent|, s.All(), Pow2(s.wBits))
  {
    hide BlockState.Valid, Held, Chains, Pow2, Adler32, Tallied, MatchHeld, TokensOf, Primed, Deflater.Parsed, Open, HeadSent, Indexed,
         AllHonest, Resumable;
    ghost var sent := s.blocks.out.sent;
    SentAll(s);
    FlushBlock.SentLength(s.blocks.out);
    assert sent[s.header..|sent|] == sent[s.header..];
    ResumeJoin(s.marks, sent, s.header, s.past, Pow2(s.wBits), |sent|, s.input);
    ResumeMark(s.marks, sent, s.All(), Pow2(s.wBits));
  }

  lemma SentAll(s: Deflater)
    requires Ready(s) && Flushed(s)
    ensures s.base + s.blockStart == |s.input| && s.input[..s.base + s.blockStart] == s.input
    ensures Sending(s.blocks.out.sent, s.header, Pow2(s.wBits), s.input) && s.blocks.out.Valid()
  {
    hide BlockState.Valid, Held, Chains, Pow2, Adler32, Tallied, MatchHeld, Sending, TokensOf, Primed, Deflater.Parsed, Indexed, AllHonest;
    ValidSizes(s.blocks);
    FillWindow.HeldLength(s.window[..], s.input, s.base, s.strstart + s.lookahead);
  }

  lemma FlushedParts(s: Deflater)
    requires Ready(s) && Flushed(s)
    ensures s.Fixed() && s.strstart + 4 <= s.window.Length && s.dict.Valid(s.window[..], s.strstart + s.lookahead)
    ensures s.noheader == 0 ==> s.adler == Adler32(s.All())
    ensures s.dict.next <= s.strstart && s.blocks.Valid() && s.matchLength < MIN_MATCH
    ensures if s.level <= 3 then s.prevLength == MIN_MATCH - 1 else 1 <= s.matchLength
  {
    hide BlockState.Valid, Held, Chains, Pow2, Adler32, Tallied, TokensOf, Primed, Indexed, AllHonest, SentTo, MatchIn;
  }

  /** The input starts anew. */
  lemma Restarted(s: Deflater)
    requires s.Fixed() && s.strstart + 4 <= s.window.Length && s.lookahead == 0 && s.dict.Valid(s.window[..], s.strstart + s.lookahead)
    requires s.noheader == 0 ==> s.adler == Adler32(s.past + s.input)
    requires s.dict.next <= s.strstart && s.dict.ins == {} && s.blocks.Valid() && s.blocks.lastLit == 0
    requires s.input == [] && s.base == 0 - s.strstart && s.finds == map[] && s.done == [] && s.skipped == {}
    requires !s.matchAvailable && s.matchLength < MIN_MATCH && s.blockStart == s.strstart
    requires if s.level <= 3 then s.prevLength == MIN_MATCH - 1 else 1 <= s.matchLength
    requires s.header == |s.blocks.out.sent| && s.header % 8 == 0
    ensures Ready(s)
  {
    hide BlockState.Valid, Chains, Pow2, Adler32, Tallied, TokensOf, Primed, Open, AllHonest, Configuration, ParsedTo;
    ValidSizes(s.blocks);
    assert s.blocks.Tokens() == [];
    TalliedNone([], Pow2(s.wBits), s.ParseLog());
    OpenStart(Pow2(s.wBits));
    assert s.input[..0] == [] && s.blocks.out.sent[s.header..] == [];
    NoFinds(s.ParseMode(), [], {}, 0);
  }

  /** Send the marker behind the last block. */
  method SendMark(s: Deflater, partial: bool)
    requires Ready(s) && Headed(s)
    modifies s.blocks.out`biBuf, s.blocks.out`biValid, s.blocks.out`pending, s.blocks.out`sent, s.blocks`lastEobLen
    ensures Ready(s) && Headed(s) && Grows(s.blocks.out)
    ensures if partial then |s.blocks.out.sent| - s.blocks.out.biValid >= |old(s.blocks.out.sent)| else s.blocks.out.biValid == 0
  {
    hide BlockState.Valid, Held, Chains, Pow2, Adler32, Tallied, MatchHeld, Sending, TokensOf, Primed, HeadSent, Deflater.Windowed, AllHonest,
         Resumable;
    ValidSizes(s.blocks);
    ghost var sent0 := s.blocks.out.sent;
    SendMarker(s.blocks, s.window, partial, s.header, Pow2(s.wBits), s.input[..s.base + s.blockStart]);
    HeadedGrows(s, sent0, s.blocks.out.sent);
  }

  /** flush_pending between two steps. */
  method FlushReady(s: Deflater)
    requires Ready(s)
    modifies s.blocks.out`pending, s.blocks.out`delivered, s.blocks.out`availOut
    ensures Ready(s) && Delivers(s.blocks.out)
    ensures s.blocks.out.pending == [] || s.blocks.out.availOut == 0
    ensures s.blocks.out.availOut > 0 <==> |old(s.blocks.out.pending)| < old(s.blocks.out.availOut)
  {
    hide BlockState.Valid, Held, Chains, Pow2, Adler32, Tallied, MatchHeld, Sending, TokensOf, Primed, Deflater.Windowed, Deflater.Parsed,
         AllHonest;
    FlushOut(s.blocks);
  }

  /** All input offered is read, and with the first n bits delivered a decoder started at any mark has the
      text from there on. */
  ghost predicate SyncedAt(s: Deflater, n: nat)
    reads s, s.blocks.out
  {
    && s.nextIn == [] && s.blocks.out.pending == [] && n <= 8 * |s.blocks.out.delivered|
    && Resumable(s.marks, BytesBits(s.blocks.out.delivered), n, s.All(), Pow2(s.wBits))
  }

  /** The bytes delivered so far are all there are, and decode, as far as they go, to all the input. */
  ghost predicate Synced(s: Deflater)
    reads s, s.blocks.out
  {
    SyncedAt(s, 8 * |s.blocks.out.delivered|)
  }

  /** All the data of the last block is delivered. */
  ghost predicate PartlySynced(s: Deflater)
    reads s, s.blocks.out
  {
    exists n: nat :: SyncedAt(s, n)
  }

  /** Right after a full flush: the data that follows decodes on its own. */
  ghost predicate Restarts(s: Deflater)
    reads s, s.blocks.out
  {
    s.input == [] && s.marks != [] && s.marks[|s.marks| - 1] == Mark(8 * |s.blocks.out.delivered|, |s.All()|)
  }

  lemma DeliveredPart(out: Output, n: nat)
    requires out.Valid() && out.pending == [] && n <= |out.sent| - out.biValid
    ensures n <= 8 * |out.delivered| == |BytesBits(out.delivered)| && BytesBits(out.delivered)[..n] == out.sent[..n]
  {
    hide BytesBits;
    FlushBlock.SentLength(out);
    assert out.delivered + [] == out.delivered;
  }

  /** With nothing pending and the first n bits sent delivered, those that make up the blocks. */
  lemma SyncedAfter(s: Deflater, sent: seq<bool>)
    requires Headed(s) && s.nextIn == [] && s.blocks.out.pending == [] && s.blocks.out.Valid()
    requires sent <= s.blocks.out.sent && |sent| <= |s.blocks.out.sent| - s.blocks.out.biValid
    requires Sending(sent, s.header, Pow2(s.wBits), s.input)
    ensures SyncedAt(s, |sent|)
  {
    hide Pow2, Open, HeadSent, BytesBits, Carries, Resumable;
    var out := s.blocks.out;
    DeliveredPart(out, |sent|);
    assert out.sent[s.header..|sent|] == sent[s.header..];
    ResumeJoin(s.marks, out.sent, s.header, s.past, Pow2(s.wBits), |sent|, s.input);
    ResumeGrows(s.marks, out.sent, BytesBits(out.delivered), |sent|, s.All(), Pow2(s.wBits));
  }

  /** The marker behind a block flushed on request, and a new start after a full flush; sent are the bits
      that nothing pending would leave delivered. */
  method MarkBlock(s: Deflater, flush: int) returns (ghost sent: seq<bool>)
    requires Ready(s) && Headed(s) && Flushed(s) && s.blocks.lastLit == 0
    modifies s.blocks.out`biBuf, s.blocks.out`biValid, s.blocks.out`pending, s.blocks.out`sent, s.blocks`lastEobLen
    modifies s.dict.head, s.dict`ins, s`input, s`past, s`base, s`header, s`marks, s`finds, s`done, s`skipped
    ensures Ready(s) && Headed(s) && Flushed(s) && s.All() == old(s.All())
    ensures if flush == Z_FULL_FLUSH then
              s.skipped == {} && s.input == [] && s.marks == old(s.marks) + [Mark(|s.blocks.out.sent|, |s.All()|)]
            else
              s.skipped == old(s.skipped) && s.finds == old(s.finds) && s.input == old(s.input) && s.marks == old(s.marks)
    ensures sent <= s.blocks.out.sent && |sent| <= |s.blocks.out.sent| - s.blocks.out.biValid
    ensures Sending(sent, s.header, Pow2(s.wBits), s.input)
    ensures flush != Z_PARTIAL_FLUSH ==> sent == s.blocks.out.sent && s.blocks.out.biValid == 0
  {
    hide Ready, Headed, Sending, Pow2;
    SentAll(s);
    sent := s.blocks.out.sent;
    SendMark(s, flush == Z_PARTIAL_FLUSH);
    if flush != Z_PARTIAL_FLUSH {
      SentAll(s);
      sent := s.blocks.out.sent;
    }
    if flush == Z_FULL_FLUSH {
      ClearHistory(s);
      SentAll(s);
    }
  }

  /** What deflate does when a block was flushed on request. */
  method AfterBlock(s: Deflater, flush: int)
    requires Ready(s) && Headed(s) && Flushed(s) && s.blocks.lastLit == 0
    modifies s.blocks.out, s.blocks`lastEobLen, s.dict.head, s.dict`ins, s`input, s`past, s`base, s`header, s`marks, s`finds, s`done, s`skipped
    ensures Ready(s) && Headed(s) && Flushed(s) && Delivers(s.blocks.out) && s.All() == old(s.All())
    ensures s.blocks.out.pending == [] || s.blocks.out.availOut == 0
    ensures s.blocks.out.pending == [] ==> if flush == Z_PARTIAL_FLUSH then PartlySynced(s) else Synced(s)
    ensures if flush == Z_FULL_FLUSH then
              s.skipped == {} && old(s.marks) < s.marks && (s.blocks.out.pending == [] ==> Restarts(s))
            else
              s.skipped == old(s.skipped) && s.finds == old(s.finds) && s.input == old(s.input) && s.marks == old(s.marks)
  {
    hide Ready, HeadSent, Resumable, SyncedAt, Sending, Pow2;
    ghost var sent := MarkBlock(s, flush);
    FlushReady(s);
    if s.blocks.out.pending == [] {
      SentAll(s);
      FlushBlock.SentLength(s.blocks.out);
      assert s.blocks.out.delivered + [] == s.blocks.out.delivered;
      SyncedAfter(s, sent);
    }
  }

  // ---------- deflate ----------

  /** status and last_flush do not matter to the rest of the state. */
  method SetFinished(s: Deflater)
    requires Finished(s) && Wrapped(s)
    modifies s`status
    ensures Finished(s) && Wrapped(s) && s.status == FINISH_STATE
  {
    hide BlockState.Valid, Held, Chains, Pow2, Adler32, Sent, HeadSent, Padding, Resumable, AllHonest, Tallied, TokensOf;
    s.status := FINISH_STATE;
  }

  method SetLastFlush(s: Deflater, flush: int)
    requires Valid(s)
    modifies s`lastFlush
    ensures Valid(s) && s.lastFlush == flush
  {
    hide BlockState.Valid, Held, Chains, Pow2, Adler32, Tallied, MatchHeld, Sending, Sent, TokensOf, Primed, HeadSent, Padding, BytesBits;
    s.lastFlush := flush;
  }

  /** What is added to the record of searches and skipped strings, the input being n bytes; end says that it
      ends there for now and a flush is asked for. */
  ghost predicate Recording(level: nat, finds: map<int, Find>, finds': map<int, Find>, skipped: set<int>, skipped': set<int>, n: int, end: bool)
    requires 1 <= level <= 9
  {
    && Grown(finds, finds')
    && (if level <= 3 then DeflateFast.SkipsOnly(skipped, skipped', finds', Configuration(level).maxLazy, n, end)
        else if end then Late(skipped, skipped', n)
        else skipped' == skipped)
  }

  lemma RecordingNone(level: nat, finds: map<int, Find>, skipped: set<int>, n: int, end: bool)
    requires 1 <= level <= 9
    ensures Recording(level, finds, finds, skipped, skipped, n, end)
  {
  }

  /** What a call adds to the record. */
  twostate predicate Records(s: Deflater, flush: int)
    reads s
  {
    1 <= s.level <= 9 ==>
      Recording(s.level, old(s.finds), s.finds, old(s.skipped), s.skipped, |s.input|, flush != Z_NO_FLUSH && s.nextIn == [])
  }

  /** What a call leaves alone: the input, read or not, and the marks. */
  twostate predicate Takes(s: Deflater)
    reads s
  {
    && s.All() + s.nextIn == old(s.All() + s.nextIn) && old(s.All()) <= s.All() && old(s.marks) <= s.marks
  }

  /** What a call adds to the record, unless it starts a new one. */
  twostate predicate RecordsOrRestarts(s: Deflater, flush: int)
    reads s
  {
    if s.marks == old(s.marks) then Records(s, flush) else flush == Z_FULL_FLUSH && s.skipped == {}
  }

  lemma NothingRecorded(s: Deflater, flush: int)
    ensures 1 <= s.level <= 9 ==>
              Recording(s.level, s.finds, s.finds, s.skipped, s.skipped, |s.input|, flush != Z_NO_FLUSH && s.nextIn == [])
  {
    if 1 <= s.level <= 9 {
      RecordingNone(s.level, s.finds, s.skipped, |s.input|, flush != Z_NO_FLUSH && s.nextIn == []);
    }
  }

  twostate lemma TakesInput(s: Deflater)
    requires Consumes(s) && s.past == old(s.past) && s.marks == old(s.marks)
    ensures Takes(s)
  {
    assert s.past + s.input + s.nextIn == s.past + (s.input + s.nextIn);
    assert old(s.past + s.input + s.nextIn) == s.past + old(s.input + s.nextIn);
  }

  /** configuration_table names the compression function of each level. */
  method CompressionFunction(s: Deflater, flush: int) returns (r: BlockResult)
    requires Ready(s) && s.blocks.out.pending == []
    modifies s.window, s.dict.head, s.dict.prev, s.dict`ins, s.dict`next, s.dict`insH, s`skipped, s`finds, s`done, s`cuts
    modifies s`strstart, s`lookahead, s`prevLength, s`prevMatch, s`matchLength, s`matchStart, s`matchAvailable, s`blockStart, s`dataEnd
    modifies s`base, s`nextIn, s`adler, s`input
    modifies s.blocks.dBuf, s.blocks.lBuf, s.blocks.st, s.blocks.st.heap, s.blocks.st.depth, s.blocks.st.blCount
    modifies s.blocks.l`maxCode, s.blocks.l.fc, s.blocks.l.dl, s.blocks.d`maxCode, s.blocks.d.fc, s.blocks.d.dl
    modifies s.blocks.bl`maxCode, s.blocks.bl.fc, s.blocks.bl.dl, s.blocks.out, s.blocks`lastEobLen, s.blocks`lastLit
    ensures Grows(s.blocks.out) && Consumes(s) && Leaves(s, flush, r) && Records(s, flush) && Cuts(s, flush, r.NeedMore?)
  {
    hide Ready, Leaves;
    LevelInRange(s);
    if s.level <= 3 {
      r := DeflateFast.Fast(s, flush);
    } else {
      r := Slow(s, flush);
    }
  }

  method CompressionHeaded(s: Deflater, flush: int) returns (r: BlockResult)
    requires Ready(s) && Headed(s) && s.blocks.out.pending == []
    modifies s.window, s.dict.head, s.dict.prev, s.dict`ins, s.dict`next, s.dict`insH, s`skipped, s`finds, s`done, s`cuts
    modifies s`strstart, s`lookahead, s`prevLength, s`prevMatch, s`matchLength, s`matchStart, s`matchAvailable, s`blockStart, s`dataEnd
    modifies s`base, s`nextIn, s`adler, s`input
    modifies s.blocks.dBuf, s.blocks.lBuf, s.blocks.st, s.blocks.st.heap, s.blocks.st.depth, s.blocks.st.blCount
    modifies s.blocks.l`maxCode, s.blocks.l.fc, s.blocks.l.dl, s.blocks.d`maxCode, s.blocks.d.fc, s.blocks.d.dl
    modifies s.blocks.bl`maxCode, s.blocks.bl.fc, s.blocks.bl.dl, s.blocks.out, s.blocks`lastEobLen, s.blocks`lastLit
    ensures Headed(s) && Delivers(s.blocks.out) && Consumes(s) && Leaves(s, flush, r) && Records(s, flush) && Cuts(s, flush, r.NeedMore?)
  {
    hide Ready, HeadSent, Leaves, Delivers, Resumable, Recording;
    ghost var sent0 := s.blocks.out.sent;
    r := CompressionFunction(s, flush);
    HeadedGrows(s, sent0, s.blocks.out.sent);
  }

  lemma WrappedHeaded(s: Deflater)
    requires Wrapped(s)
    ensures Headed(s) && s.noheader == if s.raw then 1 else 0
  {
  }

  /** What deflate does with the result of the compression function. */
  method Settle(s: Deflater, flush: int, r: BlockResult) returns (stop: bool)
    requires s.status == BUSY_STATE && Headed(s) && s.noheader == (if s.raw then 1 else 0) && Leaves(s, flush, r)
    modifies s.blocks.out, s.blocks`lastEobLen, s.dict.head, s.dict`ins, s`input, s`past, s`base, s`header, s`marks, s`finds, s`done, s`skipped
    modifies s`status
    ensures Valid(s) && s.All() == old(s.All()) && Delivers(s.blocks.out)
    ensures if s.marks == old(s.marks) then s.finds == old(s.finds) && s.skipped == old(s.skipped) && s.input == old(s.input)
      else flush == Z_FULL_FLUSH && s.skipped == {} && old(s.marks) < s.marks
    ensures s.status == BUSY_STATE || (s.status == FINISH_STATE && Finished(s) && Wrapped(s) && s.nextIn == [])
    ensures !stop ==> s.blocks.out.pending == [] && s.blocks.out.availOut > 0
    ensures !stop ==> (flush == Z_FINISH <==> s.status == FINISH_STATE)
    ensures s.status == FINISH_STATE ==> flush == Z_FINISH
    ensures stop ==> s.blocks.out.availOut == 0 || (flush == Z_NO_FLUSH && s.nextIn == [])
    ensures !stop ==> s.nextIn == [] && !r.NeedMore?
    ensures !stop && (flush == Z_SYNC_FLUSH || flush == Z_FULL_FLUSH) ==> Synced(s)
    ensures !stop && flush == Z_FULL_FLUSH ==> Restarts(s)
    ensures !stop && flush == Z_PARTIAL_FLUSH ==> PartlySynced(s)
  {
    hide Ready, Finished, Headed, SyncedAt, Restarts, PartlySynced;
    if r.FinishStarted? || r.FinishDone? {
      SetFinished(s);
    } else if r.BlockDone? {
      AfterBlock(s, flush);
    }
    stop := r.NeedMore? || r.FinishStarted? || (r.BlockDone? && s.blocks.out.availOut == 0);
  }

  /** Start a new block or continue the current one; stop says that the call returns Z_OK. */
  method Compress(s: Deflater, flush: int) returns (stop: bool)
    requires s.status == BUSY_STATE && Ready(s) && Wrapped(s) && s.blocks.out.pending == []
    modifies s.window, s.dict.head, s.dict.prev, s.dict`ins, s.dict`next, s.dict`insH, s`skipped, s`finds, s`done, s`cuts
    modifies s`strstart, s`lookahead, s`prevLength, s`prevMatch, s`matchLength, s`matchStart, s`matchAvailable, s`blockStart, s`dataEnd
    modifies s`base, s`nextIn, s`adler, s`input, s`status, s`past, s`header, s`marks
    modifies s.blocks.dBuf, s.blocks.lBuf, s.blocks.st, s.blocks.st.heap, s.blocks.st.depth, s.blocks.st.blCount
    modifies s.blocks.l`maxCode, s.blocks.l.fc, s.blocks.l.dl, s.blocks.d`maxCode, s.blocks.d.fc, s.blocks.d.dl
    modifies s.blocks.bl`maxCode, s.blocks.bl.fc, s.blocks.bl.dl, s.blocks.out, s.blocks`lastEobLen, s.blocks`lastLit
    ensures Valid(s) && Takes(s) && Delivers(s.blocks.out) && RecordsOrRestarts(s, flush) && Cuts(s, flush, true)
    ensures s.status == BUSY_STATE || (s.status == FINISH_STATE && Finished(s) && Wrapped(s) && s.nextIn == [])
    ensures !stop ==> s.blocks.out.pending == [] && s.blocks.out.availOut > 0
    ensures !stop ==> (flush == Z_FINISH <==> s.status == FINISH_STATE)
    ensures s.status == FINISH_STATE ==> flush == Z_FINISH
    ensures stop ==> s.blocks.out.availOut == 0 || (flush == Z_NO_FLUSH && s.nextIn == [])
    ensures !stop ==> s.nextIn == [] && CutNow(old(s.cuts), s.cuts, s.blocks.litBufsize - 1)
    ensures !stop && (flush == Z_SYNC_FLUSH || flush == Z_FULL_FLUSH) ==> Synced(s)
    ensures !stop && flush == Z_FULL_FLUSH ==> Restarts(s)
    ensures !stop && flush == Z_PARTIAL_FLUSH ==> PartlySynced(s)
  {
    hide Ready, Finished, Wrapped, Headed, Valid, SyncedAt, Recording, Restarts, PartlySynced, FullOnly, CutNow, Leaves;
    WrappedHeaded(s);
    var r := CompressionHeaded(s, flush);
    TakesInput(s);
    stop := Settle(s, flush, r);
  }

  lemma LevelInRange(s: Deflater)
    requires Ready(s)
    ensures 1 <= s.level <= 9
  {
  }

  /** flush_pending between two steps or at the end. */
  method FlushValid(s: Deflater)
    requires Valid(s) && s.status != INIT_STATE
    modifies s.blocks.out`pending, s.blocks.out`delivered, s.blocks.out`availOut
    ensures Valid(s) && Delivers(s.blocks.out)
    ensures s.blocks.out.pending == [] || s.blocks.out.availOut == 0
    ensures s.blocks.out.availOut > 0 <==> |old(s.blocks.out.pending)| < old(s.blocks.out.availOut)
  {
    hide Ready, HeadSent, BlockState.Valid, Sent, Adler32, Padding, BytesBits, Deflater.Sliding, Carries;
    if s.status == BUSY_STATE {
      FlushReady(s);
    } else if s.noheader != -1 {
      FlushOut(s.blocks);
    } else {
      s.blocks.out.FlushPending();
    }
  }

  /** Write the trailer, once only. */
  method WriteTrailer(s: Deflater)
    requires s.status == FINISH_STATE && Finished(s) && Wrapped(s) && !s.raw
    modifies s.blocks.out`pending, s.blocks.out`delivered, s.blocks.out`availOut, s.blocks.out`sent, s`noheader
    ensures Valid(s) && Ended(s) && Delivers(s.blocks.out)
    ensures s.blocks.out.pending == [] || s.blocks.out.availOut == 0
  {
    hide BlockState.Valid, Held, Chains, Pow2, Adler32, HeadSent, Padding, BytesBits, Msb2, Closed, Carries, Resumable, AllHonest, Tallied, TokensOf;
    ghost var sent0 := s.blocks.out.sent;
    AdlerBound(s.All());
    assert s.input[..|s.input|] == s.input;
    PutShortMSB(s.blocks, s.adler / 0x1_0000);
    PutShortMSB(s.blocks, s.adler % 0x1_0000);
    ValidSizes(s.blocks);
    TrailerBits(sent0, s.adler, s.dataEnd + Padding(s.dataEnd), s.header, s.dataEnd, s.blocks.out.sent);
    HeadedGrows(s, sent0, s.blocks.out.sent);
    FlushOut(s.blocks);
    ValidSizes(s.blocks);
    s.noheader := -1;
  }

  lemma TrailerBits(sent: seq<bool>, adler: nat, n: nat, header: nat, end: nat, sent': seq<bool>)
    requires adler < 0x1_0000_0000 && |sent| == n && header <= end <= n
    requires sent' == sent + BytesBits(Msb2(adler / 0x1_0000)) + BytesBits(Msb2(adler % 0x1_0000))
    ensures |sent'| == n + 32 && sent'[n..] == BytesBits(Msb4(adler)) && sent <= sent'
    ensures sent'[header..end] == sent[header..end]
  {
    hide BytesBits, Msb2;
    BytesBitsAppend(Msb2(adler / 0x1_0000), Msb2(adler % 0x1_0000));
    assert sent' == sent + (BytesBits(Msb2(adler / 0x1_0000)) + BytesBits(Msb2(adler % 0x1_0000)));
  }

  /** What the bytes delivered decode to. */
  ghost function Decoded(s: Deflater): Option<seq<byte>>
    reads s, s.blocks.out
  {
    if s.raw then RawDecode(Pow2(s.wBits), s.blocks.out.delivered) else ZlibDecode(s.blocks.out.delivered)
  }

  lemma RawEnd(s: Deflater)
    requires Finished(s) && Wrapped(s) && s.raw && s.blocks.out.pending == []
    ensures Concluded(s)
  {
    hide BlockState.Valid, Closed, BytesBits, Padding, InflateBlocks, Deflater.Sliding, Pow2, Resumable, AllHonest, Tallied, TokensOf;
    ValidSizes(s.blocks);
    assert s.input[..|s.input|] == s.input;
    DeliveredAll(s.blocks.out);
    EndOfAll(s);
    RawDecodes(s.blocks.out.delivered, s.blocks.out.sent, s.dataEnd, Pow2(s.wBits), s.All());
  }

  /** What the end of the stream means: the bytes delivered decode to all the input; so do those from each
      mark on to the input from there on; and the header names the level. */
  ghost predicate Concluded(s: Deflater)
    reads s, s.blocks.out
  {
    && Decoded(s) == Some(s.All())
    && (forall i :: 0 <= i < |s.marks| ==> DecodesFrom(s.blocks.out.delivered, s.marks[i], s.All(), Pow2(s.wBits)))
    && (!s.raw ==> 1 <= s.level <= 9 && |s.blocks.out.delivered| >= 2 && s.blocks.out.delivered[1] / 64 == Flevel(s.level))
  }

  /** Once everything is delivered. */
  lemma EndOfAll(s: Deflater)
    requires Headed(s) && s.blocks.out.sent == BytesBits(s.blocks.out.delivered)
    requires Sent(s.blocks.out.sent, s.header, s.dataEnd, Pow2(s.wBits), s.input)
    ensures Sent(s.blocks.out.sent, s.marks[0].bit, s.dataEnd, Pow2(s.wBits), s.All())
    ensures forall i :: 0 <= i < |s.marks| ==> DecodesFrom(s.blocks.out.delivered, s.marks[i], s.All(), Pow2(s.wBits))
  {
    hide HeadSent, Pow2, Closed, Padding, BytesBits, Resumable, DecodesFrom;
    var sent := s.blocks.out.sent;
    ResumeEnds(s.marks, sent, s.header, s.past, Pow2(s.wBits), s.dataEnd, s.input);
    forall i | 0 <= i < |s.marks| ensures DecodesFrom(s.blocks.out.delivered, s.marks[i], s.All(), Pow2(s.wBits)) {
      EndsDecode(s.blocks.out.delivered, s.marks[i], sent, s.dataEnd, s.All(), Pow2(s.wBits));
    }
    assert Ends(s.marks[0], sent, s.dataEnd, s.All(), Pow2(s.wBits));
    assert s.All()[0..] == s.All();
  }

  lemma ZlibEnd(s: Deflater)
    requires Ended(s) && s.blocks.out.pending == []
    ensures Concluded(s)
  {
    hide Sent, BytesBits, Padding, Adler32, Msb4, ZlibDecode, Pow2, HeadSent, Resumable;
    DeliveredAll(s.blocks.out);
    EndOfAll(s);
    ZlibDecodes(s.blocks.out.delivered, s.blocks.out.sent, s.dataEnd, s.wBits, s.level, s.All());
  }

  lemma DeliveredAll(out: Output)
    requires out.Valid() && out.biValid == 0 && out.pending == []
    ensures out.sent == BytesBits(out.delivered)
  {
    hide BytesBits;
    CarryLength(out.delivered + out.pending, out.biBuf, out.biValid, out.sent);
    assert out.delivered + [] == out.delivered;
  }

  /** The end of deflate: the trailer, unless already written. */
  method Finish(s: Deflater) returns (ret: int)
    requires Valid(s) && s.status == FINISH_STATE && s.blocks.out.pending == []
    modifies s.blocks.out`pending, s.blocks.out`delivered, s.blocks.out`availOut, s.blocks.out`sent, s`noheader
    ensures Valid(s) && Delivers(s.blocks.out)
    ensures ret == Z_OK || ret == Z_STREAM_END
    ensures ret == Z_STREAM_END ==> s.blocks.out.pending == [] && Concluded(s)
    ensures ret == Z_OK ==> s.blocks.out.availOut == 0
  {
    hide Finished, Trailed, Headed, Concluded;
    if s.noheader != 0 {
      if s.noheader == -1 {
        ZlibEnd(s);
      } else {
        RawEnd(s);
      }
      return Z_STREAM_END;
    }
    WriteTrailer(s);
    if s.blocks.out.pending != [] {
      return Z_OK;
    }
    ZlibEnd(s);
    ret := Z_STREAM_END;
  }

  /** A flush value there is not, or anything but Z_FINISH once the stream is finished. */
  predicate Misused(status: int, flush: int)
  {
    flush < 0 || flush > Z_FINISH || (status == FINISH_STATE && flush != Z_FINISH)
  }

  /** The calls that return Z_BUF_ERROR: no space; nothing pending (the header counts as pending), no input and
      no flush beyond that of the call before; or more input after the stream is finished, when what was
      pending leaves room. */
  predicate Useless(status: int, pending: nat, nextIn: seq<byte>, room: nat, flush: int, lastFlush: int)
  {
    || room == 0
    || (status != INIT_STATE && pending == 0 && nextIn == [] && flush <= lastFlush && flush != Z_FINISH)
    || (status == FINISH_STATE && nextIn != [] && pending < room)
  }

  /** The header, and the output still pending; go says that there is something to do and space for it. */
  method Prepare(s: Deflater, flush: int, oldFlush: int) returns (go: bool)
    requires Valid(s) && s.blocks.out.availOut > 0
    modifies s`status, s`adler, s`header, s`lastFlush
    modifies s.blocks.out`pending, s.blocks.out`sent, s.blocks.out`delivered, s.blocks.out`availOut
    ensures Valid(s) && Delivers(s.blocks.out)
    ensures s.status != INIT_STATE && (s.status == FINISH_STATE <==> old(s.status) == FINISH_STATE)
    ensures go ==> s.lastFlush == old(s.lastFlush) && s.blocks.out.pending == [] && s.blocks.out.availOut > 0
    ensures go && old(s.status) != INIT_STATE ==> |old(s.blocks.out.pending)| < old(s.blocks.out.availOut)
    ensures !go && s.blocks.out.availOut == 0 ==>
              && s.lastFlush == -1
              && (old(s.status) == FINISH_STATE ==> |old(s.blocks.out.pending)| >= old(s.blocks.out.availOut))
              && (old(s.status) != INIT_STATE ==> old(s.blocks.out.pending) != [])
    ensures !go && s.blocks.out.availOut > 0 <==>
              old(s.status) != INIT_STATE && old(s.blocks.out.pending) == [] && s.nextIn == [] && flush <= oldFlush && flush != Z_FINISH
    ensures !go && s.blocks.out.availOut > 0 ==> s.lastFlush == old(s.lastFlush)
  {
    hide Valid;
    FinishedEmpty(s);
    if s.status == INIT_STATE {
      WriteHeader(s);
    }
    if s.blocks.out.pending != [] {
      FlushValid(s);
      if s.blocks.out.availOut == 0 {
        SetLastFlush(s, -1);
        return false;
      }
    } else if s.nextIn == [] && flush <= oldFlush && flush != Z_FINISH {
      return false;
    }
    go := true;
  }

  /** The rest of deflate, once the call makes sense and there is space: oldFlush is the last call's flush value. */
  method DeflateOn(s: Deflater, flush: int, oldFlush: int) returns (ret: int)
    requires Valid(s) && !Misused(s.status, flush) && s.blocks.out.availOut > 0 && s.lastFlush == flush
    modifies s.window, s.dict.head, s.dict.prev, s.dict`ins, s.dict`next, s.dict`insH, s`skipped, s`finds, s`done, s`cuts
    modifies s`strstart, s`lookahead, s`prevLength, s`prevMatch, s`matchLength, s`matchStart, s`matchAvailable, s`blockStart, s`dataEnd
    modifies s`base, s`nextIn, s`adler, s`input, s`status, s`lastFlush, s`noheader, s`header, s`past, s`marks
    modifies s.blocks.dBuf, s.blocks.lBuf, s.blocks.st, s.blocks.st.heap, s.blocks.st.depth, s.blocks.st.blCount
    modifies s.blocks.l`maxCode, s.blocks.l.fc, s.blocks.l.dl, s.blocks.d`maxCode, s.blocks.d.fc, s.blocks.d.dl
    modifies s.blocks.bl`maxCode, s.blocks.bl.fc, s.blocks.bl.dl, s.blocks.out, s.blocks`lastEobLen, s.blocks`lastLit
    ensures Valid(s) && Takes(s) && Delivers(s.blocks.out) && RecordsOrRestarts(s, flush) && Cuts(s, flush, true)
    ensures ret in {Z_OK, Z_STREAM_END, Z_BUF_ERROR}
    ensures ret == Z_BUF_ERROR <==>
      Useless(old(s.status), |old(s.blocks.out.pending)|, old(s.nextIn), old(s.blocks.out.availOut), flush, oldFlush)
    ensures s.status == FINISH_STATE ==> if old(s.status) == FINISH_STATE then s.nextIn == old(s.nextIn) else flush == Z_FINISH && s.nextIn == []
    ensures s.lastFlush == flush || (s.lastFlush == -1 && ret == Z_OK && s.blocks.out.availOut == 0)
    ensures ret == Z_OK && s.blocks.out.availOut == 0 && flush != Z_FINISH ==> s.lastFlush == -1
    ensures ret == Z_STREAM_END ==> s.nextIn == [] && s.blocks.out.pending == [] && Concluded(s)
    ensures ret == Z_OK && s.blocks.out.availOut > 0 ==> flush != Z_FINISH && s.nextIn == []
    ensures ret == Z_OK && s.blocks.out.availOut > 0 && flush != Z_NO_FLUSH ==> CutNow(old(s.cuts), s.cuts, s.blocks.litBufsize - 1)
    ensures ret == Z_OK && s.blocks.out.availOut > 0 && (flush == Z_SYNC_FLUSH || flush == Z_FULL_FLUSH) ==> Synced(s)
    ensures ret == Z_OK && s.blocks.out.availOut > 0 && flush == Z_FULL_FLUSH ==> Restarts(s)
    ensures ret == Z_OK && s.blocks.out.availOut > 0 && flush == Z_PARTIAL_FLUSH ==> PartlySynced(s)
  {
    hide Valid, Ready, Finished, Wrapped, Concluded, Synced, Restarts, PartlySynced, Recording, FullOnly, CutNow;
    NothingRecorded(s, flush);
    NoCuts(s.cuts, s.blocks.litBufsize - 1);
    FinishedEmpty(s);
    var go := Prepare(s, flush, oldFlush);
    if !go {
      return if s.blocks.out.availOut == 0 then Z_OK else Z_BUF_ERROR;
    }
    FinishedEmpty(s);
    ret := Proceed(s, flush);
  }

  /** deflate: compress as much as possible with the input offered and the space available. Z_OK means that
      the input is used up or the output space is; with a flush asked for and space left, that the bytes
      delivered decode to all the input so far; and with Z_FINISH, that space is all that is missing. */
  method DeflateCall(s: Deflater, flush: int) returns (ret: int)
    requires Valid(s)
    modifies s.window, s.dict.head, s.dict.prev, s.dict`ins, s.dict`next, s.dict`insH, s`skipped, s`finds, s`done, s`cuts
    modifies s`strstart, s`lookahead, s`prevLength, s`prevMatch, s`matchLength, s`matchStart, s`matchAvailable, s`blockStart, s`dataEnd
    modifies s`base, s`nextIn, s`adler, s`input, s`status, s`lastFlush, s`noheader, s`header, s`past, s`marks
    modifies s.blocks.dBuf, s.blocks.lBuf, s.blocks.st, s.blocks.st.heap, s.blocks.st.depth, s.blocks.st.blCount
    modifies s.blocks.l`maxCode, s.blocks.l.fc, s.blocks.l.dl, s.blocks.d`maxCode, s.blocks.d.fc, s.blocks.d.dl
    modifies s.blocks.bl`maxCode, s.blocks.bl.fc, s.blocks.bl.dl, s.blocks.out, s.blocks`lastEobLen, s.blocks`lastLit
    ensures Valid(s) && Takes(s) && Delivers(s.blocks.out) && RecordsOrRestarts(s, flush) && Cuts(s, flush, true)
    ensures ret in {Z_OK, Z_STREAM_END, Z_STREAM_ERROR, Z_BUF_ERROR}
    ensures ret == Z_STREAM_ERROR <==> Misused(old(s.status), flush)
    ensures ret == Z_BUF_ERROR <==> (!Misused(old(s.status), flush) &&
      Useless(old(s.status), |old(s.blocks.out.pending)|, old(s.nextIn), old(s.blocks.out.availOut), flush, old(s.lastFlush)))
    ensures s.status == FINISH_STATE ==> if old(s.status) == FINISH_STATE then s.nextIn == old(s.nextIn) else flush == Z_FINISH && s.nextIn == []
    ensures if ret == Z_STREAM_ERROR || old(s.blocks.out.availOut) == 0 then s.lastFlush == old(s.lastFlush)
      else s.lastFlush == flush || (s.lastFlush == -1 && ret == Z_OK && s.blocks.out.availOut == 0)
    ensures ret == Z_OK && s.blocks.out.availOut == 0 && flush != Z_FINISH ==> s.lastFlush == -1
    ensures ret == Z_STREAM_END ==> s.nextIn == [] && s.blocks.out.pending == [] && Concluded(s)
    ensures ret == Z_OK && s.blocks.out.availOut > 0 ==> flush != Z_FINISH && s.nextIn == []
    ensures ret == Z_OK && s.blocks.out.availOut > 0 && flush != Z_NO_FLUSH ==> CutNow(old(s.cuts), s.cuts, s.blocks.litBufsize - 1)
    ensures ret == Z_OK && s.blocks.out.availOut > 0 && (flush == Z_SYNC_FLUSH || flush == Z_FULL_FLUSH) ==> Synced(s)
    ensures ret == Z_OK && s.blocks.out.availOut > 0 && flush == Z_FULL_FLUSH ==> Restarts(s)
    ensures ret == Z_OK && s.blocks.out.availOut > 0 && flush == Z_PARTIAL_FLUSH ==> PartlySynced(s)
  {
    hide Valid, Ready, Finished, Wrapped, Concluded, Synced, Restarts, PartlySynced, Recording, FullOnly, CutNow;
    NothingRecorded(s, flush);
    NoCuts(s.cuts, s.blocks.litBufsize - 1);
    FinishedEmpty(s);
    if flush > Z_FINISH || flush < 0 {
      return Z_STREAM_ERROR;
    }
    if s.status == FINISH_STATE && flush != Z_FINISH {
      return Z_STREAM_ERROR;
    }
    if s.blocks.out.availOut == 0 {
      return Z_BUF_ERROR;
    }
    var oldFlush := s.lastFlush;
    SetLastFlush(s, flush);
    ret := DeflateOn(s, flush, oldFlush);
  }

  /** The rest of deflate, when there is something to do and space for it. */
  method Proceed(s: Deflater, flush: int) returns (ret: int)
    requires Valid(s) && s.status != INIT_STATE && s.blocks.out.pending == [] && s.blocks.out.availOut > 0
    requires s.status == FINISH_STATE ==> flush == Z_FINISH
    modifies s.window, s.dict.head, s.dict.prev, s.dict`ins, s.dict`next, s.dict`insH, s`skipped, s`finds, s`done, s`cuts
    modifies s`strstart, s`lookahead, s`prevLength, s`prevMatch, s`matchLength, s`matchStart, s`matchAvailable, s`blockStart, s`dataEnd
    modifies s`base, s`nextIn, s`adler, s`input, s`status, s`lastFlush, s`noheader, s`header, s`past, s`marks
    modifies s.blocks.dBuf, s.blocks.lBuf, s.blocks.st, s.blocks.st.heap, s.blocks.st.depth, s.blocks.st.blCount
    modifies s.blocks.l`maxCode, s.blocks.l.fc, s.blocks.l.dl, s.blocks.d`maxCode, s.blocks.d.fc, s.blocks.d.dl
    modifies s.blocks.bl`maxCode, s.blocks.bl.fc, s.blocks.bl.dl, s.blocks.out, s.blocks`lastEobLen, s.blocks`lastLit
    ensures Valid(s) && Takes(s) && Delivers(s.blocks.out) && RecordsOrRestarts(s, flush) && Cuts(s, flush, true)
    ensures ret in {Z_OK, Z_STREAM_END, Z_BUF_ERROR}
    ensures ret == Z_BUF_ERROR <==> old(s.status) == FINISH_STATE && old(s.nextIn) != []
    ensures s.status == FINISH_STATE ==> if old(s.status) == FINISH_STATE then s.nextIn == old(s.nextIn) else flush == Z_FINISH && s.nextIn == []
    ensures s.lastFlush == old(s.lastFlush) || (s.lastFlush == -1 && ret == Z_OK && s.blocks.out.availOut == 0)
    ensures ret == Z_OK && s.blocks.out.availOut == 0 && flush != Z_FINISH ==> s.lastFlush == -1
    ensures ret == Z_STREAM_END ==> s.nextIn == [] && s.blocks.out.pending == [] && Concluded(s)
    ensures ret == Z_OK && s.blocks.out.availOut > 0 ==> flush != Z_FINISH && s.nextIn == []
    ensures ret == Z_OK && s.blocks.out.availOut > 0 && flush != Z_NO_FLUSH ==> CutNow(old(s.cuts), s.cuts, s.blocks.litBufsize - 1)
    ensures ret == Z_OK && s.blocks.out.availOut > 0 && (flush == Z_SYNC_FLUSH || flush == Z_FULL_FLUSH) ==> Synced(s)
    ensures ret == Z_OK && s.blocks.out.availOut > 0 && flush == Z_FULL_FLUSH ==> Restarts(s)
    ensures ret == Z_OK && s.blocks.out.availOut > 0 && flush == Z_PARTIAL_FLUSH ==> PartlySynced(s)
  {
    hide Valid, Ready, Finished, Wrapped, Concluded, Synced, Restarts, PartlySynced, Recording, FullOnly, CutNow;
    NothingRecorded(s, flush);
    NoCuts(s.cuts, s.blocks.litBufsize - 1);
    FinishedEmpty(s);
    if s.status == FINISH_STATE && s.nextIn != [] {
      return Z_BUF_ERROR;
    }
    if s.nextIn != [] || s.lookahead != 0 || (flush != Z_NO_FLUSH && s.status != FINISH_STATE) {
      BusyParts(s);
      var stop := Compress(s, flush);
      if stop {
        if s.blocks.out.availOut == 0 {
          SetLastFlush(s, -1);
        }
        return Z_OK;
      }
    }
    assert s.blocks.out.availOut > 0;
    if flush != Z_FINISH {
      return Z_OK;
    }
    ret := Finish(s);
  }

  lemma BusyParts(s: Deflater)
    requires Valid(s) && s.status == BUSY_STATE
    ensures Ready(s) && Wrapped(s)
  {
    hide Ready, Wrapped, Finished, Ended, Fresh;
  }

  /** In the finished state no input is ahead. */
  lemma FinishedEmpty(s: Deflater)
    requires Valid(s)
    ensures s.status == FINISH_STATE ==> s.lookahead == 0
    ensures s.status == BUSY_STATE || s.status == FINISH_STATE || s.status == INIT_STATE
  {
  }

  // ---------- Whole runs ----------

  /** What the application does between two calls: offer more input and some space. */
  method Offer(s: Deflater, chunk: seq<byte>, room: nat)
    requires Valid(s)
    modifies s`nextIn, s.blocks.out`availOut
    ensures Valid(s) && s.nextIn == old(s.nextIn) + chunk && s.blocks.out.availOut == room
  {
    hide Held, Chains, Pow2, Adler32, Tallied, MatchHeld, Sending, Sent, TokensOf, Primed, HeadSent, Padding, BytesBits, BlockState.Valid,
         Carries;
    OutValid(s);
    s.nextIn := s.nextIn + chunk;
    GiveRoom(s.blocks, room);
  }

  lemma OutValid(s: Deflater)
    requires Valid(s)
    ensures s.blocks.out.Valid()
  {
    hide Carries, Deflater.Windowed, Deflater.Parsed, Sent;
  }

  method GiveRoom(s: BlockState, room: nat)
    requires s.out.Valid()
    modifies s.out`availOut
    ensures s.out.Valid() && s.out.availOut == room && (old(s.Valid()) ==> s.Valid())
  {
    hide Carries, Counting, LengthTablesOk, DistTablesOk, Sends, TokensOf;
    s.out.availOut := room;
  }

  /** One call of deflate: the input offered before it, the space for its output, its flush value. */
  datatype Call = Call(chunk: seq<byte>, room: nat, flush: int)

  function Chunks(calls: seq<Call>): seq<byte>
  {
    if calls == [] then [] else Chunks(calls[..|calls| - 1]) + calls[|calls| - 1].chunk
  }

  /** The space offered in a run of calls. */
  function Rooms(calls: seq<Call>): nat
  {
    if calls == [] then 0 else Rooms(calls[..|calls| - 1]) + calls[|calls| - 1].room
  }

  lemma RoomsNext(calls: seq<Call>, c: Call)
    ensures Rooms(calls + [c]) == Rooms(calls) + c.room
  {
    assert (calls + [c])[..|calls|] == calls;
  }

  /** The first call with Z_FINISH. */
  function FirstFinish(calls: seq<Call>): (k: nat)
    ensures k <= |calls| && forall i :: 0 <= i < k ==> calls[i].flush != Z_FINISH
    ensures k < |calls| ==> calls[k].flush == Z_FINISH
  {
    if calls == [] then 0
    else
      var front := calls[..|calls| - 1];
      if FirstFinish(front) < |front| || calls[|calls| - 1].flush == Z_FINISH then FirstFinish(front) else |calls|
  }

  /** Once it has asked to finish the application only asks again, with some room and no more input. */
  predicate Finishing(calls: seq<Call>)
  {
    && (forall i :: FirstFinish(calls) <= i < |calls| ==> calls[i].flush == Z_FINISH && calls[i].room > 0)
    && (forall i :: FirstFinish(calls) < i < |calls| ==> calls[i].chunk == [])
  }

  /** How a call moves the stream on: its status, the input not yet taken and the number of bytes delivered. */
  ghost predicate Moves(status: int, nextIn: seq<byte>, n: nat, c: Call, status': int, nextIn': seq<byte>, n': nat, ended: bool)
  {
    && n' <= n + c.room
    && (c.flush == Z_FINISH && c.room > 0 && !ended && (status == FINISH_STATE ==> nextIn + c.chunk == []) ==> n' == n + c.room)
    && (status' == FINISH_STATE ==> if status == FINISH_STATE then nextIn' == nextIn + c.chunk else c.flush == Z_FINISH && nextIn' == [])
  }

  /** After the calls so far: never more than the space offered, and all the space since the first Z_FINISH. */
  ghost predicate Paced(status: int, nextIn: seq<byte>, n: nat, calls: seq<Call>, done: nat, ended: bool)
  {
    && done <= |calls| && n <= Rooms(calls[..done])
    && var k := FirstFinish(calls);
    && (done <= k ==> status != FINISH_STATE)
    && (Finishing(calls) && !ended && done > k && status == FINISH_STATE ==> nextIn == [])
    && (Finishing(calls) && !ended && done >= k ==> n >= Rooms(calls[k..done]))
  }

  lemma PacedStart(status: int, nextIn: seq<byte>, calls: seq<Call>)
    requires status != FINISH_STATE
    ensures Paced(status, nextIn, 0, calls, 0, false)
  {
    assert calls[..0] == [];
    assert FirstFinish(calls) == 0 ==> calls[0..0] == [];
  }

  lemma PacedNext(status: int, nextIn: seq<byte>, n: nat, calls: seq<Call>, done: nat, status': int, nextIn': seq<byte>, n': nat, ended: bool)
    requires done < |calls| && Paced(status, nextIn, n, calls, done, false) && Moves(status, nextIn, n, calls[done], status', nextIn', n', ended)
    ensures Paced(status', nextIn', n', calls, done + 1, ended)
  {
    hide Rooms;
    var k := FirstFinish(calls);
    var c := calls[done];
    assert calls[..done + 1] == calls[..done] + [c];
    RoomsNext(calls[..done], c);
    if done >= k {
      assert calls[k..done + 1] == calls[k..done] + [c];
      RoomsNext(calls[k..done], c);
      assert done == k ==> calls[k..done] == [];
    } else {
      assert done + 1 == k ==> calls[k..done + 1] == [];
    }
    NoRooms();
  }

  lemma NoRooms()
    ensures Rooms([]) == 0
  {
  }

  lemma PacedEnd(status: int, nextIn: seq<byte>, n: nat, calls: seq<Call>, done: nat, ended: bool)
    requires Paced(status, nextIn, n, calls, done, ended) && (!ended ==> done == |calls|)
    ensures n <= Rooms(calls[..done])
    ensures Finishing(calls) && !ended ==> n >= Rooms(calls[FirstFinish(calls)..])
  {
    hide Rooms, Finishing, FirstFinish;
    var k := FirstFinish(calls);
    assert calls[k..|calls|] == calls[k..];
  }

  lemma ChunksNext(calls: seq<Call>, c: Call)
    ensures Chunks(calls + [c]) == Chunks(calls) + c.chunk
  {
    assert (calls + [c])[..|calls|] == calls;
  }

  /** A new stream. */
  lemma StartValid(s: Deflater)
    requires s.Windowed() && s.Parsed() && s.Recorded(0) && s.blocks.Valid() && s.blocks.lastLit == 0 && s.strstart == 0
    requires s.marks == [Mark(if s.raw then 0 else 16, 0)] && s.past == []
    requires s.input == [] && s.base == 0 && s.header == 0 && s.blockStart == 0 && s.blocks.out.sent == []
    requires s.noheader == (if s.raw then 1 else 0) && s.status == (if s.raw then BUSY_STATE else INIT_STATE)
    ensures Valid(s)
  {
    hide BlockState.Valid, Deflater.Windowed, Deflater.Parsed, Open, Finished, Ended, HeadSent, Pow2, AllHonest;
    ValidSizes(s.blocks);
    CarryLength(s.blocks.out.delivered + s.blocks.out.pending, s.blocks.out.biBuf, s.blocks.out.biValid, s.blocks.out.sent);
    OpenStart(Pow2(s.wBits));
    assert s.input[..0] == [] && s.blocks.out.sent[0..] == [] && s.blocks.out.sent[0..0] == [] && s.past[0..] == [];
  }

  /** One call, and what was offered before it. */
  method CallOnce(s: Deflater, c: Call) returns (ret: int)
    requires Valid(s)
    modifies s.window, s.dict.head, s.dict.prev, s.dict`ins, s.dict`next, s.dict`insH, s`skipped, s`finds, s`done, s`cuts
    modifies s`strstart, s`lookahead, s`prevLength, s`prevMatch, s`matchLength, s`matchStart, s`matchAvailable, s`blockStart, s`dataEnd
    modifies s`base, s`nextIn, s`adler, s`input, s`status, s`lastFlush, s`noheader, s`header, s`past, s`marks
    modifies s.blocks.dBuf, s.blocks.lBuf, s.blocks.st, s.blocks.st.heap, s.blocks.st.depth, s.blocks.st.blCount
    modifies s.blocks.l`maxCode, s.blocks.l.fc, s.blocks.l.dl, s.blocks.d`maxCode, s.blocks.d.fc, s.blocks.d.dl
    modifies s.blocks.bl`maxCode, s.blocks.bl.fc, s.blocks.bl.dl, s.blocks.out, s.blocks`lastEobLen, s.blocks`lastLit
    ensures Valid(s) && s.All() + s.nextIn == old(s.All() + s.nextIn) + c.chunk && old(s.marks) <= s.marks
    ensures ret == Z_STREAM_END ==> s.nextIn == [] && Concluded(s)
    ensures ret == Z_OK && c.flush == Z_FULL_FLUSH && |s.blocks.out.delivered| < |old(s.blocks.out.delivered)| + c.room ==>
              s.nextIn == [] && Mark(8 * |s.blocks.out.delivered|, |s.All()|) in s.marks
    ensures Moves(old(s.status), old(s.nextIn), |old(s.blocks.out.delivered)|, c, s.status, s.nextIn, |s.blocks.out.delivered|,
                  ret == Z_STREAM_END)
  {
    hide Valid, Concluded, Synced, PartlySynced, Records;
    Offer(s, c.chunk, c.room);
    assert s.All() + s.nextIn == old(s.All() + s.nextIn) + c.chunk;
    ret := DeflateCall(s, c.flush);
  }

  /** Call i asked for a full flush and had space left afterwards; sizes are the numbers of bytes delivered
      before the first call and after each. */
  predicate FullyFlushed(calls: seq<Call>, codes: seq<int>, sizes: seq<nat>, i: nat)
  {
    && i < |calls| && i < |codes| && i + 1 < |sizes|
    && calls[i].flush == Z_FULL_FLUSH && codes[i] == Z_OK && sizes[i + 1] < sizes[i] + calls[i].room
  }

  /** Behind every full flush there is a mark. */
  ghost predicate Marked(marks: seq<Mark>, calls: seq<Call>, codes: seq<int>, sizes: seq<nat>)
  {
    forall i: nat :: FullyFlushed(calls, codes, sizes, i) ==> Mark(8 * sizes[i + 1], |Chunks(calls[..i + 1])|) in marks
  }

  lemma MarkedNext(marks: seq<Mark>, marks': seq<Mark>, calls: seq<Call>, codes: seq<int>, sizes: seq<nat>, code: int, n: nat)
    requires Marked(marks, calls, codes, sizes) && marks <= marks' && |sizes| == |codes| + 1 && |codes| < |calls|
    requires code == Z_OK && calls[|codes|].flush == Z_FULL_FLUSH && n < sizes[|codes|] + calls[|codes|].room ==>
               Mark(8 * n, |Chunks(calls[..|codes| + 1])|) in marks'
    ensures Marked(marks', calls, codes + [code], sizes + [n])
  {
    hide Chunks;
    forall i: nat | FullyFlushed(calls, codes + [code], sizes + [n], i)
      ensures Mark(8 * (sizes + [n])[i + 1], |Chunks(calls[..i + 1])|) in marks'
    {
      if i < |codes| {
        assert FullyFlushed(calls, codes, sizes, i);
      }
    }
  }

  /** The bytes behind a full flush decode, with no history, to the input offered after it. */
  ghost predicate Independent(delivered: seq<byte>, wsize: nat, calls: seq<Call>, codes: seq<int>, sizes: seq<nat>, done: nat)
    requires done <= |calls|
  {
    forall i: nat :: FullyFlushed(calls, codes, sizes, i) && i < done ==>
      && sizes[i + 1] <= |delivered|
      && var r := InflateBlocks(wsize, 0, BytesBits(delivered[sizes[i + 1]..]), []); r.Ok? && r.value == Chunks(calls[i + 1..done])
  }

  lemma NoChunks()
    ensures Chunks([]) == []
  {
  }

  lemma {:induction false} ChunksSplit(calls: seq<Call>, i: nat, n: nat)
    requires i <= n <= |calls|
    ensures Chunks(calls[..n]) == Chunks(calls[..i]) + Chunks(calls[i..n])
    decreases n
  {
    hide Chunks;
    if i == n {
      assert calls[i..n] == [];
      NoChunks();
    } else {
      ChunksSplit(calls, i, n - 1);
      assert calls[..n] == calls[..n - 1] + [calls[n - 1]] && calls[i..n] == calls[i..n - 1] + [calls[n - 1]];
      ChunksNext(calls[..n - 1], calls[n - 1]);
      ChunksNext(calls[i..n - 1], calls[n - 1]);
    }
  }

  lemma MarksDecode(s: Deflater, calls: seq<Call>, codes: seq<int>, sizes: seq<nat>, done: nat)
    requires done <= |calls| && Marked(s.marks, calls, codes, sizes) && Concluded(s) && s.All() == Chunks(calls[..done])
    ensures Independent(s.blocks.out.delivered, Pow2(s.wBits), calls, codes, sizes, done)
  {
    hide Chunks, Decoded, InflateBlocks, BytesBits, Pow2, Flevel;
    var delivered := s.blocks.out.delivered;
    forall i: nat | FullyFlushed(calls, codes, sizes, i) && i < done
      ensures sizes[i + 1] <= |delivered|
      ensures var r := InflateBlocks(Pow2(s.wBits), 0, BytesBits(delivered[sizes[i + 1]..]), []); r.Ok? && r.value == Chunks(calls[i + 1..done])
    {
      var m := Mark(8 * sizes[i + 1], |Chunks(calls[..i + 1])|);
      var j :| 0 <= j < |s.marks| && s.marks[j] == m;
      assert DecodesFrom(delivered, m, s.All(), Pow2(s.wBits));
      ChunksSplit(calls, i + 1, done);
      assert s.All()[m.at..] == Chunks(calls[i + 1..done]);
    }
  }

  /** A run of calls on one stream. */
  method Calls(s: Deflater, calls: seq<Call>) returns (done: nat, ended: bool, codes: seq<int>, sizes: seq<nat>)
    requires Valid(s) && s.All() + s.nextIn == [] && s.blocks.out.delivered == [] && s.status != FINISH_STATE
    modifies s.window, s.dict.head, s.dict.prev, s.dict`ins, s.dict`next, s.dict`insH, s`skipped, s`finds, s`done, s`cuts
    modifies s`strstart, s`lookahead, s`prevLength, s`prevMatch, s`matchLength, s`matchStart, s`matchAvailable, s`blockStart, s`dataEnd
    modifies s`base, s`nextIn, s`adler, s`input, s`status, s`lastFlush, s`noheader, s`header, s`past, s`marks
    modifies s.blocks.dBuf, s.blocks.lBuf, s.blocks.st, s.blocks.st.heap, s.blocks.st.depth, s.blocks.st.blCount
    modifies s.blocks.l`maxCode, s.blocks.l.fc, s.blocks.l.dl, s.blocks.d`maxCode, s.blocks.d.fc, s.blocks.d.dl
    modifies s.blocks.bl`maxCode, s.blocks.bl.fc, s.blocks.bl.dl, s.blocks.out, s.blocks`lastEobLen, s.blocks`lastLit
    ensures done <= |calls| && (!ended ==> done == |calls|)
    ensures |codes| == done && |sizes| == done + 1 && sizes[done] == |s.blocks.out.delivered|
    ensures ended ==> Concluded(s) && s.All() == Chunks(calls[..done])
    ensures ended ==> Independent(s.blocks.out.delivered, Pow2(s.wBits), calls, codes, sizes, done)
    ensures |s.blocks.out.delivered| <= Rooms(calls[..done])
    ensures Finishing(calls) && !ended ==> |s.blocks.out.delivered| >= Rooms(calls[FirstFinish(calls)..])
  {
    hide Valid, Concluded, Finishing, Paced, Moves, Rooms, Marked, Independent;
    done, ended, codes, sizes := 0, false, [], [0];
    assert calls[..0] == [];
    PacedStart(s.status, s.nextIn, calls);
    NoneMarked(s.marks, calls);
    while done < |calls| && !ended
      invariant done <= |calls| && Valid(s) && |codes| == done && |sizes| == done + 1 && sizes[done] == |s.blocks.out.delivered|
      invariant s.All() + s.nextIn == Chunks(calls[..done])
      invariant ended ==> s.nextIn == [] && Concluded(s)
      invariant Paced(s.status, s.nextIn, |s.blocks.out.delivered|, calls, done, ended)
      invariant Marked(s.marks, calls, codes, sizes)
    {
      var c := calls[done];
      ghost var status, nextIn, n, marks := s.status, s.nextIn, |s.blocks.out.delivered|, s.marks;
      var ret := CallOnce(s, c);
      ended := ret == Z_STREAM_END;
      assert calls[..done + 1] == calls[..done] + [c];
      ChunksNext(calls[..done], c);
      PacedNext(status, nextIn, n, calls, done, s.status, s.nextIn, |s.blocks.out.delivered|, ended);
      assert s.All() + [] == s.All();
      MarkedNext(marks, s.marks, calls, codes, sizes, ret, |s.blocks.out.delivered|);
      codes, sizes := codes + [ret], sizes + [|s.blocks.out.delivered|];
      done := done + 1;
    }
    PacedEnd(s.status, s.nextIn, |s.blocks.out.delivered|, calls, done, ended);
    if ended {
      assert s.All() + [] == s.All();
      MarksDecode(s, calls, codes, sizes, done);
    }
  }

  lemma NoneMarked(marks: seq<Mark>, calls: seq<Call>)
    ensures Marked(marks, calls, [], [0])
  {
  }

  /** Any run of deflate: whatever the buffers and the flush values, the call that reports the end of
      the stream has delivered bytes that decode to all the input offered so far, and those behind every full
      flush decode on their own to the input offered after it. No call writes beyond the space it is given, and
      once asked to finish, the stream ends or fills all the space of every call. */
  method Run(level: nat, wBits: nat, memLevel: nat, strategy: nat, raw: bool, calls: seq<Call>)
      returns (done: nat, ended: bool, delivered: seq<byte>, codes: seq<int>, sizes: seq<nat>)
    requires 1 <= level <= 9 && 9 <= wBits <= 15 && 1 <= memLevel <= 9
    ensures done <= |calls| && (!ended ==> done == |calls|)
    ensures |codes| == done && |sizes| == done + 1 && sizes[done] == |delivered|
    ensures ended ==>
              (if raw then RawDecode(Pow2(wBits), delivered) else ZlibDecode(delivered)) == Some(Chunks(calls[..done]))
    ensures ended ==> Independent(delivered, Pow2(wBits), calls, codes, sizes, done)
    ensures ended && !raw ==> |delivered| >= 2 && delivered[1] / 64 == Flevel(level)
    ensures |delivered| <= Rooms(calls[..done])
    ensures Finishing(calls) && !ended ==> |delivered| >= Rooms(calls[FirstFinish(calls)..])
  {
    hide Valid, RawDecode, ZlibDecode, Pow2, BlockState.Valid, Deflater.Windowed, Deflater.Parsed, Deflater.Recorded, Finishing, Independent,
         DecodesFrom, Flevel;
    var s := new Deflater(level, wBits, memLevel, strategy, raw);
    StartValid(s);
    assert s.All() + s.nextIn == [];
    done, ended, codes, sizes := Calls(s, calls);
    delivered := s.blocks.out.delivered;
  }
}
