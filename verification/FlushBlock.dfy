/** _tr_flush_block: choosing and sending the encoding of a block. */
module FlushBlock {
  import opened Sums
  import opened Bits
  import opened HuffmanCode
  import opened CanonicalCodes
  import opened Inflate
  import opened GenCodes
  import opened StaticTables
  import opened BitLengths
  import BuildTree
  import opened BitWriter
  import opened CodeLengths
  import opened Tallies
  import opened Tokens
  import opened BlockSizes
  import opened DynHeader
  import opened BlockFormat
  import opened Blocks
  import opened BlockTrees

  /** The literal and distance trees, then the bit length tree: opt_len and static_len are now the
      exact sizes of both encodings of the block. */
  method BuildTrees(s: BlockState) returns (maxBlIndex: nat, ghost c: DynCode)
    requires s.Valid()
    modifies s.st, s.st.heap, s.st.depth, s.st.blCount, s.l`maxCode, s.l.fc, s.l.dl, s.d`maxCode, s.d.fc, s.d.dl
    modifies s.bl`maxCode, s.bl.fc, s.bl.dl
    ensures s.Shape() && TreesHold(s, c) && c.n == maxBlIndex + 1
    ensures TreesReady(s.CodeMaps(), s.Tokens(), c, s.st.optLen, s.st.staticLen)
  {
    hide TreeCodes, DescOk, LDesc, DDesc, BlDesc, Zeroes, Carries, LengthTablesOk, DistTablesOk, Sends, MapsOk, TreesHold,
         Complete, CodesFor, BuildTree.Built, BuildTree.Limits, HeaderOk, HeaderBits, EnoughSent, SendsAll, Counting, LitFreqs, DistFreqs, FixedLit, FixedDist,
         DataBits, CoversAll, CodesBuilt, TokensOf;
    DescSizes();
    ghost var m, toks := s.CodeMaps(), s.Tokens();
    FreqSums(m, toks, s.l.fc[..L_CODES], s.d.fc[..D_CODES], s.bl.fc[..BL_CODES]);
    CountingIs(m, toks, s.l.fc[..L_CODES], s.d.fc[..D_CODES], s.bl.fc[..BL_CODES]);
    var limited;
    ghost var lds, dds;
    ghost var tree;
    limited, lds, tree := BuildTree.BuildTree(s.st, s.l);
    ghost var lopt, lstat, lcodes, llens := s.st.optLen, s.st.staticLen, s.l.fc[..], s.l.dl[..s.l.maxCode + 1];
    ghost var llim := limited;
    limited, dds, tree := BuildTree.BuildTree(s.st, s.d);
    ghost var dopt, dstat, dcodes, dlens := s.st.optLen - lopt, s.st.staticLen - lstat, s.d.fc[..], s.d.dl[..s.d.maxCode + 1];
    CodesBuiltFrom(m, toks, lds, llim, dds, limited, llens, dlens, lcodes, dcodes, lopt, lstat, dopt, dstat);
    DataSize(m, toks, llens, dlens, lcodes, dcodes, lopt, lstat, dopt, dstat);
    maxBlIndex := BuildBlTree(s, llens, dlens);
    c := DynCode(llens, dlens, s.bl.dl[..BL_CODES], maxBlIndex + 1);
  }

  lemma CountingIs(m: Maps, toks: seq<Token>, lf: seq<nat>, df: seq<nat>, blf: seq<nat>)
    requires Counting(m, toks, lf, df, blf)
    ensures MapsOk(m) && TokensOk(toks)
    ensures lf == LitFreqs(m, toks) && df == DistFreqs(m, toks) && blf == Zeroes(BL_CODES)
  {
  }

  lemma CodesBuiltFrom(m: Maps, toks: seq<Token>, lds: seq<nat>, llim: bool, dds: seq<nat>, dlim: bool,
                       llens: seq<nat>, dlens: seq<nat>, lcodes: seq<nat>, dcodes: seq<nat>,
                       lopt: int, lstat: int, dopt: int, dstat: int)
    requires MapsOk(m) && TokensOk(toks)
    requires BuildTree.Built(LitFreqs(m, toks), LDesc(), lds, lcodes, llens, llim, lopt, lstat)
    requires BuildTree.Built(DistFreqs(m, toks), DDesc(), dds, dcodes, dlens, dlim, dopt, dstat)
    ensures CodesBuilt(m, toks, llens, dlens, lcodes, dcodes, lopt, lstat, dopt, dstat)
  {
    hide BuildTree.Built, MapsOk, LitFreqs, DistFreqs;
  }

  // ---------- Sending ----------

  /** Send the header of a dynamic block: counts, bit length codes, both trees. */
  method SendAllTrees(s: BlockState, lcodes: nat, dcodes: nat, blcodes: nat, ghost c: DynCode)
    requires s.Shape() && TreesHold(s, c) && HeaderOk(c.llens, c.dlens, c.cl, c.n)
    requires lcodes == |c.llens| && dcodes == |c.dlens| && blcodes == c.n
    modifies s.out`biBuf, s.out`biValid, s.out`pending, s.out`sent
    ensures s.out.Valid() && s.out.sent == old(s.out.sent) + HeaderBits(c.llens, c.dlens, c.cl, c.n)
  {
    hide TreeCodes, DescOk, LDesc, DDesc, BlDesc, Carries, LengthTablesOk, DistTablesOk, Sends, Complete, SendsAll, ClLenBits, ClBits,
         ValueBits, Pow2, Used, EnoughSent, Lengths, BlOrder;
    ghost var sent0 := s.out.sent;
    DescSizes();
    CountsFit(lcodes, dcodes, blcodes, c.cl);
    Pow2Values();
    ClSmall(c.cl);
    CompleteLengths(c.llens);
    CompleteLengths(c.dlens);
    s.out.SendBits(lcodes - 257, 5);
    s.out.SendBits(dcodes - 1, 5);
    s.out.SendBits(blcodes - 4, 4);
    SendClLens(s, blcodes, c);
    SendTree(s.out, s.l, s.bl, lcodes - 1, c.cl);
    SendTree(s.out, s.d, s.bl, dcodes - 1, c.cl);
    SixSent(sent0, ValueBits(lcodes - 257, 5), ValueBits(dcodes - 1, 5), ValueBits(blcodes - 4, 4), ClLenBits(c.cl, 0, blcodes),
            ClBits(c.cl, TreeCodes(c.llens)), ClBits(c.cl, TreeCodes(c.dlens)));
  }

  lemma SixSent(sent: seq<bool>, a: seq<bool>, b: seq<bool>, c: seq<bool>, d: seq<bool>, e: seq<bool>, f: seq<bool>)
    ensures sent + a + b + c + d + e + f == sent + (a + b + c + d + e + f)
  {
  }

  /** The lengths of the bit length codes, in the order of bl_order. */
  method SendClLens(s: BlockState, blcodes: nat, ghost c: DynCode)
    requires s.Shape() && TreesHold(s, c) && |c.cl| == BL_CODES && blcodes <= BL_CODES
    requires forall x :: 0 <= x < BL_CODES ==> c.cl[x] <= 7
    modifies s.out`biBuf, s.out`biValid, s.out`pending, s.out`sent
    ensures s.out.Valid() && s.out.sent == old(s.out.sent) + ClLenBits(c.cl, 0, blcodes)
  {
    hide DescOk, LDesc, DDesc, BlDesc, Carries, LengthTablesOk, DistTablesOk, Sends, SendsAll, ClLenBits, ValueBits, Pow2, BlOrder;
    Pow2Values();
    DescSizes();
    ghost var sent0 := s.out.sent;
    NoClLens(sent0, c.cl);
    var rank := 0;
    while rank < blcodes
      invariant 0 <= rank <= blcodes && s.out.Valid() && s.out.sent == sent0 + ClLenBits(c.cl, 0, rank)
    {
      assert s.bl.dl[..BL_CODES][BlOrder(rank)] == s.bl.dl[BlOrder(rank)];
      s.out.SendBits(s.bl.dl[BlOrder(rank)], 3);
      ClLenBitsMore(c.cl, 0, rank);
      ConcatAssoc(sent0, ClLenBits(c.cl, 0, rank), ValueBits(c.cl[BlOrder(rank)], 3));
      rank := rank + 1;
    }
  }

  lemma NoClLens(sent: seq<bool>, cl: seq<nat>)
    requires |cl| == BL_CODES
    ensures sent + ClLenBits(cl, 0, 0) == sent
  {
  }

  /** The part of the tables that the tokens of a block need. */
  ghost predicate TablesSend(lfc: seq<nat>, ldl: seq<nat>, dfc: seq<nat>, ddl: seq<nat>, llens: seq<nat>, dlens: seq<nat>)
  {
    SendsTo(lfc, ldl, llens, L_CODES) && SendsTo(dfc, ddl, dlens, D_CODES)
  }

  /** Send one literal or match. */
  method SendToken(s: BlockState, dist: nat, lc: byte, lfc: seq<nat>, ldl: seq<nat>, dfc: seq<nat>, ddl: seq<nat>,
                   ghost llens: seq<nat>, ghost dlens: seq<nat>, ghost t: Token)
    requires s.Shape() && t == FromBufs(dist, lc) && TokenOk(t) && MapsOk(s.CodeMaps())
    requires Covers(s.CodeMaps(), llens, dlens, t) && TablesSend(lfc, ldl, dfc, ddl, llens, dlens)
    modifies s.out`biBuf, s.out`biValid, s.out`pending, s.out`sent
    ensures s.out.Valid() && s.out.sent == old(s.out.sent) + TokenBits(s.CodeMaps(), llens, dlens, t)
  {
    hide DescOk, LDesc, DDesc, BlDesc, Carries, Sends, ValueBits, Pow2, Codeword, LengthTablesOk, DistTablesOk, LenExtra, DistExtra;
    if dist == 0 {
      SendCode(s.out, lc, lfc, ldl, llens);
    } else {
      ghost var sent0, m := s.out.sent, s.CodeMaps();
      SendLength(s, lc, lfc, ldl, llens, t);
      SendDistance(s, dist - 1, dfc, ddl, dlens, t);
      FourSent(sent0, Codeword(llens, LitSym(m, t)), ValueBits(LenExtra(m, t), LENGTH_EXTRA[LenCodeOf(m, t)]),
               Codeword(dlens, DistCodeOf(m, t)), ValueBits(DistExtra(m, t), DIST_EXTRA[DistCodeOf(m, t)]));
    }
  }

  /** The length code and its extra bits. */
  method SendLength(s: BlockState, lc: byte, lfc: seq<nat>, ldl: seq<nat>, ghost llens: seq<nat>, ghost t: Token)
    requires s.out.Valid() && s.tables.Valid() && TokenOk(t) && t.Match? && t.len == lc + MIN_MATCH && MapsOk(s.CodeMaps())
    requires LitSym(s.CodeMaps(), t) < |llens| && llens[LitSym(s.CodeMaps(), t)] > 0 && SendsTo(lfc, ldl, llens, L_CODES)
    modifies s.out`biBuf, s.out`biValid, s.out`pending, s.out`sent
    ensures s.out.Valid()
    ensures var m := s.CodeMaps();
            s.out.sent == old(s.out.sent) + Codeword(llens, LitSym(m, t)) + ValueBits(LenExtra(m, t), LENGTH_EXTRA[LenCodeOf(m, t)])
  {
    hide Carries, Sends, ValueBits, Pow2, Codeword, LengthBlock, DistTablesOk, LenExtra;
    var code := s.tables.lenCode[lc];
    SendCode(s.out, code + LITERALS + 1, lfc, ldl, llens);
    LenSent(s.CodeMaps(), t);
    SendExtra(s.out, lc, code, EXTRA_LBITS[code], s.tables.baseLength, LenExtra(s.CodeMaps(), t));
  }

  /** The distance code and its extra bits; dist is the match distance - 1. */
  method SendDistance(s: BlockState, dist: nat, dfc: seq<nat>, ddl: seq<nat>, ghost dlens: seq<nat>, ghost t: Token)
    requires s.out.Valid() && s.tables.Valid() && TokenOk(t) && t.Match? && t.dist == dist + 1 && MapsOk(s.CodeMaps())
    requires DistCodeOf(s.CodeMaps(), t) < |dlens| && dlens[DistCodeOf(s.CodeMaps(), t)] > 0 && SendsTo(dfc, ddl, dlens, D_CODES)
    modifies s.out`biBuf, s.out`biValid, s.out`pending, s.out`sent
    ensures s.out.Valid()
    ensures var m := s.CodeMaps();
            s.out.sent == old(s.out.sent) + Codeword(dlens, DistCodeOf(m, t)) + ValueBits(DistExtra(m, t), DIST_EXTRA[DistCodeOf(m, t)])
  {
    hide Carries, Sends, ValueBits, Pow2, Codeword, DistBlock, LengthTablesOk, DistExtra;
    var code := if dist < 256 then s.tables.distCode[dist] else s.tables.distCode[256 + dist / 128];
    SendCode(s.out, code, dfc, ddl, dlens);
    DistSent(s.CodeMaps(), t);
    SendExtra(s.out, dist, code, EXTRA_DBITS[code], s.tables.baseDist, DistExtra(s.CodeMaps(), t));
  }

  lemma FourSent(sent: seq<bool>, w: seq<bool>, a: seq<bool>, b: seq<bool>, c: seq<bool>)
    ensures sent + w + a + b + c == sent + (w + a + b + c)
  {
  }

  /** The extra bits: what is left of v after the base of its code. */
  method SendExtra(out: Output, v: nat, code: nat, extra: nat, base: seq<nat>, ghost x: nat)
    requires out.Valid() && extra <= 16 && x < Pow2(extra)
    requires extra > 0 ==> code < |base| && base[code] <= v && x == v - base[code]
    modifies out`biBuf, out`biValid, out`pending, out`sent
    ensures out.Valid() && out.sent == old(out.sent) + ValueBits(x, extra)
  {
    hide Carries, ValueBits, Pow2;
    if extra != 0 {
      out.SendBits(v - base[code], extra);
    }
  }

  /** base_length leaves over what section 3.2.5 asks for. */
  lemma LenSent(m: Maps, t: Token)
    requires MapsOk(m) && TokenOk(t) && t.Match?
    ensures var c := LenCodeOf(m, t);
            && c < LENGTH_CODES && EXTRA_LBITS[c] == LENGTH_EXTRA[c] <= 16 && LenExtra(m, t) < Pow2(EXTRA_LBITS[c])
            && (EXTRA_LBITS[c] > 0 ==> m.baseLength[c] <= t.len - MIN_MATCH && LenExtra(m, t) == t.len - MIN_MATCH - m.baseLength[c])
  {
    hide Pow2;
    LenExtraFits(m, t);
    assert EXTRA_LBITS == LENGTH_EXTRA;
  }

  lemma DistSent(m: Maps, t: Token)
    requires MapsOk(m) && TokenOk(t) && t.Match?
    ensures var c := DistCodeOf(m, t);
            && c < D_CODES && EXTRA_DBITS[c] == DIST_EXTRA[c] <= 16 && DistExtra(m, t) < Pow2(EXTRA_DBITS[c])
            && m.baseDist[c] <= t.dist - 1 && DistExtra(m, t) == t.dist - 1 - m.baseDist[c]
  {
    hide Pow2;
    DistExtraFits(m, t);
    assert EXTRA_DBITS == DIST_EXTRA;
  }

  lemma FirstTokens(m: Maps, llens: seq<nat>, dlens: seq<nat>, toks: seq<Token>, n: nat)
    requires MapsOk(m) && TokensOk(toks) && CoversAll(m, llens, dlens, toks) && n < |toks|
    ensures TokensOk(toks[..n]) && CoversAll(m, llens, dlens, toks[..n])
    ensures TokensOk(toks[..n + 1]) && CoversAll(m, llens, dlens, toks[..n + 1]) && Covers(m, llens, dlens, toks[n])
    ensures TokensBits(m, llens, dlens, toks[..n + 1]) == TokensBits(m, llens, dlens, toks[..n]) + TokenBits(m, llens, dlens, toks[n])
  {
    hide MapsOk, Covers;
    assert toks[..n + 1][..n] == toks[..n];
  }

  /** Send the tokens of the block and its end, with the given codes. */
  method CompressBlock(s: BlockState, lfc: seq<nat>, ldl: seq<nat>, dfc: seq<nat>, ddl: seq<nat>,
                       ghost llens: seq<nat>, ghost dlens: seq<nat>)
    requires s.Shape() && MapsOk(s.CodeMaps()) && TokensOk(s.Tokens())
    requires CoversAll(s.CodeMaps(), llens, dlens, s.Tokens()) && TablesSend(lfc, ldl, dfc, ddl, llens, dlens)
    requires |llens| > END_BLOCK && llens[END_BLOCK] > 0
    modifies s.out`biBuf, s.out`biValid, s.out`pending, s.out`sent, s`lastEobLen
    ensures s.out.Valid() && s.out.sent == old(s.out.sent) + DataBits(s.CodeMaps(), llens, dlens, s.Tokens())
  {
    hide DescOk, LDesc, DDesc, BlDesc, Carries, Sends, Codeword, MapsOk, CoversAll, TablesSend, TokenBits, TokensBits, TokensOf,
         LengthTablesOk, DistTablesOk, TokensOk, TokenOk;
    ghost var m, toks, sent0 := s.CodeMaps(), s.Tokens(), s.out.sent;
    var lx := 0;
    NoTokens(m, llens, dlens, toks, sent0);
    while lx < s.lastLit
      invariant 0 <= lx <= s.lastLit && s.out.Valid() && TokensOk(toks[..lx]) && CoversAll(m, llens, dlens, toks[..lx])
      invariant s.out.sent == sent0 + TokensBits(m, llens, dlens, toks[..lx])
    {
      FirstTokens(m, llens, dlens, toks, lx);
      TokenAt(s.dBuf[..], s.lBuf[..], s.lastLit, lx, toks);
      SendToken(s, s.dBuf[lx], s.lBuf[lx], lfc, ldl, dfc, ddl, llens, dlens, toks[lx]);
      ConcatAssoc(sent0, TokensBits(m, llens, dlens, toks[..lx]), TokenBits(m, llens, dlens, toks[lx]));
      lx := lx + 1;
    }
    assert toks[..lx] == toks;
    EndSends(lfc, ldl, dfc, ddl, llens, dlens);
    SendCode(s.out, END_BLOCK, lfc, ldl, llens);
    ConcatAssoc(sent0, TokensBits(m, llens, dlens, toks), Codeword(llens, END_BLOCK));
    s.lastEobLen := ldl[END_BLOCK];
  }

  lemma NoTokens(m: Maps, llens: seq<nat>, dlens: seq<nat>, toks: seq<Token>, sent: seq<bool>)
    requires MapsOk(m) && TokensOk(toks) && CoversAll(m, llens, dlens, toks)
    ensures TokensOk(toks[..0]) && CoversAll(m, llens, dlens, toks[..0])
    ensures sent + TokensBits(m, llens, dlens, toks[..0]) == sent
  {
    hide MapsOk, Covers;
  }

  lemma TokenAt(d: seq<nat>, l: seq<byte>, n: nat, i: nat, toks: seq<Token>)
    requires i < n <= |d| && n <= |l| && toks == TokensOf(d, l, n) && TokensOk(toks[..i + 1])
    ensures toks[i] == FromBufs(d[i], l[i]) && TokenOk(toks[i])
  {
    assert toks[..i + 1][i] == toks[i];
  }

  lemma EndSends(lfc: seq<nat>, ldl: seq<nat>, dfc: seq<nat>, ddl: seq<nat>, llens: seq<nat>, dlens: seq<nat>)
    requires TablesSend(lfc, ldl, dfc, ddl, llens, dlens) && |llens| > END_BLOCK && llens[END_BLOCK] > 0
    ensures Sends(lfc, ldl, llens, END_BLOCK) && END_BLOCK < |ldl|
  {
    hide CodeFor;
  }

  // ---------- Stored blocks and alignment ----------

  /** copy_block, with its header: length and complement, then the bytes. */
  method CopyBlock(s: BlockState, window: array<byte>, start: nat, len: nat)
    requires s.out.Valid() && start + len <= window.Length && len <= 65535
    modifies s.out`biBuf, s.out`biValid, s.out`pending, s.out`sent, s`lastEobLen
    ensures s.out.Valid() && s.out.sent == old(s.out.sent) + StoredBody(Padding(|old(s.out.sent)|), window[start..start + len])
    ensures s.out.biValid == 0
  {
    hide Carries, ValueBits, BytesBits, Zeros, Padding;
    ghost var sent0, pad := s.out.sent, Zeros(Padding(|s.out.sent|));
    s.out.BiWindup();
    s.lastEobLen := 8;
    s.out.PutShort(len);
    s.out.PutShort(65535 - len);
    ghost var sent1 := s.out.sent;
    var i := 0;
    NoBytes(sent1, window[start..start]);
    while i < len
      invariant 0 <= i <= len && s.out.Valid() && s.out.biValid == 0
      invariant s.out.sent == sent1 + BytesBits(window[start..start + i])
    {
      s.out.PutByte(window[start + i]);
      assert window[start..start + i + 1] == window[start..start + i] + [window[start + i]];
      AppendByte(window[start..start + i], window[start + i]);
      ConcatAssoc(sent1, BytesBits(window[start..start + i]), ValueBits(window[start + i], 8));
      i := i + 1;
    }
    FiveSent(sent0, pad, ValueBits(len, 16), ValueBits(65535 - len, 16), BytesBits(window[start..start + len]));
  }

  lemma NoBytes(sent: seq<bool>, b: seq<byte>)
    requires b == []
    ensures sent + BytesBits(b) == sent
  {
  }

  lemma FiveSent(sent: seq<bool>, a: seq<bool>, b: seq<bool>, c: seq<bool>, d: seq<bool>)
    ensures sent + a + b + c + d == sent + (a + (b + (c + d)))
  {
  }

  /** _tr_stored_block. */
  method StoreBlock(s: BlockState, window: array<byte>, start: nat, len: nat, eof: bool)
    requires s.out.Valid() && start + len <= window.Length && len <= 65535
    modifies s.out`biBuf, s.out`biValid, s.out`pending, s.out`sent, s`lastEobLen
    ensures s.out.Valid() && s.out.biValid == 0
    ensures s.out.sent == old(s.out.sent) + StoredBits(Padding(|old(s.out.sent)| + 3), window[start..start + len], eof)
  {
    hide Carries, ValueBits, StoredBody, Padding, Pow2;
    ghost var sent0 := s.out.sent;
    Pow2Values();
    s.out.SendBits(STORED_BLOCK * 2 + Eof(eof), 3);
    CopyBlock(s, window, start, len);
    ConcatAssoc(sent0, TypeBits(STORED_BLOCK, eof), StoredBody(Padding(|sent0| + 3), window[start..start + len]));
  }

  /** _tr_align: an empty static block, and a second one if behind the last code before it a decoder would
      not find nine bits among the whole bytes (the end of block code was lastEobLen bits). */
  method Align(s: BlockState) returns (ghost twice: bool)
    requires s.Shape()
    modifies s.out`biBuf, s.out`biValid, s.out`pending, s.out`sent, s`lastEobLen
    ensures s.out.Valid() && s.out.biValid <= 7
    ensures s.out.sent == old(s.out.sent) + AlignBits() + if twice then AlignBits() else []
    ensures twice <==> 1 + old(s.lastEobLen) + 10 - (|old(s.out.sent)| + 10) % 8 < 9
    ensures 1 + old(s.lastEobLen) + |s.out.sent| - s.out.biValid - |old(s.out.sent)| >= 9
  {
    hide AlignBits, DescOk, LDesc, DDesc, BlDesc, Carries, Sends, Codeword, ValueBits, LengthTablesOk, DistTablesOk, Pow2, FixedLit;
    Pow2Values();
    ghost var sent0 := s.out.sent;
    AlignLength();
    SendEmpty(s);
    s.out.BiFlush();
    SentLength(s.out);
    twice := 1 + s.lastEobLen + 10 - s.out.biValid < 9;
    if 1 + s.lastEobLen + 10 - s.out.biValid < 9 {
      SendEmpty(s);
      s.out.BiFlush();
    } else {
      assert sent0 + AlignBits() + [] == sent0 + AlignBits();
    }
    s.lastEobLen := 7;
  }

  lemma SentLength(out: Output)
    requires out.Valid()
    ensures |out.sent| == 8 * |out.delivered + out.pending| + out.biValid
  {
    CarryLength(out.delivered + out.pending, out.biBuf, out.biValid, out.sent);
  }

  method SendEmpty(s: BlockState)
    requires s.Shape()
    modifies s.out`biBuf, s.out`biValid, s.out`pending, s.out`sent
    ensures s.out.Valid() && s.out.sent == old(s.out.sent) + AlignBits()
  {
    hide DescOk, LDesc, DDesc, BlDesc, Carries, Sends, Codeword, ValueBits, LengthTablesOk, DistTablesOk, Pow2, FixedLit;
    Pow2Values();
    ghost var sent0 := s.out.sent;
    s.out.SendBits(STATIC_TREES * 2, 3);
    SendCode(s.out, END_BLOCK, s.tables.ltreeFc, s.tables.ltreeDl, FixedLit());
    ConcatAssoc(sent0, TypeBits(STATIC_TREES, false), Codeword(FixedLit(), END_BLOCK));
  }

  // ---------- _tr_flush_block ----------

  /** Which encoding takes fewest bytes, stored blocks being preferred, then static codes. */
  function Best(optLen: int, staticLen: int, storable: bool, storedLen: nat): nat
  {
    var optLenb, staticLenb := (optLen + 3 + 7) / 8, (staticLen + 3 + 7) / 8;
    if storable && storedLen + 4 <= (if staticLenb <= optLenb then staticLenb else optLenb) then STORED_BLOCK
    else if staticLenb <= optLenb then STATIC_TREES
    else DYN_TREES
  }

  /** The text of the block can be taken from the window. */
  ghost predicate BufferOk(window: seq<byte>, start: int, len: nat, before: seq<byte>, toks: seq<Token>)
  {
    start >= 0 ==> start + len <= |window| && len <= 65535 && Text(before, toks) == before + window[start..start + len]
  }

  /** The bits of the tokens in a dynamic block with the codes c, and in a static block. */
  ghost predicate Sized(m: Maps, toks: seq<Token>, c: DynCode, optLen: int, staticLen: int, eof: bool)
  {
    && MapsOk(m) && TokensOk(toks) && CoversAll(m, FixedLit(), FixedDist(), toks)
    && CoversAll(m, c.llens, c.dlens, toks) && HeaderOk(c.llens, c.dlens, c.cl, c.n)
    && |DynBlockBits(m, c.llens, c.dlens, c.cl, c.n, toks, eof)| == 3 + optLen
    && |StaticBlockBits(m, toks, eof)| == 3 + staticLen
  }

  /** A flushed block: it is the encoding chosen and decodes to the text of its tokens; the sizes
      compared are those of the encodings. */
  ghost predicate Flushed(block: seq<bool>, kind: nat, c: DynCode, optLen: int, staticLen: int, m: Maps, toks: seq<Token>,
                          wsize: nat, pos: nat, before: seq<byte>, eof: bool)
  {
    && Sized(m, toks, c, optLen, staticLen, eof)
    && Encodes(block, wsize, pos, before, eof, Text(before, toks))
    && (kind == STATIC_TREES ==> block == StaticBlockBits(m, toks, eof))
    && (kind == DYN_TREES ==> block == DynBlockBits(m, c.llens, c.dlens, c.cl, c.n, toks, eof))
    && (kind == STORED_BLOCK ==> StoresText(block, pos, before, toks, eof))
  }

  ghost predicate StoresText(block: seq<bool>, pos: nat, before: seq<byte>, toks: seq<Token>, eof: bool)
  {
    exists text: seq<byte> :: |text| <= 65535 && Text(before, toks) == before + text && block == StoredBits(Padding(pos + 3), text, eof)
  }

  lemma ReadySized(m: Maps, toks: seq<Token>, c: DynCode, optLen: int, staticLen: int, eof: bool)
    requires TreesReady(m, toks, c, optLen, staticLen)
    ensures Sized(m, toks, c, optLen, staticLen, eof)
  {
    hide HeaderOk, HeaderBits, DataBits, CoversAll, MapsOk, FixedLit, FixedDist;
  }

  function Bytes(bits: nat): nat
  {
    (bits + 7) / 8
  }

  lemma StoresSame(block: seq<bool>, pos: nat, before: seq<byte>, toks: seq<Token>, eof: bool, text: seq<byte>)
    requires StoresText(block, pos, before, toks, eof) && Text(before, toks) == before + text
    ensures |text| <= 65535 && block == StoredBits(Padding(pos + 3), text, eof)
  {
    hide Text, StoredBits;
    var t: seq<byte> :| |t| <= 65535 && Text(before, toks) == before + t && block == StoredBits(Padding(pos + 3), t, eof);
    assert t == (before + t)[|before|..] == (before + text)[|before|..] == text;
  }

  /** The choice: a coded block takes no more bytes than the other coded block and fewer bits than
      the stored one; a stored block exceeds a coded one by at most 17 bits. */
  lemma NearlySmallest(block: seq<bool>, kind: nat, c: DynCode, optLen: int, staticLen: int, m: Maps, toks: seq<Token>,
                       wsize: nat, pos: nat, before: seq<byte>, eof: bool, storable: bool, text: seq<byte>)
    requires Flushed(block, kind, c, optLen, staticLen, m, toks, wsize, pos, before, eof)
    requires kind == Best(optLen, staticLen, storable, |text|)
    requires storable ==> |text| <= 65535 && Text(before, toks) == before + text
    ensures var dyn, fixed := |DynBlockBits(m, c.llens, c.dlens, c.cl, c.n, toks, eof)|, |StaticBlockBits(m, toks, eof)|;
            if kind == STORED_BLOCK then
              |block| <= dyn + 17 && |block| <= fixed + 17
            else
              && Bytes(|block|) <= Bytes(dyn) && Bytes(|block|) <= Bytes(fixed)
              && (storable ==> |block| < |StoredBits(Padding(pos + 3), text, eof)|)
  {
    hide HeaderOk, CoversAll, MapsOk, FixedLit, FixedDist, DynBlockBits, StaticBlockBits, Encodes, Text, StoresText, Padding, ValueBits;
    if kind == STORED_BLOCK {
      StoresSame(block, pos, before, toks, eof, text);
    }
  }

  lemma FlushedDyn(m: Maps, toks: seq<Token>, c: DynCode, optLen: int, staticLen: int, eof: bool,
                   wsize: nat, pos: nat, before: seq<byte>) returns (block: seq<bool>)
    requires TreesReady(m, toks, c, optLen, staticLen) && AllReach(before, toks, wsize)
    ensures block == TypeBits(DYN_TREES, eof) + (HeaderBits(c.llens, c.dlens, c.cl, c.n) + DataBits(m, c.llens, c.dlens, toks))
    ensures Flushed(block, DYN_TREES, c, optLen, staticLen, m, toks, wsize, pos, before, eof)
  {
    hide HeaderOk, HeaderBits, DataBits, CoversAll, AllReach, Encodes, TypeBits, Text, MapsOk, FixedLit, FixedDist;
    DynBlock(m, c.llens, c.dlens, c.cl, c.n, toks, eof, wsize, pos, before);
    ReadySized(m, toks, c, optLen, staticLen, eof);
    block := DynBlockBits(m, c.llens, c.dlens, c.cl, c.n, toks, eof);
  }

  lemma FlushedStatic(m: Maps, toks: seq<Token>, c: DynCode, optLen: int, staticLen: int, eof: bool,
                      wsize: nat, pos: nat, before: seq<byte>) returns (block: seq<bool>)
    requires TreesReady(m, toks, c, optLen, staticLen) && AllReach(before, toks, wsize)
    ensures block == TypeBits(STATIC_TREES, eof) + DataBits(m, FixedLit(), FixedDist(), toks)
    ensures Flushed(block, STATIC_TREES, c, optLen, staticLen, m, toks, wsize, pos, before, eof)
  {
    hide HeaderOk, HeaderBits, DataBits, CoversAll, AllReach, Encodes, TypeBits, Text, MapsOk, FixedLit, FixedDist;
    StaticBlock(m, toks, eof, wsize, pos, before);
    ReadySized(m, toks, c, optLen, staticLen, eof);
    block := StaticBlockBits(m, toks, eof);
  }

  lemma FlushedStored(m: Maps, toks: seq<Token>, c: DynCode, optLen: int, staticLen: int, eof: bool,
                      wsize: nat, pos: nat, before: seq<byte>, text: seq<byte>)
    requires TreesReady(m, toks, c, optLen, staticLen) && |text| <= 65535 && Text(before, toks) == before + text
    ensures Flushed(StoredBits(Padding(pos + 3), text, eof), STORED_BLOCK, c, optLen, staticLen, m, toks, wsize, pos, before, eof)
  {
    hide HeaderOk, HeaderBits, DataBits, CoversAll, Encodes, StoredBits, Text, MapsOk, Padding, TreesReady, Sized;
    StoredBlock(text, eof, wsize, pos, before);
    ReadySized(m, toks, c, optLen, staticLen, eof);
  }

  /** Padding depends on the position within a byte only. */
  lemma SamePadding(a: nat, b: nat)
    requires a >= b && (a - b) % 8 == 0
    ensures Padding(a + 3) == Padding(b + 3)
  {
    assert (a + 3) % 8 == (b + 3) % 8;
  }

  /** Determine the best encoding for the current block and send it. The window holds the text of
      the block from blockStart on, unless blockStart is negative; before is the text of the
      blocks before. */
  method FlushBlock(s: BlockState, window: array<byte>, blockStart: int, storedLen: nat, eof: bool,
                    ghost wsize: nat, ghost start: nat, ghost before: seq<byte>)
      returns (ghost block: seq<bool>, kind: nat, optLen: int, staticLen: int, ghost c: DynCode)
    requires s.Valid() && AllReach(before, s.Tokens(), wsize) && BufferOk(window[..], blockStart, storedLen, before, s.Tokens())
    requires start <= |s.out.sent| && start % 8 == 0
    requires window != s.lBuf
    modifies s.st, s.st.heap, s.st.depth, s.st.blCount, s.l`maxCode, s.l.fc, s.l.dl, s.d`maxCode, s.d.fc, s.d.dl
    modifies s.bl`maxCode, s.bl.fc, s.bl.dl, s.out`biBuf, s.out`biValid, s.out`pending, s.out`sent, s`lastEobLen, s`lastLit
    ensures s.Valid() && s.Tokens() == []
    ensures kind == Best(optLen, staticLen, blockStart >= 0, storedLen)
    ensures Flushed(block, kind, c, optLen, staticLen, s.CodeMaps(), old(s.Tokens()), wsize, |old(s.out.sent)| - start, before, eof)
    ensures s.out.sent == old(s.out.sent) + block + if eof then Zeros(Padding(|old(s.out.sent) + block|)) else []
    ensures eof ==> s.out.biValid == 0
  {
    hide DescOk, LDesc, DDesc, BlDesc, Carries, Sends, ValueBits, LengthTablesOk, DistTablesOk, Counting, TreesReady, TreesHold,
         HeaderOk, HeaderBits, DataBits, CoversAll, AllReach, Encodes, MapsOk, FixedLit, FixedDist, TokensOf, Flushed, Text,
         StoredBits, Padding, Zeros, BufferOk;
    ghost var m, toks, sent0 := s.CodeMaps(), s.Tokens(), s.out.sent;
    var maxBlIndex;
    maxBlIndex, c := BuildTrees(s);
    optLen, staticLen := s.st.optLen, s.st.staticLen;
    kind := Best(optLen, staticLen, blockStart >= 0, storedLen);
    block := SendBlock(s, window, blockStart, storedLen, eof, kind, maxBlIndex, c, optLen, staticLen, wsize, start, before, toks);
    s.InitBlock();
    if eof {
      s.out.BiWindup();
    } else {
      assert sent0 + block + [] == sent0 + block;
    }
  }

  /** Send the block in the chosen encoding. */
  method SendBlock(s: BlockState, window: array<byte>, blockStart: int, storedLen: nat, eof: bool, kind: nat, maxBlIndex: nat,
                   ghost c: DynCode, ghost optLen: int, ghost staticLen: int,
                   ghost wsize: nat, ghost start: nat, ghost before: seq<byte>, ghost toks: seq<Token>)
      returns (ghost block: seq<bool>)
    requires s.Shape() && TreesHold(s, c) && c.n == maxBlIndex + 1 && toks == s.Tokens()
    requires TreesReady(s.CodeMaps(), toks, c, optLen, staticLen)
    requires AllReach(before, toks, wsize) && BufferOk(window[..], blockStart, storedLen, before, toks)
    requires start <= |s.out.sent| && start % 8 == 0
    requires kind == Best(optLen, staticLen, blockStart >= 0, storedLen)
    modifies s.out`biBuf, s.out`biValid, s.out`pending, s.out`sent, s`lastEobLen
    ensures s.Shape() && s.out.sent == old(s.out.sent) + block
    ensures Flushed(block, kind, c, optLen, staticLen, s.CodeMaps(), toks, wsize, |old(s.out.sent)| - start, before, eof)
  {
    hide DescOk, LDesc, DDesc, BlDesc, Carries, Sends, ValueBits, LengthTablesOk, DistTablesOk, TreesReady, TreesHold,
         HeaderOk, HeaderBits, DataBits, CoversAll, AllReach, Encodes, MapsOk, FixedLit, FixedDist, TokensOf, Flushed, Text,
         StoredBits, Padding, Zeros, Pow2;
    ghost var m, sent0 := s.CodeMaps(), s.out.sent;
    ghost var pos := |sent0| - start;
    if kind == STORED_BLOCK {
      block := StoredBits(Padding(|sent0| + 3), window[blockStart..blockStart + storedLen], eof);
      StoreBlock(s, window, blockStart, storedLen, eof);
      assert window[..][blockStart..blockStart + storedLen] == window[blockStart..blockStart + storedLen];
      SamePadding(|sent0|, pos);
      FlushedStored(m, toks, c, optLen, staticLen, eof, wsize, pos, before, window[blockStart..blockStart + storedLen]);
    } else if kind == STATIC_TREES {
      block := FlushedStatic(m, toks, c, optLen, staticLen, eof, wsize, pos, before);
      SendStatic(s, eof, c, optLen, staticLen);
    } else {
      block := FlushedDyn(m, toks, c, optLen, staticLen, eof, wsize, pos, before);
      SendDyn(s, eof, maxBlIndex, c, optLen, staticLen);
    }
  }

  method SendStatic(s: BlockState, eof: bool, ghost c: DynCode, ghost optLen: int, ghost staticLen: int)
    requires s.Shape() && TreesReady(s.CodeMaps(), s.Tokens(), c, optLen, staticLen)
    modifies s.out`biBuf, s.out`biValid, s.out`pending, s.out`sent, s`lastEobLen
    ensures s.Shape()
    ensures s.out.sent == old(s.out.sent) + (TypeBits(STATIC_TREES, eof) + DataBits(s.CodeMaps(), FixedLit(), FixedDist(), s.Tokens()))
  {
    hide DescOk, LDesc, DDesc, BlDesc, Carries, Sends, ValueBits, LengthTablesOk, DistTablesOk,
         HeaderOk, HeaderBits, DataBits, CoversAll, MapsOk, FixedLit, FixedDist, TokensOf, Pow2;
    Pow2Values();
    ghost var sent0 := s.out.sent;
    FixedLitParts();
    s.out.SendBits(STATIC_TREES * 2 + Eof(eof), 3);
    CompressBlock(s, s.tables.ltreeFc, s.tables.ltreeDl, s.tables.dtreeFc, s.tables.dtreeDl, FixedLit(), FixedDist());
    ConcatAssoc(sent0, TypeBits(STATIC_TREES, eof), DataBits(s.CodeMaps(), FixedLit(), FixedDist(), s.Tokens()));
  }

  method SendDyn(s: BlockState, eof: bool, maxBlIndex: nat, ghost c: DynCode, ghost optLen: int, ghost staticLen: int)
    requires s.Shape() && TreesHold(s, c) && c.n == maxBlIndex + 1
    requires TreesReady(s.CodeMaps(), s.Tokens(), c, optLen, staticLen)
    modifies s.out`biBuf, s.out`biValid, s.out`pending, s.out`sent, s`lastEobLen
    ensures s.Shape()
    ensures s.out.sent == old(s.out.sent) + (TypeBits(DYN_TREES, eof) +
            (HeaderBits(c.llens, c.dlens, c.cl, c.n) + DataBits(s.CodeMaps(), c.llens, c.dlens, s.Tokens())))
  {
    hide DescOk, LDesc, DDesc, BlDesc, Carries, Sends, ValueBits, LengthTablesOk, DistTablesOk,
         HeaderOk, HeaderBits, DataBits, CoversAll, MapsOk, FixedLit, FixedDist, TokensOf, Pow2;
    Pow2Values();
    ghost var sent0 := s.out.sent;
    HeaderShape(c);
    s.out.SendBits(DYN_TREES * 2 + Eof(eof), 3);
    SendAllTrees(s, s.l.maxCode + 1, s.d.maxCode + 1, maxBlIndex + 1, c);
    CompressBlock(s, s.l.fc[..], s.l.dl[..], s.d.fc[..], s.d.dl[..], c.llens, c.dlens);
    ThreeSent(sent0, TypeBits(DYN_TREES, eof), HeaderBits(c.llens, c.dlens, c.cl, c.n),
              DataBits(s.CodeMaps(), c.llens, c.dlens, s.Tokens()));
  }

  lemma HeaderShape(c: DynCode)
    requires HeaderOk(c.llens, c.dlens, c.cl, c.n)
    ensures |c.cl| == BL_CODES && 4 <= c.n <= BL_CODES && |c.llens| >= 257 && |c.dlens| >= 1
  {
  }

  lemma ThreeSent(sent: seq<bool>, a: seq<bool>, b: seq<bool>, c: seq<bool>)
    ensures sent + a + b + c == sent + (a + (b + c))
  {
  }
}
