/** The trees.c half of the compression state: tallying literals and matches, and flushing a block. */
module Blocks {
  import opened Sums
  import opened Bits
  import opened HuffmanCode
  import opened CanonicalCodes
  import opened Inflate
  import opened GenCodes
  import opened StaticTables
  import opened BitLengths
  import opened BuildTree
  import opened BitWriter
  import opened CodeLengths
  import opened Tallies
  import opened Tokens
  import opened BlockSizes
  import opened DynHeader
  import opened BlockFormat

  /** The tokens in the first n entries of d_buf and l_buf. */
  function TokensOf(d: seq<nat>, l: seq<byte>, n: nat): (toks: seq<Token>)
    requires n <= |d| && n <= |l|
    ensures |toks| == n
  {
    seq(n, i requires 0 <= i < n => FromBufs(d[i], l[i]))
  }

  lemma TokensOfNext(d: seq<nat>, l: seq<byte>, n: nat, dist: nat, lc: byte)
    requires n < |d| && n < |l|
    ensures TokensOf(d[n := dist], l[n := lc], n + 1) == TokensOf(d, l, n) + [FromBufs(dist, lc)]
  {
  }

  /** Frequencies of a block, ready for the next token. */
  ghost predicate Counting(m: Maps, toks: seq<Token>, lf: seq<nat>, df: seq<nat>, blf: seq<nat>)
  {
    && MapsOk(m) && TokensOk(toks)
    && lf == LitFreqs(m, toks) && df == DistFreqs(m, toks) && blf == Zeroes(BL_CODES)
  }

  lemma CountingLit(m: Maps, toks: seq<Token>, lf: seq<nat>, df: seq<nat>, blf: seq<nat>, c: byte)
    requires Counting(m, toks, lf, df, blf)
    ensures |lf| == L_CODES && lf[c] <= |toks| + 1
    ensures Counting(m, toks + [Lit(c)], lf[c := lf[c] + 1], df, blf)
  {
    hide MapsOk, Tally, LitSyms, DistSyms;
    TokenSymsWithin(m, toks);
    SymsNext(m, toks, Lit(c));
    LitFreqsNext(m, toks, Lit(c));
  }

  lemma LitFreqsNext(m: Maps, toks: seq<Token>, t: Token)
    requires MapsOk(m) && TokensOk(toks) && TokenOk(t)
    ensures TokensOk(toks + [t])
    ensures var f, s := LitFreqs(m, toks), LitSym(m, t);
            f[s] <= |toks| + 1 && LitFreqs(m, toks + [t]) == f[s := f[s] + 1]
    ensures t.Match? ==>
              var f, s := DistFreqs(m, toks), DistCodeOf(m, t);
              f[s] <= |toks| && DistFreqs(m, toks + [t]) == f[s := f[s] + 1]
    ensures t.Lit? ==> DistFreqs(m, toks + [t]) == DistFreqs(m, toks)
  {
    hide MapsOk, Tally, LitSyms, DistSyms;
    TokenSymsWithin(m, toks);
    SymsNext(m, toks, t);
    var a := [END_BLOCK] + LitSyms(m, toks);
    assert [END_BLOCK] + LitSyms(m, toks + [t]) == a + [LitSym(m, t)];
    TallyNext(Zeroes(L_CODES), a, LitSym(m, t));
    TallyPositive(Zeroes(L_CODES), a, LitSym(m, t));
    if t.Match? {
      TallyNext(Zeroes(D_CODES), DistSyms(m, toks), DistCodeOf(m, t));
      TallyPositive(Zeroes(D_CODES), DistSyms(m, toks), DistCodeOf(m, t));
    }
  }

  lemma CountingMatch(m: Maps, toks: seq<Token>, lf: seq<nat>, df: seq<nat>, blf: seq<nat>, t: Token)
    requires Counting(m, toks, lf, df, blf) && TokenOk(t) && t.Match?
    ensures |lf| == L_CODES && |df| == D_CODES
    ensures var s, d := LitSym(m, t), DistCodeOf(m, t);
            && lf[s] <= |toks| + 1 && df[d] <= |toks|
            && Counting(m, toks + [t], lf[s := lf[s] + 1], df[d := df[d] + 1], blf)
  {
    hide MapsOk, Tally, LitSyms, DistSyms;
    LitFreqsNext(m, toks, t);
  }

  /** After init_block. */
  lemma CountingNone(m: Maps)
    requires MapsOk(m)
    ensures Counting(m, [], Zeroes(L_CODES)[END_BLOCK := 1], Zeroes(D_CODES), Zeroes(BL_CODES))
  {
    hide MapsOk;
    TokenSymsWithin(m, []);
    assert [END_BLOCK] + LitSyms(m, []) == [END_BLOCK];
    TallyOne(Zeroes(L_CODES), END_BLOCK);
    TallyNone(Zeroes(D_CODES));
  }

  lemma FreqSums(m: Maps, toks: seq<Token>, lf: seq<nat>, df: seq<nat>, blf: seq<nat>)
    requires Counting(m, toks, lf, df, blf)
    ensures |lf| == L_CODES && |df| == D_CODES && |blf| == BL_CODES
    ensures Sum(lf) == |toks| + 1 && Sum(df) <= |toks|
  {
    hide MapsOk, Tally;
    TokenSymsWithin(m, toks);
    TallySum(Zeroes(L_CODES), [END_BLOCK] + LitSyms(m, toks));
    TallySum(Zeroes(D_CODES), DistSyms(m, toks));
    SumZero(Zeroes(L_CODES));
    SumZero(Zeroes(D_CODES));
  }

  /** The part of the arrays that is looked at sends the code. */
  ghost predicate SendsTo(fc: seq<nat>, dl: seq<nat>, lens: seq<nat>, n: nat)
  {
    forall x :: 0 <= x < |lens| && x < n && lens[x] > 0 ==> Sends(fc, dl, lens, x)
  }

  /** The codes for one block, as the arrays of the state hold them. */
  datatype DynCode = DynCode(llens: seq<nat>, dlens: seq<nat>, cl: seq<nat>, n: nat)

  ghost predicate TreesReady(m: Maps, toks: seq<Token>, c: DynCode, optLen: int, staticLen: int)
  {
    && MapsOk(m) && TokensOk(toks)
    && HeaderOk(c.llens, c.dlens, c.cl, c.n) && c.llens[END_BLOCK] > 0
    && CoversAll(m, c.llens, c.dlens, toks) && CoversAll(m, FixedLit(), FixedDist(), toks)
    && optLen == |HeaderBits(c.llens, c.dlens, c.cl, c.n)| + |DataBits(m, c.llens, c.dlens, toks)|
    && staticLen == |DataBits(m, FixedLit(), FixedDist(), toks)|
  }

  /** deflate_state, as far as trees.c uses it. */
  class BlockState {
    const st: TreeState
    const l: HuffTree
    const d: HuffTree
    const bl: HuffTree
    const out: Output
    const tables: Tables
    const dBuf: array<nat>
    const lBuf: array<byte>
    const litBufsize: nat
    var lastLit: nat
    var lastEobLen: nat

    ghost function CodeMaps(): Maps
    {
      Maps(tables.lenCode, tables.baseLength, tables.distCode, tables.baseDist)
    }

    /** No two parts share an array. */
    ghost predicate Separate()
    {
      && st.Apart(l) && st.Apart(d) && st.Apart(bl) && l.Beside(d) && l.Beside(bl) && d.Beside(bl)
      && dBuf != st.heap && dBuf != st.depth && dBuf != st.blCount && dBuf != l.fc && dBuf != l.dl
      && dBuf != d.fc && dBuf != d.dl && dBuf != bl.fc && dBuf != bl.dl
    }

    /** Everything but the contents of the current block. */
    ghost predicate Shape()
      reads this, out
    {
      && Separate() && lastLit < litBufsize
      && 4 <= litBufsize <= 32768 && dBuf.Length == lBuf.Length == litBufsize
      && l.desc == LDesc() && d.desc == DDesc() && bl.desc == BlDesc()
      && st.Valid() && l.Valid() && d.Valid() && bl.Valid() && out.Valid() && tables.Valid()
    }

    ghost function Tokens(): seq<Token>
      reads this`lastLit, dBuf, lBuf
      requires lastLit <= dBuf.Length && lastLit <= lBuf.Length
    {
      TokensOf(dBuf[..], lBuf[..], lastLit)
    }

    /** Between two tokens. */
    ghost predicate Valid()
      reads this, out, st, l.fc, d.fc, bl.fc, dBuf, lBuf
    {
      && Shape()
      && Counting(CodeMaps(), Tokens(), l.fc[..L_CODES], d.fc[..D_CODES], bl.fc[..BL_CODES])
      && st.optLen == 0 && st.staticLen == 0
    }

    /** _tr_init. */
    constructor (litBufsize: nat)
      requires 4 <= litBufsize <= 32768
      ensures Valid() && Tokens() == [] && this.litBufsize == litBufsize
      ensures out.sent == [] && out.delivered == [] && out.pending == [] && out.availOut == 0
      ensures fresh(out) && fresh(dBuf) && fresh(lBuf)
      ensures fresh(st) && fresh(st.heap) && fresh(st.depth) && fresh(st.blCount)
      ensures fresh(l) && fresh(l.fc) && fresh(l.dl) && fresh(d) && fresh(d.fc) && fresh(d.dl)
      ensures fresh(bl) && fresh(bl.fc) && fresh(bl.dl)
    {
      hide DescOk, MapsOk, Counting, LDesc, DDesc, BlDesc, Zeroes, LengthTablesOk, DistTablesOk, Sends, Carries;
      var st0, l0, d0, bl0 := NewTrees();
      st, l, d, bl := st0, l0, d0, bl0;
      out := new Output();
      tables := new Tables();
      dBuf := new nat[litBufsize](i => 0);
      lBuf := new byte[litBufsize](i => 0);
      this.litBufsize := litBufsize;
      lastLit, lastEobLen := 0, 8;
      new;
      DescSizes();
      InitBlock();
    }

    /** init_block: a new block without tokens. */
    method InitBlock()
      requires Shape()
      modifies l.fc, d.fc, bl.fc, st`optLen, st`staticLen, `lastLit
      ensures Valid() && Tokens() == []
    {
      hide DescOk, MapsOk, Counting, LDesc, DDesc, BlDesc, LengthTablesOk, DistTablesOk, Sends, Carries;
      DescSizes();
      TablesMaps(this);
      ClearFreqs(l.fc, L_CODES);
      ClearFreqs(d.fc, D_CODES);
      ClearFreqs(bl.fc, BL_CODES);
      l.fc[END_BLOCK] := 1;
      assert l.fc[..L_CODES] == Zeroes(L_CODES)[END_BLOCK := 1];
      st.optLen, st.staticLen := 0, 0;
      lastLit := 0;
      CountingNone(CodeMaps());
    }

    /** _tr_tally_lit: returns whether the block must be flushed. */
    method TallyLit(c: byte) returns (flush: bool)
      requires Valid() && lastLit < litBufsize - 1
      modifies dBuf, lBuf, l.fc, `lastLit
      ensures Valid() && Tokens() == old(Tokens()) + [Lit(c)]
      ensures flush <==> lastLit == litBufsize - 1
    {
      hide DescOk, MapsOk, Counting, LDesc, DDesc, BlDesc, LengthTablesOk, DistTablesOk, Sends, Carries;
      DescSizes();
      CountingLit(CodeMaps(), Tokens(), l.fc[..L_CODES], d.fc[..D_CODES], bl.fc[..BL_CODES], c);
      TokensOfNext(dBuf[..], lBuf[..], lastLit, 0, c);
      ghost var f := l.fc[..L_CODES];
      ghost var db, lb := dBuf[..], lBuf[..];
      dBuf[lastLit] := 0;
      lBuf[lastLit] := c;
      lastLit := lastLit + 1;
      l.fc[c] := (l.fc[c] + 1) % 0x1_0000;
      assert l.fc[..L_CODES] == f[c := f[c] + 1];
      assert dBuf[..] == db[lastLit - 1 := 0] && lBuf[..] == lb[lastLit - 1 := c];
      flush := lastLit == litBufsize - 1;
    }

    /** _tr_tally_dist: distance and length - MIN_MATCH. */
    method TallyDist(distance: nat, length: byte) returns (flush: bool)
      requires Valid() && lastLit < litBufsize - 1 && 1 <= distance <= 32768
      modifies dBuf, lBuf, l.fc, d.fc, `lastLit
      ensures Valid() && Tokens() == old(Tokens()) + [Match(length + MIN_MATCH, distance)]
      ensures flush <==> lastLit == litBufsize - 1
    {
      hide DescOk, MapsOk, Counting, LDesc, DDesc, BlDesc, LengthTablesOk, DistTablesOk, Sends, Carries, LengthBlock, DistBlock, DCode;
      DescSizes();
      TablesMaps(this);
      ghost var t := FromBufs(distance, length);
      CountingMatch(CodeMaps(), Tokens(), l.fc[..L_CODES], d.fc[..D_CODES], bl.fc[..BL_CODES], t);
      TokensOfNext(dBuf[..], lBuf[..], lastLit, distance, length);
      ghost var f, g := l.fc[..L_CODES], d.fc[..D_CODES];
      ghost var db, lb := dBuf[..], lBuf[..];
      dBuf[lastLit] := distance;
      lBuf[lastLit] := length;
      lastLit := lastLit + 1;
      var lsym, dsym := Symbols(tables, distance, length);
      l.fc[lsym] := (l.fc[lsym] + 1) % 0x1_0000;
      d.fc[dsym] := (d.fc[dsym] + 1) % 0x1_0000;
      assert l.fc[..L_CODES] == f[lsym := f[lsym] + 1];
      assert d.fc[..D_CODES] == g[dsym := g[dsym] + 1];
      assert dBuf[..] == db[lastLit - 1 := distance] && lBuf[..] == lb[lastLit - 1 := length];
      flush := lastLit == litBufsize - 1;
    }
  }

  /** The symbols of a match, by table look-up: _length_code and d_code. */
  method Symbols(tables: Tables, distance: nat, length: byte) returns (lsym: nat, dsym: nat)
    requires tables.Valid() && 1 <= distance <= 32768
    ensures var m, t := Maps(tables.lenCode, tables.baseLength, tables.distCode, tables.baseDist), Match(length + MIN_MATCH, distance);
            MapsOk(m) && lsym == LitSym(m, t) && dsym == DistCodeOf(m, t)
  {
    hide Sends, LengthBlock, DistBlock;
    var dist := distance - 1;
    lsym := tables.lenCode[length] + LITERALS + 1;
    dsym := if dist < 256 then tables.distCode[dist] else tables.distCode[256 + dist / 128];
  }

  method NewTrees() returns (st: TreeState, l: HuffTree, d: HuffTree, bl: HuffTree)
    ensures st.Valid() && l.Valid() && d.Valid() && bl.Valid()
    ensures l.desc == LDesc() && d.desc == DDesc() && bl.desc == BlDesc()
    ensures st.Apart(l) && st.Apart(d) && st.Apart(bl) && l.Beside(d) && l.Beside(bl) && d.Beside(bl)
    ensures fresh(st) && fresh(st.heap) && fresh(st.depth) && fresh(st.blCount)
    ensures fresh(l) && fresh(l.fc) && fresh(l.dl) && fresh(d) && fresh(d.fc) && fresh(d.dl)
    ensures fresh(bl) && fresh(bl.fc) && fresh(bl.dl)
  {
    hide DescOk, LDesc, DDesc, BlDesc;
    DescsOk();
    st := new TreeState();
    l := new HuffTree(LDesc());
    d := new HuffTree(DDesc());
    bl := new HuffTree(BlDesc());
  }

  /** Clear the first n frequencies. */
  method ClearFreqs(fc: array<nat>, n: nat)
    requires n <= fc.Length
    modifies fc
    ensures fc[..n] == Zeroes(n)
  {
    var i := 0;
    while i < n
      invariant 0 <= i <= n && forall x :: 0 <= x < i ==> fc[x] == 0
    {
      fc[i] := 0;
      i := i + 1;
    }
  }

  lemma DescSizes()
    ensures LDesc().elems == L_CODES && DDesc().elems == D_CODES && BlDesc().elems == BL_CODES
  {
  }

  lemma ValidSizes(s: BlockState)
    requires s.Valid()
    ensures s.lastLit < s.litBufsize == s.dBuf.Length == s.lBuf.Length && 4 <= s.litBufsize <= 32768 && s.out.Valid()
  {
  }

  lemma TablesMaps(s: BlockState)
    requires s.tables.Valid()
    ensures MapsOk(s.CodeMaps())
  {
  }
}
