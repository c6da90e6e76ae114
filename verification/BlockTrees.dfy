/** build_bl_tree and the three trees of a block. */
module BlockTrees {
  import opened Sums
  import opened Bits
  import opened HuffmanCode
  import opened CanonicalCodes
  import opened Inflate
  import opened GenCodes
  import opened StaticTables
  import opened BitLengths
  import BuildTree
  import opened BitWriter
  import opened CodeLengths
  import opened Tallies
  import opened Tokens
  import opened BlockSizes
  import opened DynHeader
  import opened BlockFormat
  import opened Blocks

  // ---------- Some length is always sent as itself ----------

  ghost predicate AllZero(s: seq<nat>)
  {
    forall i :: 0 <= i < |s| ==> s[i] == 0
  }

  /** Repetition codes alone make zeros only. */
  lemma {:induction false} HighZero(acc: seq<nat>, cs: seq<ClCode>)
    requires AllZero(acc) && Sound(acc, cs) && forall i :: 0 <= i < |cs| ==> cs[i].sym >= REP_3_6
    requires AllClOk(cs)
    ensures AllZero(Expand(acc, cs))
    decreases |cs|
  {
    if cs != [] {
      assert ClOk(cs[0]);
      HighZero(CodeLengths.Expand1(acc, cs[0]), cs[1..]);
    }
  }

  lemma NoLowSymbol(lens: seq<nat>)
    requires Lengths(lens)
    ensures (forall i :: 0 <= i < |TreeCodes(lens)| ==> TreeCodes(lens)[i].sym >= REP_3_6) ==> AllZero(lens)
  {
    hide TreeCodes, ClOk, Lengths;
    TreeCodesExpand(lens, []);
    assert [] + lens == lens;
    if forall i :: 0 <= i < |TreeCodes(lens)| ==> TreeCodes(lens)[i].sym >= REP_3_6 {
      HighZero([], TreeCodes(lens));
    }
  }

  lemma LowSymbol(lens: seq<nat>, x: nat) returns (i: nat)
    requires Lengths(lens) && x < |lens| && lens[x] > 0
    ensures i < |TreeCodes(lens)| && TreeCodes(lens)[i].sym < REP_3_6
  {
    hide TreeCodes, Lengths;
    NoLowSymbol(lens);
    i :| 0 <= i < |TreeCodes(lens)| && TreeCodes(lens)[i].sym < REP_3_6;
  }

  lemma LowRanks(x: nat)
    requires x < REP_3_6
    ensures BlRank(x) >= 3 && BlOrder(BlRank(x)) == x
  {
  }

  /** The index in bl_order of the last length to send: at least four are sent, none missed, and no
      fewer would do. */
  method LastBlIndex(bl: HuffTree, ghost cl: seq<nat>, ghost x: nat) returns (maxBlIndex: nat)
    requires bl.Valid() && bl.desc.elems == BL_CODES && cl == bl.dl[..BL_CODES]
    requires x < REP_3_6 && cl[x] > 0
    ensures EnoughSent(cl, maxBlIndex + 1) && forall n :: EnoughSent(cl, n) ==> maxBlIndex < n
  {
    hide DescOk, BlOrder, BlRank;
    LowRanks(x);
    maxBlIndex := BL_CODES - 1;
    while maxBlIndex >= 3
      invariant 2 <= maxBlIndex < BL_CODES && BlRank(x) <= maxBlIndex
      invariant BlOrder(BlRank(x)) == x && BlRank(x) >= 3
      invariant forall i :: maxBlIndex < i < BL_CODES ==> cl[BlOrder(i)] == 0
    {
      if bl.dl[BlOrder(maxBlIndex)] != 0 {
        break;
      }
      assert cl[BlOrder(maxBlIndex)] == 0;
      maxBlIndex := maxBlIndex - 1;
    }
    assert cl[BlOrder(maxBlIndex)] > 0;
  }

  // ---------- The bit length tree ----------

  lemma {:induction false} CostZero(syms: seq<nat>, costs: seq<nat>)
    requires Within(syms, |costs|) && forall x :: 0 <= x < |costs| ==> costs[x] == 0
    ensures CostOf(syms, costs) == 0
  {
    if syms != [] {
      CostZero(syms[..|syms| - 1], costs);
    }
  }

  /** The frequencies after both scans. */
  lemma BothScanned(f0: seq<nat>, f1: seq<nat>, f2: seq<nat>, llens: seq<nat>, dlens: seq<nat>)
    requires |f0| >= BL_CODES && f0[..BL_CODES] == Zeroes(BL_CODES) && Lengths(llens) && Lengths(dlens)
    requires Counted(f1, f0, TreeCodes(llens)) && Counted(f2, f1, TreeCodes(dlens))
    ensures Within(Syms(TreeCodes(llens)) + Syms(TreeCodes(dlens)), BL_CODES)
    ensures |f2| == |f0| && f2[..BL_CODES] == ClFreqs(llens, dlens)
    ensures Sum(ClFreqs(llens, dlens)) <= |llens| + |dlens|
  {
    hide TreeCodes, ClOk, Lengths, Sound, Expand, Tally;
    var a, b := Syms(TreeCodes(llens)), Syms(TreeCodes(dlens));
    TreeCodesExpand(llens, []);
    TreeCodesExpand(dlens, []);
    SymsWithin(TreeCodes(llens));
    SymsWithin(TreeCodes(dlens));
    TallyPrefix(f0, a, BL_CODES);
    TallyPrefix(f1, b, BL_CODES);
    TallyAppend(Zeroes(BL_CODES), a, b);
    TallySum(Zeroes(BL_CODES), a + b);
    SumZero(Zeroes(BL_CODES));
  }

  lemma ScannedOnce(f0: seq<nat>, f1: seq<nat>, llens: seq<nat>, n: nat)
    requires |f0| >= BL_CODES && f0[..BL_CODES] == Zeroes(BL_CODES) && Lengths(llens) && |llens| <= n
    requires Counted(f1, f0, TreeCodes(llens))
    ensures |f1| == |f0| && forall x :: 0 <= x < BL_CODES ==> f1[x] <= n
  {
    hide TreeCodes, ClOk, Lengths, Sound, Expand, Tally;
    TreeCodesExpand(llens, []);
    CountSize(f1, f0, TreeCodes(llens));
    forall x | 0 <= x < BL_CODES ensures f1[x] <= n {
      CountBound(f1, f0, TreeCodes(llens), x);
      assert f0[..BL_CODES][x] == 0;
    }
  }

  /** Frequencies of the bit length symbols, from both trees. */
  method ScanBoth(s: BlockState, ghost llens: seq<nat>, ghost dlens: seq<nat>)
    requires s.Shape()
    requires END_BLOCK <= s.l.maxCode < L_CODES && 0 <= s.d.maxCode < D_CODES
    requires llens == s.l.dl[..s.l.maxCode + 1] && dlens == s.d.dl[..s.d.maxCode + 1]
    requires Lengths(llens) && Lengths(dlens) && s.bl.fc[..BL_CODES] == Zeroes(BL_CODES)
    modifies s.l.dl, s.d.dl, s.bl.fc
    ensures s.l.dl[..s.l.maxCode + 1] == llens && s.l.dl[s.l.maxCode + 1] == 0xffff
    ensures s.d.dl[..s.d.maxCode + 1] == dlens && s.d.dl[s.d.maxCode + 1] == 0xffff
    ensures Within(Syms(TreeCodes(llens)) + Syms(TreeCodes(dlens)), BL_CODES)
    ensures s.bl.fc[..BL_CODES] == ClFreqs(llens, dlens) && Sum(ClFreqs(llens, dlens)) <= L_CODES + D_CODES
  {
    hide TreeCodes, Lengths, Counted, DescOk, LDesc, DDesc, BlDesc, ClFreqs, Zeroes, Carries, LengthTablesOk, DistTablesOk, Sends;
    DescSizes();
    ghost var f0 := s.bl.fc[..];
    assert f0[..BL_CODES] == Zeroes(BL_CODES);
    ZeroAt(f0);
    ScanTree(s.l, s.bl, s.l.maxCode);
    ghost var f1 := s.bl.fc[..];
    ScannedOnce(f0, f1, llens, L_CODES);
    ScanTree(s.d, s.bl, s.d.maxCode);
    BothScanned(f0, f1, s.bl.fc[..], llens, dlens);
  }

  lemma ZeroAt(f: seq<nat>)
    requires |f| >= BL_CODES && f[..BL_CODES] == Zeroes(BL_CODES)
    ensures forall x :: 0 <= x < BL_CODES ==> f[x] == 0
  {
    forall x | 0 <= x < BL_CODES ensures f[x] == 0 {
      assert f[..BL_CODES][x] == 0;
    }
  }

  /** What the bit length tree adds to opt_len: the header but for its fixed part. */
  lemma HeaderParts(llens: seq<nat>, dlens: seq<nat>, lens: seq<nat>, dl: seq<nat>, ds: seq<nat>, fc: seq<nat>,
                    limited: bool, opt: int, stat: int) returns (cl: seq<nat>, x: nat)
    requires END_BLOCK < |llens| <= L_CODES && llens[END_BLOCK] > 0 && 1 <= |dlens| <= D_CODES
    requires Complete(llens, MAX_BITS) && Complete(dlens, MAX_BITS)
    requires Within(Syms(TreeCodes(llens)) + Syms(TreeCodes(dlens)), BL_CODES)
    requires BuildTree.Built(ClFreqs(llens, dlens), BlDesc(), ds, fc, lens, limited, opt, stat)
    requires |lens| <= BL_CODES <= |dl| && dl[..|lens|] == lens && forall x :: |lens| <= x < BL_CODES ==> dl[x] == 0
    ensures cl == dl[..BL_CODES] && cl == Padded(lens, BL_CODES)
    ensures x < REP_3_6 && cl[x] > 0
    ensures SendsAll(fc, dl, cl) && stat == 0
  {
    hide Complete, BuildTree.Built, TreeCodes, AllCoded, Syms, CodesFor, Lengths, ClFreqs, StaticCodeCosts;
    cl := dl[..BL_CODES];
    assert cl == Padded(lens, BL_CODES);
    BuiltFields(ClFreqs(llens, dlens), BlDesc(), ds, fc, lens, limited, opt, stat);
    LowCoded(llens, dlens, lens, ds, fc, limited, opt, stat);
    CompleteLengths(llens);
    var i := LowSymbol(llens, END_BLOCK);
    x := TreeCodes(llens)[i].sym;
    LowInCode(llens, dlens, lens, i);
    BlLimit();
    CompleteWide7(lens);
    TreeSends(fc, dl, lens);
    PaddedSends(fc, dl, lens, BL_CODES);
  }

  lemma CompleteWide7(lens: seq<nat>)
    requires Complete(lens, 7)
    ensures Complete(lens, MAX_BITS)
  {
    hide Complete;
    CompleteWide(lens, 7);
  }

  lemma LowInCode(llens: seq<nat>, dlens: seq<nat>, lens: seq<nat>, i: nat)
    requires AllCoded(Syms(TreeCodes(llens)) + Syms(TreeCodes(dlens)), lens)
    requires i < |TreeCodes(llens)|
    ensures TreeCodes(llens)[i].sym < |lens| && lens[TreeCodes(llens)[i].sym] > 0
  {
    hide TreeCodes;
    var s := Syms(TreeCodes(llens)) + Syms(TreeCodes(dlens));
    assert s[i] == TreeCodes(llens)[i].sym;
  }

  lemma LowCoded(llens: seq<nat>, dlens: seq<nat>, lens: seq<nat>, ds: seq<nat>, fc: seq<nat>, limited: bool, opt: int, stat: int)
    requires Within(Syms(TreeCodes(llens)) + Syms(TreeCodes(dlens)), BL_CODES)
    requires BuildTree.Built(ClFreqs(llens, dlens), BlDesc(), ds, fc, lens, limited, opt, stat)
    ensures AllCoded(Syms(TreeCodes(llens)) + Syms(TreeCodes(dlens)), lens)
    ensures stat == 0
  {
    hide BuildTree.Built, TreeCodes, AllCoded, Syms, Tally;
    var s := Syms(TreeCodes(llens)) + Syms(TreeCodes(dlens));
    BuiltCounts(BL_CODES, s, BlDesc(), ds, fc, lens, limited, opt, stat);
    CostZero(s, StaticCodeCosts(|lens|, BlDesc()));
  }

  /** The arrays of the state hold the codes of a block. */
  ghost predicate TreesHold(s: BlockState, c: DynCode)
    reads s.l, s.d, s.l.fc, s.l.dl, s.d.fc, s.d.dl, s.bl.fc, s.bl.dl
  {
    && s.l.Valid() && s.d.Valid() && s.bl.Valid()
    && s.l.desc == LDesc() && s.d.desc == DDesc() && s.bl.desc == BlDesc()
    && END_BLOCK < |c.llens| == s.l.maxCode + 1 <= L_CODES && 1 <= |c.dlens| == s.d.maxCode + 1 <= D_CODES
    && s.l.dl[..s.l.maxCode + 1] == c.llens && s.l.dl[s.l.maxCode + 1] == 0xffff && SendsAll(s.l.fc[..], s.l.dl[..], c.llens)
    && s.d.dl[..s.d.maxCode + 1] == c.dlens && s.d.dl[s.d.maxCode + 1] == 0xffff && SendsAll(s.d.fc[..], s.d.dl[..], c.dlens)
    && s.bl.dl[..BL_CODES] == c.cl && SendsAll(s.bl.fc[..], s.bl.dl[..], c.cl)
  }

  /** Construct the tree for the bit lengths; returns the index in bl_order of the last bit length
      code to send. */
  method BuildBlTree(s: BlockState, ghost llens: seq<nat>, ghost dlens: seq<nat>) returns (maxBlIndex: nat)
    requires s.Shape() && s.bl.fc[..BL_CODES] == Zeroes(BL_CODES)
    requires END_BLOCK <= s.l.maxCode < L_CODES && 0 <= s.d.maxCode < D_CODES
    requires llens == s.l.dl[..s.l.maxCode + 1] && dlens == s.d.dl[..s.d.maxCode + 1] && llens[END_BLOCK] > 0
    requires Complete(llens, MAX_BITS) && Complete(dlens, MAX_BITS)
    requires CodesFor(s.l.fc[..], llens) && CodesFor(s.d.fc[..], dlens)
    modifies s.st, s.st.heap, s.st.depth, s.st.blCount, s.bl`maxCode, s.bl.fc, s.bl.dl, s.l.dl, s.d.dl
    ensures s.Shape() && TreesHold(s, DynCode(llens, dlens, s.bl.dl[..BL_CODES], maxBlIndex + 1))
    ensures HeaderOk(llens, dlens, s.bl.dl[..BL_CODES], maxBlIndex + 1)
    ensures s.st.optLen == old(s.st.optLen) + |HeaderBits(llens, dlens, s.bl.dl[..BL_CODES], maxBlIndex + 1)|
    ensures s.st.staticLen == old(s.st.staticLen)
    ensures forall n :: EnoughSent(s.bl.dl[..BL_CODES], n) ==> maxBlIndex < n
  {
    hide TreeCodes, Lengths, Counted, DescOk, LDesc, DDesc, BlDesc, ClFreqs, Zeroes, Carries, LengthTablesOk, DistTablesOk, Sends,
         Complete, CodesFor, BuildTree.Built, BuildTree.Limits, HeaderOk, HeaderBits, EnoughSent, SendsAll;
    DescSizes();
    CompleteLengths(llens);
    CompleteLengths(dlens);
    ScanBoth(s, llens, dlens);
    TreeSends(s.l.fc[..], s.l.dl[..], llens);
    TreeSends(s.d.fc[..], s.d.dl[..], dlens);
    var limited;
    ghost var ds, opt0, stat0 := [], s.st.optLen, s.st.staticLen;
    ghost var tree;
    limited, ds, tree := BuildTree.BuildTree(s.st, s.bl);
    ghost var lens := s.bl.dl[..s.bl.maxCode + 1];
    ghost var opt, stat := s.st.optLen - opt0, s.st.staticLen - stat0;
    ghost var cl, x := HeaderParts(llens, dlens, lens, s.bl.dl[..], ds, s.bl.fc[..], limited, opt, stat);
    maxBlIndex := LastBlIndex(s.bl, cl, x);
    HeaderBuilt(llens, dlens, lens, maxBlIndex + 1, ds, s.bl.fc[..], limited, opt, stat);
    s.st.optLen := s.st.optLen + 3 * (maxBlIndex + 1) + 5 + 5 + 4;
  }
}
