/** The sizes that build_tree predicts are the sizes of the bits sent. */
module BlockSizes {
  import opened Sums
  import opened Bits
  import opened HuffmanCode
  import opened CanonicalCodes
  import opened Inflate
  import opened GenCodes
  import opened StaticTables
  import opened BitLengths
  import opened BuildTree
  import opened CodeLengths
  import opened Tallies
  import opened Tokens

  // ---------- The three tree descriptions ----------

  function LDesc(): TreeDesc
  {
    TreeDesc(FixedLit(), EXTRA_LBITS, LITERALS + 1, L_CODES, MAX_BITS)
  }

  function DDesc(): TreeDesc
  {
    TreeDesc(Repeat(5, D_CODES), EXTRA_DBITS, 0, D_CODES, MAX_BITS)
  }

  function BlDesc(): TreeDesc
  {
    TreeDesc([], EXTRA_BLBITS, 0, BL_CODES, 7)
  }

  lemma DescsOk()
    ensures DescOk(LDesc()) && DescOk(DDesc()) && DescOk(BlDesc())
  {
    Pow2Values();
    hide Pow2, FixedLit, Repeat;
  }

  lemma ExtraBitsAgree(m: Maps, t: Token)
    requires MapsOk(m) && TokenOk(t)
    ensures XBits(LDesc(), LitSym(m, t)) == if t.Lit? then 0 else LENGTH_EXTRA[LenCodeOf(m, t)]
    ensures t.Match? ==> XBits(DDesc(), DistCodeOf(m, t)) == DIST_EXTRA[DistCodeOf(m, t)]
  {
    hide MapsOk, Pow2;
    assert EXTRA_LBITS == LENGTH_EXTRA && EXTRA_DBITS == DIST_EXTRA;
  }

  lemma ClExtraAgrees(sym: nat)
    requires sym < BL_CODES
    ensures XBits(BlDesc(), sym) == ClExtra(sym)
  {
  }

  // ---------- Costs of symbol lists ----------

  lemma {:induction false} CostSame(syms: seq<nat>, a: seq<nat>, b: seq<nat>)
    requires Within(syms, |a|) && Within(syms, |b|)
    requires forall i :: 0 <= i < |syms| ==> a[syms[i]] == b[syms[i]]
    ensures CostOf(syms, a) == CostOf(syms, b)
  {
    if syms != [] {
      CostSame(syms[..|syms| - 1], a, b);
    }
  }

  lemma {:induction false} CostAppend(a: seq<nat>, b: seq<nat>, costs: seq<nat>)
    requires Within(a, |costs|) && Within(b, |costs|)
    ensures Within(a + b, |costs|) && CostOf(a + b, costs) == CostOf(a, costs) + CostOf(b, costs)
  {
    if b == [] {
      assert a + b == a;
    } else {
      var last := |b| - 1;
      CostAppend(a, b[..last], costs);
      CostNext(a + b[..last], b[last], costs);
      assert a + b == a + b[..last] + [b[last]];
    }
  }

  lemma CostSingle(x: nat, costs: seq<nat>)
    requires x < |costs|
    ensures Within([x], |costs|) && CostOf([x], costs) == costs[x]
  {
    assert [x][..0] == [];
  }

  // ---------- Tokens ----------

  /** The tokens take the bits of their symbols. */
  lemma {:induction false} TokensSize(m: Maps, llens: seq<nat>, dlens: seq<nat>, toks: seq<Token>)
    requires MapsOk(m) && TokensOk(toks) && CoversAll(m, llens, dlens, toks)
    ensures Within(LitSyms(m, toks), |llens|) && Within(DistSyms(m, toks), |dlens|)
    ensures |TokensBits(m, llens, dlens, toks)| ==
            CostOf(LitSyms(m, toks), CodeCosts(llens, LDesc())) + CostOf(DistSyms(m, toks), CodeCosts(dlens, DDesc()))
  {
    hide MapsOk, LDesc, DDesc, CodeCosts, TokenBits;
    if toks != [] {
      var last := |toks| - 1;
      var t := toks[last];
      TokensSize(m, llens, dlens, toks[..last]);
      assert Covers(m, llens, dlens, t);
      TokenSize(m, llens, dlens, t);
      CostNext(LitSyms(m, toks[..last]), LitSym(m, t), CodeCosts(llens, LDesc()));
      if t.Match? {
        CostNext(DistSyms(m, toks[..last]), DistCodeOf(m, t), CodeCosts(dlens, DDesc()));
      } else {
        assert DistSyms(m, toks[..last]) + [] == DistSyms(m, toks[..last]);
      }
    }
  }

  lemma TokenSize(m: Maps, llens: seq<nat>, dlens: seq<nat>, t: Token)
    requires MapsOk(m) && TokenOk(t) && Covers(m, llens, dlens, t)
    ensures |TokenBits(m, llens, dlens, t)| ==
            CodeCosts(llens, LDesc())[LitSym(m, t)] + if t.Match? then CodeCosts(dlens, DDesc())[DistCodeOf(m, t)] else 0
  {
    hide MapsOk, XBits, LDesc, DDesc, Codeword, ValueBits;
    ExtraBitsAgree(m, t);
  }

  /** What init_block and the tallies count: the end-of-block symbol and every token. */
  ghost function LitFreqs(m: Maps, toks: seq<Token>): (r: seq<nat>)
    requires MapsOk(m) && TokensOk(toks)
    ensures |r| == L_CODES
  {
    TokenSymsWithin(m, toks);
    Tally(Zeroes(L_CODES), [END_BLOCK] + LitSyms(m, toks))
  }

  ghost function DistFreqs(m: Maps, toks: seq<Token>): (r: seq<nat>)
    requires MapsOk(m) && TokensOk(toks)
    ensures |r| == D_CODES
  {
    TokenSymsWithin(m, toks);
    Tally(Zeroes(D_CODES), DistSyms(m, toks))
  }

  lemma ZeroesPrefix(n: nat, k: nat)
    requires n <= k
    ensures Zeroes(k)[..n] == Zeroes(n)
  {
  }

  /** The bits counted for a list of symbols, all of which have codes. */
  lemma CountedBits(n: nat, syms: seq<nat>, lens: seq<nat>, desc: TreeDesc)
    requires |lens| <= n && Within(syms, |lens|)
    requires forall i :: 0 <= i < |syms| ==> lens[syms[i]] > 0
    ensures Within(syms, n)
    ensures Sum(BitCosts(Tally(Zeroes(n), syms)[..|lens|], lens, desc)) == CostOf(syms, CodeCosts(lens, desc))
    ensures Sum(StaticCosts(Tally(Zeroes(n), syms)[..|lens|], lens, desc)) == CostOf(syms, StaticCodeCosts(|lens|, desc))
  {
    hide BitCosts, StaticCosts, CodeCosts, StaticCodeCosts, Zeroes;
    TallyPrefix(Zeroes(n), syms, |lens|);
    ZeroesPrefix(|lens|, n);
    ZeroCosts(|lens|, lens, desc);
    TallyCost(Zeroes(|lens|), syms, lens, desc);
    TallyStaticCost(Zeroes(|lens|), syms, lens, desc);
  }

  /** Every symbol that occurs has a code. */
  lemma BuiltCovers(f: seq<nat>, desc: TreeDesc, ds: seq<nat>, codes: seq<nat>, lens: seq<nat>, limited: bool,
                    opt: int, stat: int, x: nat)
    requires Built(f, desc, ds, codes, lens, limited, opt, stat) && x < |f| && f[x] > 0
    ensures x < |lens| && lens[x] > 0
  {
    hide Complete, CodesFor, BitCosts, StaticCosts, Forced;
    ForcedAt(f, ds, x);
  }

  /** opt_len and static_len count exactly the bits of the symbols seen. */
  lemma BuiltCounts(n: nat, syms: seq<nat>, desc: TreeDesc, ds: seq<nat>, codes: seq<nat>, lens: seq<nat>,
                    limited: bool, opt: int, stat: int)
    requires Within(syms, n) && Built(Tally(Zeroes(n), syms), desc, ds, codes, lens, limited, opt, stat)
    ensures Within(syms, |lens|) && |lens| <= n && AllCoded(syms, lens)
    ensures opt == CostOf(syms, CodeCosts(lens, desc))
    ensures stat == CostOf(syms, StaticCodeCosts(|lens|, desc))
  {
    hide Built, BitCosts, StaticCosts, Tally;
    var f := Tally(Zeroes(n), syms);
    forall i | 0 <= i < |syms| ensures syms[i] < |lens| && lens[syms[i]] > 0 {
      TallyPositive(Zeroes(n), syms, syms[i]);
      BuiltCovers(f, desc, ds, codes, lens, limited, opt, stat, syms[i]);
    }
    BuiltFields(f, desc, ds, codes, lens, limited, opt, stat);
    CountedBits(n, syms, lens, desc);
  }

  lemma BuiltFields(f: seq<nat>, desc: TreeDesc, ds: seq<nat>, codes: seq<nat>, lens: seq<nat>,
                    limited: bool, opt: int, stat: int)
    requires Built(f, desc, ds, codes, lens, limited, opt, stat)
    ensures 2 <= |lens| <= |f| == desc.elems
    ensures Complete(lens, desc.maxLength) && CodesFor(codes, lens)
    ensures opt == Sum(BitCosts(f[..|lens|], lens, desc))
    ensures stat == Sum(StaticCosts(f[..|lens|], lens, desc))
  {
    hide Complete, CodesFor, BitCosts, StaticCosts, Forced, Dummies;
  }

  /** The literal/length and distance codes built for the tokens. */
  ghost predicate CodesBuilt(m: Maps, toks: seq<Token>, llens: seq<nat>, dlens: seq<nat>, lcodes: seq<nat>, dcodes: seq<nat>,
                             lopt: int, lstat: int, dopt: int, dstat: int)
    requires MapsOk(m) && TokensOk(toks)
  {
    && (exists ds, limited :: Built(LitFreqs(m, toks), LDesc(), ds, lcodes, llens, limited, lopt, lstat))
    && (exists ds, limited :: Built(DistFreqs(m, toks), DDesc(), ds, dcodes, dlens, limited, dopt, dstat))
  }

  /** The codes cover the tokens; both predicted sizes are exact. */
  lemma DataSize(m: Maps, toks: seq<Token>, llens: seq<nat>, dlens: seq<nat>, lcodes: seq<nat>, dcodes: seq<nat>,
                 lopt: int, lstat: int, dopt: int, dstat: int)
    requires MapsOk(m) && TokensOk(toks) && CodesBuilt(m, toks, llens, dlens, lcodes, dcodes, lopt, lstat, dopt, dstat)
    ensures CoversAll(m, llens, dlens, toks) && CoversAll(m, FixedLit(), FixedDist(), toks)
    ensures END_BLOCK < |llens| <= L_CODES && llens[END_BLOCK] > 0 && 2 <= |dlens| <= D_CODES
    ensures Complete(llens, MAX_BITS) && Complete(dlens, MAX_BITS) && CodesFor(lcodes, llens) && CodesFor(dcodes, dlens)
    ensures |DataBits(m, llens, dlens, toks)| == lopt + dopt
    ensures |DataBits(m, FixedLit(), FixedDist(), toks)| == lstat + dstat
  {
    hide MapsOk, Complete, CodesFor, Built, LDesc, DDesc, FixedLit, FixedDist, TokensBits, CodeCosts, StaticCodeCosts, Tally, AllCoded;
    var lds, llim :| Built(LitFreqs(m, toks), LDesc(), lds, lcodes, llens, llim, lopt, lstat);
    var dds, dlim :| Built(DistFreqs(m, toks), DDesc(), dds, dcodes, dlens, dlim, dopt, dstat);
    TokenSymsWithin(m, toks);
    var ls, ds := [END_BLOCK] + LitSyms(m, toks), DistSyms(m, toks);
    BuiltCounts(L_CODES, ls, LDesc(), lds, lcodes, llens, llim, lopt, lstat);
    BuiltCounts(D_CODES, ds, DDesc(), dds, dcodes, dlens, dlim, dopt, dstat);
    BuiltFields(LitFreqs(m, toks), LDesc(), lds, lcodes, llens, llim, lopt, lstat);
    BuiltFields(DistFreqs(m, toks), DDesc(), dds, dcodes, dlens, dlim, dopt, dstat);
    DescLimits15();
    AllCodedParts([END_BLOCK], LitSyms(m, toks), llens);
    CodedHead(END_BLOCK, llens);
    SymsCover(m, toks, llens, dlens);
    FixedCover(m, toks);
    DynDataSize(m, toks, llens, dlens);
    StaticDataSize(m, toks, |llens|, |dlens|);
  }

  lemma DescLimits15()
    ensures LDesc().maxLength == DDesc().maxLength == MAX_BITS
    ensures LDesc().elems == L_CODES && DDesc().elems == D_CODES
  {
  }

  ghost predicate AllCoded(syms: seq<nat>, lens: seq<nat>)
  {
    forall i :: 0 <= i < |syms| ==> syms[i] < |lens| && lens[syms[i]] > 0
  }

  lemma AllCodedParts(a: seq<nat>, b: seq<nat>, lens: seq<nat>)
    requires AllCoded(a + b, lens)
    ensures AllCoded(a, lens) && AllCoded(b, lens)
  {
    forall i | 0 <= i < |a| ensures a[i] < |lens| && lens[a[i]] > 0 {
      assert (a + b)[i] == a[i];
    }
    forall i | 0 <= i < |b| ensures b[i] < |lens| && lens[b[i]] > 0 {
      assert (a + b)[|a| + i] == b[i];
    }
  }

  lemma CodedHead(x: nat, lens: seq<nat>)
    requires AllCoded([x], lens)
    ensures x < |lens| && lens[x] > 0
  {
    assert [x][0] == x;
  }

  lemma {:induction false} SymsCover(m: Maps, toks: seq<Token>, llens: seq<nat>, dlens: seq<nat>)
    requires MapsOk(m) && TokensOk(toks)
    requires AllCoded(LitSyms(m, toks), llens) && AllCoded(DistSyms(m, toks), dlens)
    ensures CoversAll(m, llens, dlens, toks)
  {
    hide MapsOk, AllCoded;
    if toks != [] {
      var init, t := toks[..|toks| - 1], toks[|toks| - 1];
      AllCodedParts(LitSyms(m, init), [LitSym(m, t)], llens);
      CodedHead(LitSym(m, t), llens);
      if t.Match? {
        AllCodedParts(DistSyms(m, init), [DistCodeOf(m, t)], dlens);
        CodedHead(DistCodeOf(m, t), dlens);
      } else {
        assert DistSyms(m, toks) == DistSyms(m, init);
      }
      SymsCover(m, init, llens, dlens);
      assert toks == init + [t];
    }
  }

  lemma FixedCover(m: Maps, toks: seq<Token>)
    requires MapsOk(m) && TokensOk(toks)
    ensures CoversAll(m, FixedLit(), FixedDist(), toks)
  {
    hide MapsOk, FixedLit;
    FixedLitParts();
  }

  lemma DynDataSize(m: Maps, toks: seq<Token>, llens: seq<nat>, dlens: seq<nat>)
    requires MapsOk(m) && TokensOk(toks) && CoversAll(m, llens, dlens, toks)
    requires END_BLOCK < |llens|
    ensures Within([END_BLOCK] + LitSyms(m, toks), |llens|) && Within(DistSyms(m, toks), |dlens|)
    ensures |DataBits(m, llens, dlens, toks)| ==
            CostOf([END_BLOCK] + LitSyms(m, toks), CodeCosts(llens, LDesc())) + CostOf(DistSyms(m, toks), CodeCosts(dlens, DDesc()))
  {
    hide MapsOk, CoversAll, LDesc, DDesc, CodeCosts, TokensBits, CostOf, Codeword, LitSyms, DistSyms;
    TokensSize(m, llens, dlens, toks);
    CostSingle(END_BLOCK, CodeCosts(llens, LDesc()));
    CostAppend([END_BLOCK], LitSyms(m, toks), CodeCosts(llens, LDesc()));
    EndCost(llens);
  }

  lemma EndCost(llens: seq<nat>)
    requires END_BLOCK < |llens|
    ensures CodeCosts(llens, LDesc())[END_BLOCK] == llens[END_BLOCK]
  {
  }

  lemma StaticDataSize(m: Maps, toks: seq<Token>, n: nat, k: nat)
    requires MapsOk(m) && TokensOk(toks) && CoversAll(m, FixedLit(), FixedDist(), toks)
    requires n <= L_CODES && k <= D_CODES
    requires Within([END_BLOCK] + LitSyms(m, toks), n) && Within(DistSyms(m, toks), k)
    ensures |DataBits(m, FixedLit(), FixedDist(), toks)| ==
            CostOf([END_BLOCK] + LitSyms(m, toks), StaticCodeCosts(n, LDesc())) + CostOf(DistSyms(m, toks), StaticCodeCosts(k, DDesc()))
  {
    hide MapsOk, CoversAll, LDesc, DDesc, CodeCosts, StaticCodeCosts, TokensBits, CostOf, FixedLit, FixedDist, LitSyms, DistSyms;
    DynDataSize(m, toks, FixedLit(), FixedDist());
    StaticCostsAgree(n, k);
    CostSame([END_BLOCK] + LitSyms(m, toks), CodeCosts(FixedLit(), LDesc()), StaticCodeCosts(n, LDesc()));
    CostSame(DistSyms(m, toks), CodeCosts(FixedDist(), DDesc()), StaticCodeCosts(k, DDesc()));
  }

  lemma StaticCostsAgree(n: nat, k: nat)
    requires n <= L_CODES && k <= D_CODES
    ensures forall x :: 0 <= x < n ==> StaticCodeCosts(n, LDesc())[x] == CodeCosts(FixedLit(), LDesc())[x]
    ensures forall x :: 0 <= x < k ==> StaticCodeCosts(k, DDesc())[x] == CodeCosts(FixedDist(), DDesc())[x]
  {
    hide FixedLit, XBits;
  }
}
