/** build_bl_tree and send_all_trees: the header of a dynamic block, RFC 1951 section 3.2.7. */
module DynHeader {
  import opened Sums
  import opened Bits
  import opened HuffmanCode
  import opened CanonicalCodes
  import opened Inflate
  import opened GenCodes
  import opened StaticTables
  import opened BitLengths
  import opened BuildTree
  import opened CodeLengths
  import opened Tallies
  import opened BlockSizes

  // ---------- A code with unused symbols at the end ----------

  /** The lengths of all n symbols, those after the last one used being 0. */
  function Padded(lens: seq<nat>, n: nat): (r: seq<nat>)
    requires |lens| <= n
    ensures |r| == n
  {
    lens + Zeroes(n - |lens|)
  }

  lemma PaddedComplete(lens: seq<nat>, n: nat, limit: nat)
    requires |lens| <= n && Complete(lens, limit)
    ensures Complete(Padded(lens, n), limit)
  {
    var z := Zeroes(n - |lens|);
    RoomsAppend(lens, z, limit);
    SumZero(Rooms(z, limit));
  }

  lemma {:induction false} PaddedFirst(lens: seq<nat>, n: nat, b: nat)
    requires |lens| <= n
    ensures FirstCode(Padded(lens, n), b) == FirstCode(lens, b)
  {
    if b > 0 {
      PaddedFirst(lens, n, b - 1);
      if b > 1 {
        CountAppend(lens, Zeroes(n - |lens|), b - 1);
        CountNone(Zeroes(n - |lens|), b - 1);
      }
    }
  }

  lemma PaddedCodeword(lens: seq<nat>, n: nat, x: nat)
    requires x < |lens| <= n
    ensures Padded(lens, n)[x] == lens[x]
    ensures Codeword(Padded(lens, n), x) == Codeword(lens, x)
  {
    hide FirstCode, CodeBits, Count;
    PaddedFirst(lens, n, lens[x]);
    assert Padded(lens, n)[..x] == lens[..x];
  }

  /** The arrays of a finished tree send its code. */
  lemma TreeSends(fc: seq<nat>, dl: seq<nat>, lens: seq<nat>)
    requires |lens| <= |dl| && dl[..|lens|] == lens && CodesFor(fc, lens) && Complete(lens, MAX_BITS)
    ensures SendsAll(fc, dl, lens)
  {
    hide CodeFor;
    forall x | 0 <= x < |lens| && lens[x] > 0 ensures Sends(fc, dl, lens, x) {
      assert dl[..|lens|][x] == dl[x];
    }
  }

  lemma PaddedSends(fc: seq<nat>, dl: seq<nat>, lens: seq<nat>, n: nat)
    requires |lens| <= n && SendsAll(fc, dl, lens)
    ensures SendsAll(fc, dl, Padded(lens, n))
  {
    hide Codeword, Pow2, ValueBits;
    forall x | 0 <= x < n && Padded(lens, n)[x] > 0 ensures Sends(fc, dl, Padded(lens, n), x) {
      PaddedCodeword(lens, n, x);
      assert Sends(fc, dl, lens, x);
    }
  }

  // ---------- Code length code lengths ----------

  function BlOrder(rank: nat): (x: nat)
    requires rank < BL_CODES
    ensures x < BL_CODES
  {
    BL_ORDER[rank]
  }

  /** n of them, from rank r on, three bits each. */
  function ClLenBits(cl: seq<nat>, r: nat, n: nat): seq<bool>
    requires |cl| == BL_CODES && r + n <= BL_CODES
    decreases n
  {
    if n == 0 then [] else ValueBits(cl[BlOrder(r)], 3) + ClLenBits(cl, r + 1, n - 1)
  }

  lemma {:induction false} ClLenBitsMore(cl: seq<nat>, r: nat, n: nat)
    requires |cl| == BL_CODES && r + n < BL_CODES
    ensures ClLenBits(cl, r, n + 1) == ClLenBits(cl, r, n) + ValueBits(cl[BlOrder(r + n)], 3)
    ensures |ClLenBits(cl, r, n)| == 3 * n
    decreases n
  {
    hide ValueBits, BlOrder;
    if n > 0 {
      ClLenBitsMore(cl, r + 1, n - 1);
      ConcatAssoc(ValueBits(cl[BlOrder(r)], 3), ClLenBits(cl, r + 1, n - 1), ValueBits(cl[BlOrder(r + n)], 3));
    } else {
      assert ClLenBits(cl, r, 1) == ValueBits(cl[BlOrder(r)], 3) + ClLenBits(cl, r + 1, 0);
    }
  }

  /** In transmission order. */
  function InOrder(cl: seq<nat>, r: nat, n: nat): (s: seq<nat>)
    requires |cl| == BL_CODES && r + n <= BL_CODES
    ensures |s| == n
  {
    seq(n, i requires 0 <= i < n => cl[BlOrder(r + i)])
  }

  lemma {:induction false} ClLensDecode(cl: seq<nat>, r: nat, n: nat, rest: seq<bool>)
    requires |cl| == BL_CODES && r + n <= BL_CODES && forall x :: 0 <= x < |cl| ==> cl[x] <= 7
    ensures ReadClLengths(ClLenBits(cl, r, n) + rest, n) == Ok(InOrder(cl, r, n), rest)
    decreases n
  {
    hide ValueBits, ReadBits, Pow2, BlOrder, InOrder;
    if n > 0 {
      Pow2Values();
      var l, more := cl[BlOrder(r)], ClLenBits(cl, r + 1, n - 1);
      ClLensDecode(cl, r + 1, n - 1, rest);
      ReadsValue(l, 3, more + rest);
      ConcatAssoc(ValueBits(l, 3), more, rest);
      InOrderFirst(cl, r, n);
    } else {
      assert [] + rest == rest;
      assert InOrder(cl, r, n) == [];
    }
  }

  lemma InOrderFirst(cl: seq<nat>, r: nat, n: nat)
    requires |cl| == BL_CODES && r + n <= BL_CODES && n > 0
    ensures InOrder(cl, r, n) == [cl[BlOrder(r)]] + InOrder(cl, r + 1, n - 1)
  {
    hide BlOrder;
  }

  /** The rank of symbol x in the transmission order. */
  const BL_RANK: seq<nat> := [3, 17, 15, 13, 11, 9, 7, 5, 4, 6, 8, 10, 12, 14, 16, 18, 0, 1, 2]

  function BlRank(x: nat): (r: nat)
    requires x < BL_CODES
    ensures r < BL_CODES
  {
    BL_RANK[x]
  }

  lemma BlOrderRanks()
    ensures forall x :: 0 <= x < BL_CODES ==> BlOrder(BlRank(x)) == x
    ensures forall i :: 0 <= i < BL_CODES ==> BlRank(BlOrder(i)) == i
  {
  }

  lemma ByClOrderNext(cl: seq<nat>, n: nat)
    requires |cl| == BL_CODES && 0 < n <= BL_CODES
    ensures ByClOrder(InOrder(cl, 0, n)) == ByClOrder(InOrder(cl, 0, n - 1))[BlOrder(n - 1) := cl[BlOrder(n - 1)]]
  {
    assert BL_ORDER == CL_ORDER;
    assert InOrder(cl, 0, n)[..n - 1] == InOrder(cl, 0, n - 1);
  }

  /** The decoder puts them back where they belong. */
  lemma {:induction false} ByClOrderIs(cl: seq<nat>, n: nat, x: nat)
    requires |cl| == BL_CODES && n <= BL_CODES && x < BL_CODES
    ensures ByClOrder(InOrder(cl, 0, n))[x] == if BlRank(x) < n then cl[x] else 0
  {
    hide BlOrder, BlRank, InOrder;
    BlOrderRanks();
    if n > 0 {
      ByClOrderIs(cl, n - 1, x);
      ByClOrderNext(cl, n);
      assert BlRank(BlOrder(n - 1)) == n - 1 && BlOrder(BlRank(x)) == x;
    }
  }

  /** How many must be sent: all up to the last one that is not 0. */
  ghost predicate EnoughSent(cl: seq<nat>, n: nat)
    requires |cl| == BL_CODES
  {
    4 <= n <= BL_CODES && forall i :: n <= i < BL_CODES ==> cl[BlOrder(i)] == 0
  }

  lemma OrderRoundTrip(cl: seq<nat>, n: nat)
    requires |cl| == BL_CODES && EnoughSent(cl, n)
    ensures ByClOrder(InOrder(cl, 0, n)) == cl
  {
    hide BlOrder, BlRank, InOrder, ByClOrder;
    BlOrderRanks();
    forall x | 0 <= x < BL_CODES ensures ByClOrder(InOrder(cl, 0, n))[x] == cl[x] {
      ByClOrderIs(cl, n, x);
      assert BlOrder(BlRank(x)) == x;
    }
  }

  // ---------- The header ----------

  function HeaderBits(llens: seq<nat>, dlens: seq<nat>, cl: seq<nat>, n: nat): seq<bool>
    requires |cl| == BL_CODES && 4 <= n <= BL_CODES && |llens| >= 257 && |dlens| >= 1
  {
    ValueBits(|llens| - 257, 5) + ValueBits(|dlens| - 1, 5) + ValueBits(n - 4, 4) + ClLenBits(cl, 0, n) +
    ClBits(cl, TreeCodes(llens)) + ClBits(cl, TreeCodes(dlens))
  }

  /** A header that describes two complete codes by a complete code. */
  ghost predicate HeaderOk(llens: seq<nat>, dlens: seq<nat>, cl: seq<nat>, n: nat)
  {
    && 257 <= |llens| <= L_CODES && 1 <= |dlens| <= D_CODES && |cl| == BL_CODES && EnoughSent(cl, n)
    && Complete(llens, MAX_BITS) && Complete(dlens, MAX_BITS) && Complete(cl, 7)
    && Used(cl, TreeCodes(llens)) && Used(cl, TreeCodes(dlens))
  }

  lemma CompleteLengths(lens: seq<nat>)
    requires Complete(lens, MAX_BITS)
    ensures Lengths(lens)
  {
  }

  /** The run-length coded lengths of both trees, read as one list. */
  lemma TreesDecode(llens: seq<nat>, dlens: seq<nat>, cl: seq<nat>, rest: seq<bool>)
    requires Decodable(cl, 7) && Lengths(llens) && Lengths(dlens)
    requires Used(cl, TreeCodes(llens)) && Used(cl, TreeCodes(dlens))
    ensures ReadCodeLengths(cl, ClBits(cl, TreeCodes(llens)) + (ClBits(cl, TreeCodes(dlens)) + rest), |llens| + |dlens|, [])
            == Ok(llens + dlens, rest)
  {
    hide Decodable, Lengths, ReadCodeLengths, ClBits, TreeCodes, Sound, Expand, ClOk;
    var a, b := TreeCodes(llens), TreeCodes(dlens);
    TreeCodesExpand(llens, []);
    TreeCodesExpand(dlens, llens);
    assert [] + llens == llens;
    ExpandAppend([], a, b);
    ClDecodes(cl, a + b, rest, [], |llens| + |dlens|);
    ClBitsAppend(cl, a, b);
    ConcatAssoc(ClBits(cl, a), ClBits(cl, b), rest);
  }

  /** The decoder recovers both codes from the header. */
  lemma HeaderDecodes(llens: seq<nat>, dlens: seq<nat>, cl: seq<nat>, n: nat, wsize: nat, rest: seq<bool>, out: seq<byte>)
    requires HeaderOk(llens, dlens, cl, n)
    ensures InflateDynamic(wsize, HeaderBits(llens, dlens, cl, n) + rest, out) == InflateData(llens, dlens, wsize, rest, out)
  {
    hide Complete, EnoughSent, Used, ReadCodeLengths, ReadClLengths, InflateData, ByClOrder, ReadBits, ValueBits, ClLenBits,
         ClBits, TreeCodes, Pow2, InOrder, Lengths;
    CountsFit(|llens|, |dlens|, n, cl);
    var trees := ClBits(cl, TreeCodes(llens)) + (ClBits(cl, TreeCodes(dlens)) + rest);
    var lens := ClLenBits(cl, 0, n) + trees;
    Pow2Values();
    ReadsValue(|llens| - 257, 5, ValueBits(|dlens| - 1, 5) + (ValueBits(n - 4, 4) + lens));
    ReadsValue(|dlens| - 1, 5, ValueBits(n - 4, 4) + lens);
    ReadsValue(n - 4, 4, lens);
    ClSmall(cl);
    ClLensDecode(cl, 0, n, trees);
    OrderRoundTrip(cl, n);
    CompleteLengths(llens);
    CompleteLengths(dlens);
    CompleteDecodable(cl);
    TreesDecode(llens, dlens, cl, rest);
    assert (llens + dlens)[..|llens|] == llens && (llens + dlens)[|llens|..] == dlens;
    SixParts(ValueBits(|llens| - 257, 5), ValueBits(|dlens| - 1, 5), ValueBits(n - 4, 4), ClLenBits(cl, 0, n),
             ClBits(cl, TreeCodes(llens)), ClBits(cl, TreeCodes(dlens)), rest);
  }

  lemma CountsFit(l: nat, d: nat, n: nat, cl: seq<nat>)
    requires 257 <= l <= L_CODES && 1 <= d <= D_CODES && |cl| == BL_CODES && EnoughSent(cl, n)
    ensures l - 257 < 32 && d - 1 < 32 && n - 4 < 16 && 4 <= n <= BL_CODES && l - 257 <= 29
  {
  }

  lemma ClSmall(cl: seq<nat>)
    requires Complete(cl, 7)
    ensures forall x :: 0 <= x < |cl| ==> cl[x] <= 7
  {
  }

  lemma CompleteDecodable(cl: seq<nat>)
    requires Complete(cl, 7)
    ensures Decodable(cl, 7)
  {
  }

  lemma SixParts(a: seq<bool>, b: seq<bool>, c: seq<bool>, d: seq<bool>, e: seq<bool>, f: seq<bool>, rest: seq<bool>)
    ensures a + b + c + d + e + f + rest == a + (b + (c + (d + (e + (f + rest)))))
  {
  }

  // ---------- Size ----------

  lemma {:induction false} ClSize(lens: seq<nat>, cs: seq<ClCode>)
    requires |lens| <= BL_CODES && Within(Syms(cs), |lens|)
    ensures |ClBits(Padded(lens, BL_CODES), cs)| == CostOf(Syms(cs), CodeCosts(lens, BlDesc()))
    decreases |cs|
  {
    hide CodeCosts, ClBits1, Padded;
    if cs != [] {
      assert Syms(cs)[0] == cs[0].sym;
      assert Syms(cs) == [cs[0].sym] + Syms(cs[1..]);
      forall i | 0 <= i < |cs| - 1 ensures Syms(cs[1..])[i] < |lens| {
        assert Syms(cs[1..])[i] == Syms(cs)[i + 1];
      }
      ClSize(lens, cs[1..]);
      CostSingle(cs[0].sym, CodeCosts(lens, BlDesc()));
      CostAppend([cs[0].sym], Syms(cs[1..]), CodeCosts(lens, BlDesc()));
      ClSizeOne(lens, cs[0]);
    }
  }

  lemma ClSizeOne(lens: seq<nat>, c: ClCode)
    requires |lens| <= BL_CODES && c.sym < |lens|
    ensures |ClBits1(Padded(lens, BL_CODES), c)| == CodeCosts(lens, BlDesc())[c.sym]
  {
    hide Codeword, ValueBits;
    ClExtraAgrees(c.sym);
  }

  /** The frequencies scan_tree finds for both trees. */
  ghost function ClFreqs(llens: seq<nat>, dlens: seq<nat>): (r: seq<nat>)
    requires Within(Syms(TreeCodes(llens)) + Syms(TreeCodes(dlens)), BL_CODES)
    ensures |r| == BL_CODES
  {
    Tally(Zeroes(BL_CODES), Syms(TreeCodes(llens)) + Syms(TreeCodes(dlens)))
  }

  /** What build_tree makes of them is a usable code for the header, and its cost is exact. */
  lemma HeaderBuilt(llens: seq<nat>, dlens: seq<nat>, lens: seq<nat>, n: nat, ds: seq<nat>, codes: seq<nat>,
                    limited: bool, opt: int, stat: int)
    requires 257 <= |llens| <= L_CODES && 1 <= |dlens| <= D_CODES && Complete(llens, MAX_BITS) && Complete(dlens, MAX_BITS)
    requires Within(Syms(TreeCodes(llens)) + Syms(TreeCodes(dlens)), BL_CODES)
    requires Built(ClFreqs(llens, dlens), BlDesc(), ds, codes, lens, limited, opt, stat)
    requires |lens| <= BL_CODES && EnoughSent(Padded(lens, BL_CODES), n)
    ensures HeaderOk(llens, dlens, Padded(lens, BL_CODES), n)
    ensures |HeaderBits(llens, dlens, Padded(lens, BL_CODES), n)| == 14 + 3 * n + opt
  {
    hide Complete, Built, TreeCodes, ClBits, ValueBits, CodeCosts, StaticCodeCosts, BlDesc, AllCoded, Tally, EnoughSent, Padded,
         Syms, ClLenBits, CodesFor;
    var cl, a, b := Padded(lens, BL_CODES), Syms(TreeCodes(llens)), Syms(TreeCodes(dlens));
    BuiltCounts(BL_CODES, a + b, BlDesc(), ds, codes, lens, limited, opt, stat);
    BuiltFields(ClFreqs(llens, dlens), BlDesc(), ds, codes, lens, limited, opt, stat);
    BlLimit();
    PaddedComplete(lens, BL_CODES, 7);
    AllCodedParts(a, b, lens);
    CodedUsed(lens, TreeCodes(llens));
    CodedUsed(lens, TreeCodes(dlens));
    CostAppend(a, b, CodeCosts(lens, BlDesc()));
    ClSize(lens, TreeCodes(llens));
    ClSize(lens, TreeCodes(dlens));
    ClLenSize(cl, n);
  }

  lemma BlLimit()
    ensures BlDesc().maxLength == 7 && BlDesc().elems == BL_CODES
  {
  }

  lemma ClLenSize(cl: seq<nat>, n: nat)
    requires |cl| == BL_CODES && EnoughSent(cl, n)
    ensures 4 <= n <= BL_CODES && |ClLenBits(cl, 0, n)| == 3 * n
  {
    hide ValueBits;
    ClLenBitsMore(cl, 0, n - 1);
  }

  lemma CodedUsed(lens: seq<nat>, cs: seq<ClCode>)
    requires |lens| <= BL_CODES && AllCoded(Syms(cs), lens)
    ensures Used(Padded(lens, BL_CODES), cs) && Within(Syms(cs), |lens|)
  {
    forall i | 0 <= i < |cs| ensures cs[i].sym < BL_CODES && Padded(lens, BL_CODES)[cs[i].sym] > 0 {
      assert Syms(cs)[i] == cs[i].sym;
    }
  }
}
