/** Literals and matches: what they mean, which symbols they count, which bits they become. */
module Tokens {
  import opened Sums
  import opened Bits
  import opened HuffmanCode
  import opened CanonicalCodes
  import opened Inflate
  import opened StaticTables
  import opened BitLengths
  import opened BitWriter
  import opened CodeLengths
  import opened Tallies

  /** An entry of d_buf and l_buf. */
  datatype Token = Lit(c: byte) | Match(len: nat, dist: nat)

  function FromBufs(d: nat, l: byte): Token
  {
    if d == 0 then Lit(l) else Match(l + MIN_MATCH, d)
  }

  ghost predicate TokenOk(t: Token)
  {
    t.Match? ==> MIN_MATCH <= t.len <= MAX_MATCH && 1 <= t.dist <= 32768
  }

  // ---------- Meaning ----------

  /** The match copies text that exists and lies within the window. */
  ghost predicate Reaches(t: Token, before: nat, wsize: nat)
  {
    TokenOk(t) && (t.Match? ==> t.dist <= before && t.dist <= wsize)
  }

  function Expand1(out: seq<byte>, t: Token): (r: seq<byte>)
    ensures out <= r
  {
    match t
    case Lit(c) => out + [c]
    case Match(len, dist) => if 1 <= dist <= |out| then CopyMatch(out, dist, len) else out
  }

  /** The text after all tokens. */
  function Text(out: seq<byte>, toks: seq<Token>): (r: seq<byte>)
    ensures out <= r
  {
    if toks == [] then out else Expand1(Text(out, toks[..|toks| - 1]), toks[|toks| - 1])
  }

  ghost predicate AllReach(out: seq<byte>, toks: seq<Token>, wsize: nat)
  {
    toks != [] ==>
      && AllReach(out, toks[..|toks| - 1], wsize)
      && Reaches(toks[|toks| - 1], |Text(out, toks[..|toks| - 1])|, wsize)
  }

  lemma TextNext(out: seq<byte>, toks: seq<Token>, t: Token, wsize: nat)
    ensures Text(out, toks + [t]) == Expand1(Text(out, toks), t)
    ensures AllReach(out, toks, wsize) && Reaches(t, |Text(out, toks)|, wsize) ==> AllReach(out, toks + [t], wsize)
  {
    assert (toks + [t])[..|toks|] == toks;
  }

  // ---------- Symbols ----------

  /** The maps from lengths and distances to codes. */
  datatype Maps = Maps(lenCode: seq<nat>, baseLength: seq<nat>, distCode: seq<nat>, baseDist: seq<nat>)

  ghost predicate MapsOk(m: Maps)
  {
    LengthTablesOk(m.lenCode, m.baseLength) && DistTablesOk(m.distCode, m.baseDist)
  }

  function LenCodeOf(m: Maps, t: Token): (c: nat)
    requires MapsOk(m) && TokenOk(t) && t.Match?
    ensures c < LENGTH_CODES && LengthBlock(t.len - MIN_MATCH, c)
  {
    m.lenCode[t.len - MIN_MATCH]
  }

  function DistCodeOf(m: Maps, t: Token): (c: nat)
    requires MapsOk(m) && TokenOk(t) && t.Match?
    ensures c < D_CODES && DistBlock(t.dist - 1, c)
  {
    DCode(m.distCode, t.dist - 1)
  }

  function LitSym(m: Maps, t: Token): (s: nat)
    requires MapsOk(m) && TokenOk(t)
    ensures s < L_CODES && s != END_BLOCK
  {
    if t.Lit? then t.c else LenCodeOf(m, t) + LITERALS + 1
  }

  ghost predicate TokensOk(toks: seq<Token>)
  {
    forall i :: 0 <= i < |toks| ==> TokenOk(toks[i])
  }

  ghost function LitSyms(m: Maps, toks: seq<Token>): (r: seq<nat>)
    requires MapsOk(m) && TokensOk(toks)
    ensures |r| == |toks|
  {
    if toks == [] then [] else LitSyms(m, toks[..|toks| - 1]) + [LitSym(m, toks[|toks| - 1])]
  }

  ghost function DistSyms(m: Maps, toks: seq<Token>): (r: seq<nat>)
    requires MapsOk(m) && TokensOk(toks)
    ensures |r| <= |toks|
  {
    if toks == [] then []
    else
      var t := toks[|toks| - 1];
      DistSyms(m, toks[..|toks| - 1]) + if t.Match? then [DistCodeOf(m, t)] else []
  }

  lemma SymsNext(m: Maps, toks: seq<Token>, t: Token)
    requires MapsOk(m) && TokensOk(toks) && TokenOk(t)
    ensures TokensOk(toks + [t])
    ensures LitSyms(m, toks + [t]) == LitSyms(m, toks) + [LitSym(m, t)]
    ensures t.Match? ==> DistSyms(m, toks + [t]) == DistSyms(m, toks) + [DistCodeOf(m, t)]
    ensures t.Lit? ==> DistSyms(m, toks + [t]) == DistSyms(m, toks)
  {
    assert (toks + [t])[..|toks|] == toks;
  }

  lemma {:induction false} TokenSymsWithin(m: Maps, toks: seq<Token>)
    requires MapsOk(m) && TokensOk(toks)
    ensures Within(LitSyms(m, toks), L_CODES) && Within(DistSyms(m, toks), D_CODES)
  {
    hide MapsOk, TokenOk;
    if toks != [] {
      TokenSymsWithin(m, toks[..|toks| - 1]);
    }
  }

  // ---------- Bits ----------

  /** Section 3.2.5: the extra bits of a code, given its block's first value. */
  function Extra(v: nat, base: nat): nat
  {
    if v < base then 0 else v - base
  }

  function LenExtra(m: Maps, t: Token): nat
    requires MapsOk(m) && TokenOk(t) && t.Match?
  {
    Extra(t.len, LENGTH_BASE[LenCodeOf(m, t)])
  }

  function DistExtra(m: Maps, t: Token): nat
    requires MapsOk(m) && TokenOk(t) && t.Match?
  {
    Extra(t.dist, DIST_BASE[DistCodeOf(m, t)])
  }

  /** What the matches and literals become under the code lengths llens and dlens. */
  function TokenBits(m: Maps, llens: seq<nat>, dlens: seq<nat>, t: Token): seq<bool>
    requires MapsOk(m) && TokenOk(t) && LitSym(m, t) < |llens| && (t.Match? ==> DistCodeOf(m, t) < |dlens|)
  {
    if t.Lit? then Codeword(llens, t.c)
    else
      Codeword(llens, LitSym(m, t)) + ValueBits(LenExtra(m, t), LENGTH_EXTRA[LenCodeOf(m, t)]) +
      Codeword(dlens, DistCodeOf(m, t)) + ValueBits(DistExtra(m, t), DIST_EXTRA[DistCodeOf(m, t)])
  }

  /** The code lengths have codes for everything the tokens need. */
  ghost predicate Covers(m: Maps, llens: seq<nat>, dlens: seq<nat>, t: Token)
    requires MapsOk(m) && TokenOk(t)
  {
    && LitSym(m, t) < |llens| && llens[LitSym(m, t)] > 0
    && (t.Match? ==> DistCodeOf(m, t) < |dlens| && dlens[DistCodeOf(m, t)] > 0)
  }

  ghost predicate CoversAll(m: Maps, llens: seq<nat>, dlens: seq<nat>, toks: seq<Token>)
    requires MapsOk(m) && TokensOk(toks)
  {
    forall i :: 0 <= i < |toks| ==> Covers(m, llens, dlens, toks[i])
  }

  ghost function TokensBits(m: Maps, llens: seq<nat>, dlens: seq<nat>, toks: seq<Token>): seq<bool>
    requires MapsOk(m) && TokensOk(toks) && CoversAll(m, llens, dlens, toks)
  {
    if toks == [] then []
    else TokensBits(m, llens, dlens, toks[..|toks| - 1]) + TokenBits(m, llens, dlens, toks[|toks| - 1])
  }

  lemma LenExtraFits(m: Maps, t: Token)
    requires MapsOk(m) && TokenOk(t) && t.Match?
    ensures LenExtra(m, t) < Pow2(LENGTH_EXTRA[LenCodeOf(m, t)])
    ensures LENGTH_BASE[LenCodeOf(m, t)] + LenExtra(m, t) == t.len
  {
    hide Pow2, MapsOk;
  }

  lemma DistExtraFits(m: Maps, t: Token)
    requires MapsOk(m) && TokenOk(t) && t.Match?
    ensures DistExtra(m, t) < Pow2(DIST_EXTRA[DistCodeOf(m, t)])
    ensures DIST_BASE[DistCodeOf(m, t)] + DistExtra(m, t) == t.dist
  {
    hide Pow2, MapsOk;
  }

  /** Both codes are decodable. */
  ghost predicate Codes(llens: seq<nat>, dlens: seq<nat>)
  {
    Decodable(llens, MAX_BITS) && Decodable(dlens, MAX_BITS)
  }

  /** The decoder reads a match back. */
  lemma MatchDecodes(m: Maps, llens: seq<nat>, dlens: seq<nat>, t: Token, rest: seq<bool>)
    requires MapsOk(m) && TokenOk(t) && t.Match? && Covers(m, llens, dlens, t) && Codes(llens, dlens)
    ensures ReadMatch(LitSym(m, t), dlens,
                      ValueBits(LenExtra(m, t), LENGTH_EXTRA[LenCodeOf(m, t)]) +
                      (Codeword(dlens, DistCodeOf(m, t)) + (ValueBits(DistExtra(m, t), DIST_EXTRA[DistCodeOf(m, t)]) + rest)))
            == Ok((t.len, t.dist), rest)
  {
    hide MapsOk, Decodable, ReadSymbol, ReadBits, ValueBits, Codeword, Pow2, LengthBlock, DistBlock, LenExtra, DistExtra;
    var lc, dc := LenCodeOf(m, t), DistCodeOf(m, t);
    var dbits := ValueBits(DistExtra(m, t), DIST_EXTRA[dc]) + rest;
    LenExtraFits(m, t);
    DistExtraFits(m, t);
    ReadsValue(LenExtra(m, t), LENGTH_EXTRA[lc], Codeword(dlens, dc) + dbits);
    ReadsSymbol(dlens, dc, dbits, MAX_BITS);
    ReadsValue(DistExtra(m, t), DIST_EXTRA[dc], rest);
  }

  /** The decoder undoes one token. */
  lemma TokenDecodes(m: Maps, llens: seq<nat>, dlens: seq<nat>, t: Token, wsize: nat, rest: seq<bool>, out: seq<byte>)
    requires MapsOk(m) && TokenOk(t) && Covers(m, llens, dlens, t) && Codes(llens, dlens)
    requires Reaches(t, |out|, wsize)
    ensures InflateData(llens, dlens, wsize, TokenBits(m, llens, dlens, t) + rest, out) ==
            InflateData(llens, dlens, wsize, rest, Expand1(out, t))
  {
    hide MapsOk, Decodable, ReadSymbol, ReadMatch, ValueBits, Codeword, LenExtra, DistExtra, CopyMatch;
    if t.Lit? {
      ReadsSymbol(llens, t.c, rest, MAX_BITS);
    } else {
      var a, b := ValueBits(LenExtra(m, t), LENGTH_EXTRA[LenCodeOf(m, t)]), Codeword(dlens, DistCodeOf(m, t));
      var c := ValueBits(DistExtra(m, t), DIST_EXTRA[DistCodeOf(m, t)]);
      MatchDecodes(m, llens, dlens, t, rest);
      ReadsSymbol(llens, LitSym(m, t), a + (b + (c + rest)), MAX_BITS);
      FourParts(Codeword(llens, LitSym(m, t)), a, b, c, rest);
    }
  }

  lemma FourParts(w: seq<bool>, a: seq<bool>, b: seq<bool>, c: seq<bool>, rest: seq<bool>)
    ensures w + a + b + c + rest == w + (a + (b + (c + rest)))
  {
  }

  /** The decoder undoes all tokens of a block, up to the end-of-block code. */
  lemma {:induction false} TokensDecode(m: Maps, llens: seq<nat>, dlens: seq<nat>, toks: seq<Token>, wsize: nat, rest: seq<bool>,
                                        out: seq<byte>)
    requires MapsOk(m) && TokensOk(toks) && CoversAll(m, llens, dlens, toks) && Codes(llens, dlens)
    requires AllReach(out, toks, wsize)
    ensures InflateData(llens, dlens, wsize, TokensBits(m, llens, dlens, toks) + rest, out) ==
            InflateData(llens, dlens, wsize, rest, Text(out, toks))
    decreases |toks|
  {
    hide MapsOk, Codes, InflateData, TokenBits, Expand1, Reaches;
    if toks == [] {
      assert [] + rest == rest;
    } else {
      var last := |toks| - 1;
      var bits := TokenBits(m, llens, dlens, toks[last]);
      TokensDecode(m, llens, dlens, toks[..last], wsize, bits + rest, out);
      ReachesOk(toks[last], |Text(out, toks[..last])|, wsize);
      assert Covers(m, llens, dlens, toks[last]);
      TokenDecodes(m, llens, dlens, toks[last], wsize, rest, Text(out, toks[..last]));
      ConcatAssoc(TokensBits(m, llens, dlens, toks[..last]), bits, rest);
    }
  }

  lemma ReachesOk(t: Token, before: nat, wsize: nat)
    requires Reaches(t, before, wsize)
    ensures TokenOk(t)
  {
  }

  lemma EndDecodes(llens: seq<nat>, dlens: seq<nat>, wsize: nat, rest: seq<bool>, out: seq<byte>)
    requires Decodable(llens, MAX_BITS) && |llens| > END_BLOCK && llens[END_BLOCK] > 0
    ensures InflateData(llens, dlens, wsize, Codeword(llens, END_BLOCK) + rest, out) == Ok(out, rest)
  {
    hide Decodable, ReadSymbol, Codeword;
    ReadsSymbol(llens, END_BLOCK, rest, MAX_BITS);
  }

  /** The compressed data of a block: tokens and end of block. */
  ghost function DataBits(m: Maps, llens: seq<nat>, dlens: seq<nat>, toks: seq<Token>): seq<bool>
    requires MapsOk(m) && TokensOk(toks) && CoversAll(m, llens, dlens, toks) && |llens| > END_BLOCK
  {
    TokensBits(m, llens, dlens, toks) + Codeword(llens, END_BLOCK)
  }

  lemma DataDecodes(m: Maps, llens: seq<nat>, dlens: seq<nat>, toks: seq<Token>, wsize: nat, rest: seq<bool>, out: seq<byte>)
    requires MapsOk(m) && TokensOk(toks) && CoversAll(m, llens, dlens, toks) && Codes(llens, dlens)
    requires |llens| > END_BLOCK && llens[END_BLOCK] > 0 && AllReach(out, toks, wsize)
    ensures InflateData(llens, dlens, wsize, DataBits(m, llens, dlens, toks) + rest, out) == Ok(Text(out, toks), rest)
  {
    hide MapsOk, InflateData, TokensBits, Codeword, CoversAll, AllReach, Decodable;
    TokensDecode(m, llens, dlens, toks, wsize, Codeword(llens, END_BLOCK) + rest, out);
    EndDecodes(llens, dlens, wsize, rest, Text(out, toks));
    ConcatAssoc(TokensBits(m, llens, dlens, toks), Codeword(llens, END_BLOCK), rest);
  }
}
