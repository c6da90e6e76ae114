/** The three kinds of block, each of which the decoder undoes. */
module BlockFormat {
  import opened Sums
  import opened Bits
  import opened HuffmanCode
  import opened CanonicalCodes
  import opened Inflate
  import opened StaticTables
  import opened BitWriter
  import opened CodeLengths
  import opened Tokens
  import opened BlockSizes
  import opened DynHeader
  import opened MoreHistory

  const STORED_BLOCK: nat := 0
  const STATIC_TREES: nat := 1
  const DYN_TREES: nat := 2

  function Eof(eof: bool): nat
  {
    if eof then 1 else 0
  }

  /** The block type, in three bits. */
  function TypeBits(kind: nat, eof: bool): (b: seq<bool>)
    ensures |b| == 3
  {
    ValueBits(2 * kind + Eof(eof), 3)
  }

  /** Whatever follows, the bits decode at position pos, after text before, as one block that makes
      the text text. */
  ghost predicate Encodes(bits: seq<bool>, wsize: nat, pos: nat, before: seq<byte>, final: bool, text: seq<byte>)
  {
    forall rest: seq<bool> :: InflateBlock(wsize, pos, bits + rest, before) == Ok(Block(final, text), rest)
  }

  lemma TypeDecodes(kind: nat, eof: bool, rest: seq<bool>)
    requires kind <= 2
    ensures ReadBits(TypeBits(kind, eof) + rest, 1) == Ok(Eof(eof), ValueBits(kind, 2) + rest)
    ensures ReadBits(ValueBits(kind, 2) + rest, 2) == Ok(kind, rest)
  {
    hide ValueBits, ReadBits;
    Pow2Values();
    ValueBitsConcat(Eof(eof), kind, 1, 2);
    assert Shl(kind, 1) == 2 * Shl(kind, 0);
    ReadsValue(Eof(eof), 1, ValueBits(kind, 2) + rest);
    ReadsValue(kind, 2, rest);
    ConcatAssoc(ValueBits(Eof(eof), 1), ValueBits(kind, 2), rest);
  }

  /** The decoder reads the type, then the body. */
  lemma BlockDecodes(kind: nat, eof: bool, wsize: nat, pos: nat, body: seq<bool>, before: seq<byte>, text: seq<byte>, rest: seq<bool>)
    requires kind <= 2
    requires kind == STORED_BLOCK ==> InflateStored(Padding(pos + 3), body + rest, before) == Ok(text, rest)
    requires kind == STATIC_TREES ==> InflateData(FixedLit(), FixedDist(), wsize, body + rest, before) == Ok(text, rest)
    requires kind == DYN_TREES ==> InflateDynamic(wsize, body + rest, before) == Ok(text, rest)
    ensures InflateBlock(wsize, pos, TypeBits(kind, eof) + body + rest, before) == Ok(Block(eof, text), rest)
  {
    hide ReadBits, ValueBits, TypeBits, InflateStored, InflateData, InflateDynamic, FixedLit, FixedDist, Padding;
    TypeDecodes(kind, eof, body + rest);
    ConcatAssoc(TypeBits(kind, eof), body, rest);
  }

  // ---------- Dynamic and static blocks ----------

  ghost function DynBlockBits(m: Maps, llens: seq<nat>, dlens: seq<nat>, cl: seq<nat>, n: nat, toks: seq<Token>, eof: bool): seq<bool>
    requires MapsOk(m) && TokensOk(toks) && CoversAll(m, llens, dlens, toks) && HeaderOk(llens, dlens, cl, n)
  {
    TypeBits(DYN_TREES, eof) + (HeaderBits(llens, dlens, cl, n) + DataBits(m, llens, dlens, toks))
  }

  lemma DynBlock(m: Maps, llens: seq<nat>, dlens: seq<nat>, cl: seq<nat>, n: nat, toks: seq<Token>, eof: bool,
                 wsize: nat, pos: nat, before: seq<byte>)
    requires MapsOk(m) && TokensOk(toks) && CoversAll(m, llens, dlens, toks) && HeaderOk(llens, dlens, cl, n)
    requires llens[END_BLOCK] > 0 && AllReach(before, toks, wsize)
    ensures Encodes(DynBlockBits(m, llens, dlens, cl, n, toks, eof), wsize, pos, before, eof, Text(before, toks))
  {
    hide MapsOk, CoversAll, HeaderBits, DataBits, InflateBlock, InflateDynamic, InflateData, Complete, TypeBits, AllReach, Text,
         Used, Decodable;
    CompleteCodes(llens, dlens);
    forall rest: seq<bool>
      ensures InflateBlock(wsize, pos, DynBlockBits(m, llens, dlens, cl, n, toks, eof) + rest, before)
              == Ok(Block(eof, Text(before, toks)), rest)
    {
      var header, data := HeaderBits(llens, dlens, cl, n), DataBits(m, llens, dlens, toks);
      HeaderDecodes(llens, dlens, cl, n, wsize, data + rest, before);
      DataDecodes(m, llens, dlens, toks, wsize, rest, before);
      ConcatAssoc(header, data, rest);
      BlockDecodes(DYN_TREES, eof, wsize, pos, header + data, before, Text(before, toks), rest);
    }
  }

  lemma CompleteCodes(llens: seq<nat>, dlens: seq<nat>)
    requires Complete(llens, MAX_BITS) && Complete(dlens, MAX_BITS)
    ensures Codes(llens, dlens)
  {
  }

  ghost function StaticBlockBits(m: Maps, toks: seq<Token>, eof: bool): seq<bool>
    requires MapsOk(m) && TokensOk(toks) && CoversAll(m, FixedLit(), FixedDist(), toks)
  {
    TypeBits(STATIC_TREES, eof) + DataBits(m, FixedLit(), FixedDist(), toks)
  }

  lemma StaticBlock(m: Maps, toks: seq<Token>, eof: bool, wsize: nat, pos: nat, before: seq<byte>)
    requires MapsOk(m) && TokensOk(toks) && CoversAll(m, FixedLit(), FixedDist(), toks) && AllReach(before, toks, wsize)
    ensures Encodes(StaticBlockBits(m, toks, eof), wsize, pos, before, eof, Text(before, toks))
  {
    hide MapsOk, CoversAll, DataBits, InflateBlock, InflateData, Complete, TypeBits, AllReach, Text, FixedLit, FixedDist, Decodable;
    FixedComplete();
    CompleteCodes(FixedLit(), FixedDist());
    FixedLitParts();
    forall rest: seq<bool>
      ensures InflateBlock(wsize, pos, StaticBlockBits(m, toks, eof) + rest, before) == Ok(Block(eof, Text(before, toks)), rest)
    {
      var data := DataBits(m, FixedLit(), FixedDist(), toks);
      DataDecodes(m, FixedLit(), FixedDist(), toks, wsize, rest, before);
      BlockDecodes(STATIC_TREES, eof, wsize, pos, data, before, Text(before, toks), rest);
    }
  }

  /** The empty static block of _tr_align. */
  function AlignBits(): seq<bool>
  {
    TypeBits(STATIC_TREES, false) + Codeword(FixedLit(), END_BLOCK)
  }

  lemma AlignLength()
    ensures |AlignBits()| == 10
  {
    hide FixedLit;
    FixedLitParts();
  }

  lemma AlignBlock(wsize: nat, pos: nat, before: seq<byte>)
    ensures Encodes(AlignBits(), wsize, pos, before, false, before)
  {
    hide InflateBlock, InflateData, Complete, TypeBits, FixedLit, FixedDist, Codeword, Decodable;
    FixedComplete();
    CompleteCodes(FixedLit(), FixedDist());
    FixedLitParts();
    forall rest: seq<bool>
      ensures InflateBlock(wsize, pos, AlignBits() + rest, before) == Ok(Block(false, before), rest)
    {
      var data := Codeword(FixedLit(), END_BLOCK);
      EndDecodes(FixedLit(), FixedDist(), wsize, rest, before);
      BlockDecodes(STATIC_TREES, false, wsize, pos, data, before, before, rest);
    }
  }

  // ---------- Stored blocks ----------

  function StoredBody(pad: nat, text: seq<byte>): seq<bool>
    requires |text| <= 65535
  {
    Zeros(pad) + (ValueBits(|text|, 16) + (ValueBits(65535 - |text|, 16) + BytesBits(text)))
  }

  function StoredBits(pad: nat, text: seq<byte>, eof: bool): seq<bool>
    requires |text| <= 65535
  {
    TypeBits(STORED_BLOCK, eof) + StoredBody(pad, text)
  }

  lemma {:induction false} BytesDecode(text: seq<byte>, rest: seq<bool>)
    ensures ReadBytes(BytesBits(text) + rest, |text|) == Ok(text, rest)
    decreases |text|
  {
    hide ValueBits, ReadBits, Pow2;
    if text == [] {
      assert [] + rest == rest;
    } else {
      Pow2Values();
      BytesDecode(text[1..], rest);
      ReadsValue(text[0], 8, BytesBits(text[1..]) + rest);
      ConcatAssoc(ValueBits(text[0], 8), BytesBits(text[1..]), rest);
      assert [text[0]] + text[1..] == text;
    }
  }

  lemma SkipsPadding(pad: nat, rest: seq<bool>)
    ensures ReadBits(Zeros(pad) + rest, pad).Ok? && ReadBits(Zeros(pad) + rest, pad).rest == rest
  {
    hide BitsValue;
    assert (Zeros(pad) + rest)[pad..] == rest;
  }

  lemma StoredDecodes(pad: nat, text: seq<byte>, before: seq<byte>, rest: seq<bool>)
    requires |text| <= 65535
    ensures InflateStored(pad, StoredBody(pad, text) + rest, before) == Ok(before + text, rest)
  {
    hide ValueBits, ReadBits, ReadBytes, BytesBits, Zeros, Pow2;
    Pow2Values();
    var z, a, b, c := Zeros(pad), ValueBits(|text|, 16), ValueBits(65535 - |text|, 16), BytesBits(text);
    SkipsPadding(pad, a + (b + (c + rest)));
    ReadsValue(|text|, 16, b + (c + rest));
    ReadsValue(65535 - |text|, 16, c + rest);
    BytesDecode(text, rest);
    FourStored(z, a, b, c, rest);
  }

  lemma FourStored(z: seq<bool>, a: seq<bool>, b: seq<bool>, c: seq<bool>, rest: seq<bool>)
    ensures z + (a + (b + c)) + rest == z + (a + (b + (c + rest)))
  {
  }

  lemma StoredBlock(text: seq<byte>, eof: bool, wsize: nat, pos: nat, before: seq<byte>)
    requires |text| <= 65535
    ensures Encodes(StoredBits(Padding(pos + 3), text, eof), wsize, pos, before, eof, before + text)
  {
    hide InflateBlock, InflateStored, TypeBits, Padding, StoredBody;
    forall rest: seq<bool>
      ensures InflateBlock(wsize, pos, StoredBits(Padding(pos + 3), text, eof) + rest, before) == Ok(Block(eof, before + text), rest)
    {
      StoredDecodes(Padding(pos + 3), text, before, rest);
      BlockDecodes(STORED_BLOCK, eof, wsize, pos, StoredBody(Padding(pos + 3), text), before, before + text, rest);
    }
  }

  // ---------- Sequences of blocks ----------

  /** The bits are non-final blocks that make the text: wherever they stand, at a byte boundary and after
      whatever past, decoding goes on with what follows. */
  ghost predicate Open(bits: seq<bool>, wsize: nat, text: seq<byte>)
  {
    forall past: seq<byte>, pos: nat, rest: seq<bool> ::
      pos % 8 == 0 ==> InflateBlocks(wsize, pos, bits + rest, past) == InflateBlocks(wsize, pos + |bits|, rest, past + text)
  }

  /** The bits are blocks up to a final one that make the text, after whatever past. */
  ghost predicate Closed(bits: seq<bool>, wsize: nat, text: seq<byte>)
  {
    forall past: seq<byte>, pos: nat, rest: seq<bool> ::
      pos % 8 == 0 ==> InflateBlocks(wsize, pos, bits + rest, past) == Ok(past + text, rest)
  }

  lemma ClosedDecodes(bits: seq<bool>, wsize: nat, text: seq<byte>, rest: seq<bool>)
    requires Closed(bits, wsize, text)
    ensures InflateBlocks(wsize, 0, bits + rest, []) == Ok(text, rest)
  {
    hide InflateBlocks;
    assert InflateBlocks(wsize, 0, bits + rest, []) == Ok([] + text, rest) && [] + text == text;
  }

  lemma OpenStart(wsize: nat)
    ensures Open([], wsize, [])
  {
    hide InflateBlocks;
    forall past: seq<byte>, pos: nat, rest: seq<bool> | pos % 8 == 0
      ensures InflateBlocks(wsize, pos, [] + rest, past) == InflateBlocks(wsize, pos, rest, past + [])
    {
      assert [] + rest == rest && past + [] == past;
    }
  }

  /** Another block. */
  lemma OpenNext(bits: seq<bool>, wsize: nat, before: seq<byte>, block: seq<bool>, final: bool, text: seq<byte>)
    requires Open(bits, wsize, before) && Encodes(block, wsize, |bits|, before, final, text)
    ensures !final ==> Open(bits + block, wsize, text)
    ensures final ==> Closed(bits + block, wsize, text)
  {
    hide InflateBlock;
    forall past: seq<byte>, pos: nat, rest: seq<bool> | pos % 8 == 0
      ensures InflateBlocks(wsize, pos, bits + block + rest, past) ==
              if final then Ok(past + text, rest) else InflateBlocks(wsize, pos + |bits + block|, rest, past + text)
    {
      ConcatAssoc(bits, block, rest);
      assert InflateBlocks(wsize, pos, bits + (block + rest), past) == InflateBlocks(wsize, pos + |bits|, block + rest, past + before);
      assert InflateBlock(wsize, |bits|, block + rest, before) == Ok(Block(final, text), rest);
      BlockAfter(wsize, |bits|, block + rest, before, pos, past);
      assert |bits| + pos == pos + |bits|;
    }
  }

  /** Blocks after blocks, the second ones made without regard to the text of the first. */
  lemma OpenJoin(a: seq<bool>, b: seq<bool>, wsize: nat, ta: seq<byte>, tb: seq<byte>)
    requires Open(a, wsize, ta) && |a| % 8 == 0
    ensures Open(b, wsize, tb) ==> Open(a + b, wsize, ta + tb)
    ensures Closed(b, wsize, tb) ==> Closed(a + b, wsize, ta + tb)
  {
    hide InflateBlocks;
    forall past: seq<byte>, pos: nat, rest: seq<bool> | pos % 8 == 0
      ensures Open(b, wsize, tb) ==>
                InflateBlocks(wsize, pos, a + b + rest, past) == InflateBlocks(wsize, pos + |a + b|, rest, past + (ta + tb))
      ensures Closed(b, wsize, tb) ==> InflateBlocks(wsize, pos, a + b + rest, past) == Ok(past + (ta + tb), rest)
    {
      ConcatAssoc(a, b, rest);
      assert past + ta + tb == past + (ta + tb) && (pos + |a|) % 8 == 0;
      assert InflateBlocks(wsize, pos, a + (b + rest), past) == InflateBlocks(wsize, pos + |a|, b + rest, past + ta);
    }
  }
}
