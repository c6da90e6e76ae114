/** The reference decoder: RFC 1951 (deflate) and RFC 1950 (zlib), written over bit strings
    from the two standards alone. Nothing here depends on the compressor. */
module Inflate {
  import opened Sums
  import opened Bits
  import opened HuffmanCode

  // ---------- Section 3.2.5: lengths and distances ----------

  const LENGTH_EXTRA: seq<nat> :=
    [0, 0, 0, 0, 0, 0, 0, 0, 1, 1, 1, 1, 2, 2, 2, 2, 3, 3, 3, 3, 4, 4, 4, 4, 5, 5, 5, 5, 0]

  const LENGTH_BASE: seq<nat> :=
    [3, 4, 5, 6, 7, 8, 9, 10, 11, 13, 15, 17, 19, 23, 27, 31, 35, 43, 51, 59,
     67, 83, 99, 115, 131, 163, 195, 227, 258]

  const DIST_EXTRA: seq<nat> :=
    [0, 0, 0, 0, 1, 1, 2, 2, 3, 3, 4, 4, 5, 5, 6, 6, 7, 7, 8, 8, 9, 9, 10, 10, 11, 11, 12, 12, 13, 13]

  const DIST_BASE: seq<nat> :=
    [1, 2, 3, 4, 5, 7, 9, 13, 17, 25, 33, 49, 65, 97, 129, 193, 257, 385, 513, 769,
     1025, 1537, 2049, 3073, 4097, 6145, 8193, 12289, 16385, 24577]

  /** Section 3.2.3: copying one byte at a time, so source and destination may overlap. */
  function CopyMatch(out: seq<byte>, dist: nat, len: nat): (r: seq<byte>)
    requires 1 <= dist <= |out|
    ensures |r| == |out| + len && out <= r
    decreases len
  {
    if len == 0 then out else CopyMatch(out + [out[|out| - dist]], dist, len - 1)
  }

  /** Section 3.2.5: the rest of a match whose length symbol was sym, as (length, distance). */
  function ReadMatch(sym: nat, dlens: seq<nat>, bits: seq<bool>): (r: Parsed<(nat, nat)>)
    requires 257 <= sym <= 285
    ensures r.Ok? ==> |r.rest| < |bits| && r.value.1 >= 1
  {
    match ReadBits(bits, LENGTH_EXTRA[sym - 257])
    case Fail => Fail
    case Ok(lx, rest) =>
      match ReadSymbol(dlens, rest)
      case Fail => Fail
      case Ok(dsym, rest) =>
        if dsym > 29 then Fail
        else
          match ReadBits(rest, DIST_EXTRA[dsym])
          case Fail => Fail
          case Ok(dx, rest) => Ok((LENGTH_BASE[sym - 257] + lx, DIST_BASE[dsym] + dx), rest)
  }

  /** Section 3.2.3: the compressed data of a block, up to its end-of-block symbol. */
  function InflateData(llens: seq<nat>, dlens: seq<nat>, wsize: nat, bits: seq<bool>, out: seq<byte>):
      (r: Parsed<seq<byte>>)
    ensures r.Ok? ==> |r.rest| < |bits|
    decreases |bits|
  {
    match ReadSymbol(llens, bits)
    case Fail => Fail
    case Ok(sym, rest) =>
      if sym < 256 then InflateData(llens, dlens, wsize, rest, out + [sym])
      else if sym == 256 then Ok(out, rest)
      else if sym > 285 then Fail
      else
        match ReadMatch(sym, dlens, rest)
        case Fail => Fail
        case Ok((len, dist), rest) =>
          if dist > |out| || dist > wsize then Fail
          else InflateData(llens, dlens, wsize, rest, CopyMatch(out, dist, len))
  }

  // ---------- Section 3.2.7: dynamic Huffman codes ----------

  const CL_ORDER: seq<nat> := [16, 17, 18, 0, 8, 7, 9, 6, 10, 5, 11, 4, 12, 3, 13, 2, 14, 1, 15]

  /** n code length code lengths, three bits each, for the symbols listed in CL_ORDER. */
  function ReadClLengths(bits: seq<bool>, n: nat): (r: Parsed<seq<nat>>)
    ensures r.Ok? ==> |r.value| == n && |r.rest| <= |bits|
  {
    if n == 0 then Ok([], bits)
    else
      match ReadBits(bits, 3)
      case Fail => Fail
      case Ok(l, rest) =>
        match ReadClLengths(rest, n - 1)
        case Fail => Fail
        case Ok(ls, rest) => Ok([l] + ls, rest)
  }

  /** The code lengths by symbol: those not transmitted are 0. */
  function ByClOrder(sent: seq<nat>): (r: seq<nat>)
    requires |sent| <= 19
    ensures |r| == 19
  {
    if sent == [] then seq(19, i => 0)
    else
      var k := |sent| - 1;
      ByClOrder(sent[..k])[CL_ORDER[k] := sent[k]]
  }

  /** The run-length coded code lengths: n of them in all, acc already read. */
  function ReadCodeLengths(cl: seq<nat>, bits: seq<bool>, n: nat, acc: seq<nat>): (r: Parsed<seq<nat>>)
    ensures r.Ok? ==> |r.value| == n && |r.rest| <= |bits|
    decreases |bits|
  {
    if |acc| > n then Fail
    else if |acc| == n then Ok(acc, bits)
    else
      match ReadSymbol(cl, bits)
      case Fail => Fail
      case Ok(sym, rest) =>
        if sym < 16 then ReadCodeLengths(cl, rest, n, acc + [sym])
        else if sym == 16 then
          if acc == [] then Fail
          else
            match ReadBits(rest, 2)
            case Fail => Fail
            case Ok(x, rest) => ReadCodeLengths(cl, rest, n, acc + Repeat(acc[|acc| - 1], 3 + x))
        else if sym == 17 then
          match ReadBits(rest, 3)
          case Fail => Fail
          case Ok(x, rest) => ReadCodeLengths(cl, rest, n, acc + Repeat(0, 3 + x))
        else if sym == 18 then
          match ReadBits(rest, 7)
          case Fail => Fail
          case Ok(x, rest) => ReadCodeLengths(cl, rest, n, acc + Repeat(0, 11 + x))
        else Fail
  }

  function Repeat(x: nat, k: nat): (r: seq<nat>)
    ensures |r| == k
  {
    seq(k, i => x)
  }

  ghost function InflateDynamic(wsize: nat, bits: seq<bool>, out: seq<byte>): (r: Parsed<seq<byte>>)
    ensures r.Ok? ==> |r.rest| < |bits|
  {
    match ReadBits(bits, 5)
    case Fail => Fail
    case Ok(hlit, rest) =>
      match ReadBits(rest, 5)
      case Fail => Fail
      case Ok(hdist, rest) =>
        match ReadBits(rest, 4)
        case Fail => Fail
        case Ok(hclen, rest) =>
          if hclen > 15 || hlit > 29 then Fail
          else
            match ReadClLengths(rest, hclen + 4)
            case Fail => Fail
            case Ok(sent, rest) =>
              var cl := ByClOrder(sent);
              if !Complete(cl, 7) then Fail
              else
                match ReadCodeLengths(cl, rest, hlit + 257 + hdist + 1, [])
                case Fail => Fail
                case Ok(lens, rest) =>
                  var llens, dlens := lens[..hlit + 257], lens[hlit + 257..];
                  if !Complete(llens, 15) || !Complete(dlens, 15) then Fail
                  else InflateData(llens, dlens, wsize, rest, out)
  }

  // ---------- Section 3.2.6: fixed Huffman codes ----------

  function FixedLit(): (r: seq<nat>)
    ensures |r| == 288
  {
    Repeat(8, 144) + Repeat(9, 112) + Repeat(7, 24) + Repeat(8, 8)
  }

  function FixedDist(): (r: seq<nat>)
    ensures |r| == 32
  {
    Repeat(5, 32)
  }

  // ---------- Section 3.2.4: stored blocks; section 3.2.3: blocks ----------

  function ReadBytes(bits: seq<bool>, n: nat): (r: Parsed<seq<byte>>)
    ensures r.Ok? ==> |r.rest| <= |bits|
  {
    if n == 0 then Ok([], bits)
    else
      match ReadBits(bits, 8)
      case Fail => Fail
      case Ok(b, rest) =>
        if b >= 256 then Fail
        else
          match ReadBytes(rest, n - 1)
          case Fail => Fail
          case Ok(bs, rest) => Ok([b] + bs, rest)
  }

  /** pad is the number of bits up to the next byte boundary. */
  function InflateStored(pad: nat, bits: seq<bool>, out: seq<byte>): (r: Parsed<seq<byte>>)
    ensures r.Ok? ==> |r.rest| <= |bits|
  {
    match ReadBits(bits, pad)
    case Fail => Fail
    case Ok(_, rest) =>
      match ReadBits(rest, 16)
      case Fail => Fail
      case Ok(len, rest) =>
        match ReadBits(rest, 16)
        case Fail => Fail
        case Ok(nlen, rest) =>
          if len + nlen != 65535 then Fail
          else
            match ReadBytes(rest, len)
            case Fail => Fail
            case Ok(bs, rest) => Ok(out + bs, rest)
  }

  /** Bits to skip from bit position pos to the next byte boundary. */
  function Padding(pos: nat): (p: nat)
    ensures p < 8 && (pos + p) % 8 == 0
  {
    if pos % 8 == 0 then 0 else 8 - pos % 8
  }

  datatype Block = Block(final: bool, text: seq<byte>)

  /** One block, at bit position pos of the stream, out being the text before it. */
  ghost function InflateBlock(wsize: nat, pos: nat, bits: seq<bool>, out: seq<byte>): (r: Parsed<Block>)
    ensures r.Ok? ==> |r.rest| < |bits|
  {
    match ReadBits(bits, 1)
    case Fail => Fail
    case Ok(bfinal, rest) =>
      match ReadBits(rest, 2)
      case Fail => Fail
      case Ok(btype, rest) =>
        var body :=
          if btype == 0 then InflateStored(Padding(pos + 3), rest, out)
          else if btype == 1 then InflateData(FixedLit(), FixedDist(), wsize, rest, out)
          else if btype == 2 then InflateDynamic(wsize, rest, out)
          else Fail;
        match body
        case Fail => Fail
        case Ok(text, rest) => Ok(Block(bfinal == 1, text), rest)
  }

  /** Blocks up to and including the final one. */
  ghost function InflateBlocks(wsize: nat, pos: nat, bits: seq<bool>, out: seq<byte>): (r: Parsed<seq<byte>>)
    decreases |bits|
  {
    match InflateBlock(wsize, pos, bits, out)
    case Fail => Fail
    case Ok(block, rest) =>
      if block.final then Ok(block.text, rest)
      else InflateBlocks(wsize, pos + |bits| - |rest|, rest, block.text)
  }

  // ---------- RFC 1950: the zlib format ----------

  /** Section 9: the Adler-32 checksum, one byte at a time from (a, b). */
  function AdlerStep(s: (nat, nat), data: seq<byte>): (nat, nat)
  {
    if data == [] then s
    else
      var (a, b) := AdlerStep(s, data[..|data| - 1]);
      var a' := (a + data[|data| - 1]) % 65521;
      (a', (b + a') % 65521)
  }

  function Adler32(data: seq<byte>): nat
  {
    var (a, b) := AdlerStep((1, 0), data);
    b * 65536 + a
  }

  /** Section 2.2: compression method 8, window of at most 32K, check bits, no preset dictionary. */
  predicate ZlibHeaderOk(cmf: nat, flg: nat)
  {
    cmf % 16 == 8 && cmf / 16 <= 7 && (cmf * 256 + flg) % 31 == 0 && (flg / 32) % 2 == 0
  }

  function BigEndian(t: seq<byte>): nat
  {
    if t == [] then 0 else BigEndian(t[..|t| - 1]) * 256 + t[|t| - 1]
  }

  /** Section 2.2: CMF, FLG, deflate data, big-endian Adler-32 of the text;
      None unless the whole input is one well-formed stream. */
  ghost function ZlibDecode(data: seq<byte>): Option<seq<byte>>
  {
    if |data| < 6 || !ZlibHeaderOk(data[0], data[1]) then None
    else
      match InflateBlocks(Pow2(data[0] / 16 + 8), 0, BytesBits(data[2..]), [])
      case Fail => None
      case Ok(text, rest) =>
        // the trailer starts at the next byte boundary and is the last four bytes
        if |rest| / 8 == 4 && BigEndian(data[|data| - 4..]) == Adler32(text) then Some(text) else None
  }

  /** Raw deflate data, as produced when the zlib wrapper is suppressed: the window size must be
      known from elsewhere. */
  ghost function RawDecode(wsize: nat, data: seq<byte>): Option<seq<byte>>
  {
    match InflateBlocks(wsize, 0, BytesBits(data), [])
    case Fail => None
    case Ok(text, rest) => if |rest| < 8 then Some(text) else None
  }
}
