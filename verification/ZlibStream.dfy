/** The zlib wrapper around the compressed data, RFC 1950 section 2.2, as bits. */
module ZlibStream {
  import opened Sums
  import opened Bits
  import opened HuffmanCode
  import opened Inflate
  import opened BitWriter
  import opened BlockFormat
  import opened DeflateSlow

  /** Bytes of a 16-bit value and of a 32-bit value, most significant first. */
  function Msb2(v: nat): (b: seq<byte>)
    requires v < 0x1_0000
    ensures |b| == 2
  {
    [v / 256, v % 256]
  }

  function Msb4(v: nat): (b: seq<byte>)
    requires v < 0x1_0000_0000
    ensures |b| == 4
  {
    Msb2(v / 0x1_0000) + Msb2(v % 0x1_0000)
  }

  lemma BigEndianMsb4(v: nat)
    requires v < 0x1_0000_0000
    ensures BigEndian(Msb4(v)) == v
  {
    var b := Msb4(v);
    var hi, lo := v / 0x1_0000, v % 0x1_0000;
    BigEndianNext(b);
    BigEndianNext(b[..3]);
    BigEndianNext(b[..2]);
    BigEndianNext(b[..1]);
    assert b[..3][..2] == b[..2] && b[..2][..1] == b[..1] && b[..1][..0] == [];
    assert b[..2] == Msb2(hi) && b[2] == lo / 256 && b[3] == lo % 256;
  }

  lemma BigEndianNext(b: seq<byte>)
    requires b != []
    ensures BigEndian(b) == BigEndian(b[..|b| - 1]) * 256 + b[|b| - 1]
  {
  }

  /** The compression level as the header gives it: 0 for the fastest levels up to 3 for the slowest. */
  function Flevel(level: nat): (f: nat)
    requires 1 <= level <= 9
    ensures f <= 3
  {
    if (level - 1) / 2 > 3 then 3 else (level - 1) / 2
  }

  /** The header value that deflate computes. */
  function HeaderValue(wBits: nat, level: nat): (h: nat)
    requires 9 <= wBits <= 15 && 1 <= level <= 9
  {
    var h := (8 + (wBits - 8) * 16) * 256 + Flevel(level) * 64;
    h + 31 - h % 31
  }

  /** Adding the check bits changes nothing else. */
  lemma CheckBits(h: nat)
    requires h % 64 == 0
    ensures var c := h + 31 - h % 31; c % 31 == 0 && c / 64 == h / 64 && c % 64 < 32
  {
  }

  /** It announces deflate data with the right window size and level, and its check bits are right. */
  lemma HeaderValueOk(wBits: nat, level: nat)
    requires 9 <= wBits <= 15 && 1 <= level <= 9
    ensures var h := HeaderValue(wBits, level);
            h < 0x1_0000 && Announces(h, wBits) && h % 256 / 64 == Flevel(level)
  {
    var flags := Flevel(level);
    var cmf := 8 + (wBits - 8) * 16;
    var h := cmf * 256 + flags * 64;
    hide Announces, HeaderValue;
    CheckBits(h);
    CmfOk(wBits, cmf);
    HeaderSplit(h + 31 - h % 31, cmf, flags);
    AnnouncesFrom(h + 31 - h % 31, cmf, wBits);
    HeaderValueIs(wBits, level, flags, cmf, h);
  }

  lemma HeaderValueIs(wBits: nat, level: nat, flags: nat, cmf: nat, h: nat)
    requires 9 <= wBits <= 15 && 1 <= level <= 9
    requires flags == Flevel(level) && cmf == 8 + (wBits - 8) * 16
    requires h == cmf * 256 + flags * 64
    ensures HeaderValue(wBits, level) == h + 31 - h % 31
  {
  }

  lemma CmfOk(wBits: nat, cmf: nat)
    requires 9 <= wBits <= 15 && cmf == 8 + (wBits - 8) * 16
    ensures cmf % 16 == 8 && cmf / 16 <= 7 && cmf / 16 + 8 == wBits && cmf < 256
  {
  }

  lemma AnnouncesFrom(c: nat, cmf: nat, wBits: nat)
    requires c / 256 == cmf && cmf % 16 == 8 && cmf / 16 <= 7 && cmf / 16 + 8 == wBits
    requires (c % 256 / 32) % 2 == 0 && (c / 256 * 256 + c % 256) % 31 == 0
    ensures Announces(c, wBits)
  {
  }

  lemma HeaderSplit(c: nat, cmf: nat, flags: nat)
    requires c % 31 == 0 && c / 64 == 4 * cmf + flags && c % 64 < 32 && flags <= 3 && cmf < 256
    ensures c / 256 == cmf && c % 256 == 64 * flags + c % 64 && c % 256 / 64 == flags && (c % 256 / 32) % 2 == 0 && c < 0x1_0000
    ensures (c / 256 * 256 + c % 256) % 31 == 0
  {
  }

  /** h is a header that announces the window size. */
  ghost predicate Announces(h: nat, wBits: nat)
  {
    ZlibHeaderOk(h / 256, h % 256) && (h / 256) / 16 + 8 == wBits
  }

  /** The first two bytes sent are a header that announces the window size and the level. */
  ghost predicate HeadSent(sent: seq<bool>, wBits: nat, level: nat)
    requires 1 <= level <= 9
  {
    exists h: nat :: h < 0x1_0000 && BytesBits(Msb2(h)) <= sent && Announces(h, wBits) && h % 256 / 64 == Flevel(level)
  }

  lemma HeadGrows(sent: seq<bool>, sent': seq<bool>, wBits: nat, level: nat)
    requires 1 <= level <= 9 && HeadSent(sent, wBits, level) && sent <= sent'
    ensures HeadSent(sent', wBits, level)
  {
    hide Announces, BytesBits, Msb2;
    var h: nat :| h < 0x1_0000 && BytesBits(Msb2(h)) <= sent && Announces(h, wBits) && h % 256 / 64 == Flevel(level);
    assert BytesBits(Msb2(h)) <= sent';
  }

  // ---------- Bytes from bits ----------

  lemma {:induction false} BytesInjective(a: seq<byte>, b: seq<byte>)
    requires |a| == |b| && BytesBits(a) == BytesBits(b)
    ensures a == b
  {
    hide ValueBits, BitsValue, Pow2;
    if a != [] {
      Pow2Is256();
      assert BytesBits(a)[..8] == ValueBits(a[0], 8) && BytesBits(b)[..8] == ValueBits(b[0], 8);
      assert BytesBits(a)[8..] == BytesBits(a[1..]) && BytesBits(b)[8..] == BytesBits(b[1..]);
      ValueRoundTrip(a[0], 8);
      ValueRoundTrip(b[0], 8);
      BytesInjective(a[1..], b[1..]);
      assert a == [a[0]] + a[1..] && b == [b[0]] + b[1..];
    }
  }

  lemma Pow2Is256()
    ensures Pow2(8) == 256
  {
    Pow2Values();
  }

  /** The bytes that carry a prefix and a suffix of the bits. */
  lemma BytesSplit(data: seq<byte>, n: nat)
    requires n <= |data|
    ensures BytesBits(data)[..8 * n] == BytesBits(data[..n])
    ensures BytesBits(data)[8 * n..] == BytesBits(data[n..])
  {
    BytesBitsAppend(data[..n], data[n..]);
    assert data[..n] + data[n..] == data;
  }

  /** A complete zlib stream: header, data, padding, checksum. */
  lemma ZlibDecodes(delivered: seq<byte>, sent: seq<bool>, end: nat, wBits: nat, level: nat, text: seq<byte>)
    requires 1 <= level <= 9
    requires BytesBits(delivered) == sent && HeadSent(sent, wBits, level) && Sent(sent, 16, end, Pow2(wBits), text)
    requires |sent| == end + Padding(end) + 32 && Adler32(text) < 0x1_0000_0000
    requires sent[end + Padding(end)..] == BytesBits(Msb4(Adler32(text)))
    ensures ZlibDecode(delivered) == Some(text) && |delivered| >= 2 && delivered[1] / 64 == Flevel(level)
  {
    hide BytesBits, InflateBlocks, Adler32, Padding, Pow2, BigEndian, Msb4, HeadSent, ZlibHeaderOk;
    var n := |delivered|;
    HeaderRead(delivered, wBits, level);
    TrailerRead(delivered, end + Padding(end), Adler32(text));
    BytesSplit(delivered, 2);
    assert sent[16..end] + sent[end..] == sent[16..];
    ClosedDecodes(sent[16..end], Pow2(wBits), text, sent[end..]);
  }

  lemma BytesPrefix(data: seq<byte>, b: seq<byte>)
    requires BytesBits(b) <= BytesBits(data)
    ensures |b| <= |data| && data[..|b|] == b
  {
    hide BytesBits;
    BytesSplit(data, |b|);
    assert BytesBits(data)[..8 * |b|] == BytesBits(b);
    BytesInjective(data[..|b|], b);
  }

  lemma HeaderRead(delivered: seq<byte>, wBits: nat, level: nat)
    requires 1 <= level <= 9 && HeadSent(BytesBits(delivered), wBits, level)
    ensures |delivered| >= 2 && ZlibHeaderOk(delivered[0], delivered[1]) && delivered[0] / 16 + 8 == wBits
    ensures delivered[1] / 64 == Flevel(level)
  {
    hide BytesBits, Announces, Msb2;
    var sent := BytesBits(delivered);
    var h: nat :| h < 0x1_0000 && BytesBits(Msb2(h)) <= sent && Announces(h, wBits) && h % 256 / 64 == Flevel(level);
    BytesPrefix(delivered, Msb2(h));
    AnnouncedBy(delivered, h, wBits);
  }

  lemma AnnouncedBy(data: seq<byte>, h: nat, wBits: nat)
    requires |data| >= 2 && h < 0x1_0000 && data[..2] == Msb2(h) && Announces(h, wBits)
    ensures ZlibHeaderOk(data[0], data[1]) && data[0] / 16 + 8 == wBits && data[1] == h % 256
  {
    hide ZlibHeaderOk;
    assert data[..2][0] == data[0] && data[..2][1] == data[1];
  }

  lemma TrailerRead(delivered: seq<byte>, n: nat, sum: nat)
    requires sum < 0x1_0000_0000 && 8 * |delivered| == n + 32 && BytesBits(delivered)[n..] == BytesBits(Msb4(sum))
    ensures |delivered| >= 4 && BigEndian(delivered[|delivered| - 4..]) == sum
  {
    hide BytesBits, Msb4, BigEndian;
    BytesSplit(delivered, |delivered| - 4);
    BytesInjective(delivered[|delivered| - 4..], Msb4(sum));
    BigEndianMsb4(sum);
  }

  /** A complete raw stream: data and padding. */
  lemma RawDecodes(delivered: seq<byte>, sent: seq<bool>, end: nat, wsize: nat, text: seq<byte>)
    requires BytesBits(delivered) == sent && Sent(sent, 0, end, wsize, text) && |sent| == end + Padding(end)
    ensures RawDecode(wsize, delivered) == Some(text)
  {
    hide BytesBits, InflateBlocks, Padding;
    assert sent[0..end] + sent[end..] == sent;
    ClosedDecodes(sent[0..end], wsize, text, sent[end..]);
  }
}
