/** The bit buffer and the pending output of the compression state: send_bits, put_byte, bi_flush,
    bi_windup and flush_pending. */
module BitWriter {
  import opened Sums
  import opened Bits
  import opened Inflate

  // ---------- Machine arithmetic ----------

  /** Bitwise or. */
  function Or(a: nat, b: nat): nat
  {
    if a == 0 then b
    else 2 * Or(a / 2, b / 2) + if a % 2 == 1 || b % 2 == 1 then 1 else 0
  }

  /** Bits placed above the valid ones of the buffer do not disturb them. */
  lemma {:induction false} OrDisjoint(lo: nat, hi: nat, k: nat)
    requires lo < Pow2(k)
    ensures Or(lo, Shl(hi, k)) == lo + Shl(hi, k)
  {
    if k == 0 {
    } else {
      OrDisjoint(lo / 2, hi, k - 1);
      assert Shl(hi, k) == 2 * Shl(hi, k - 1);
    }
  }

  lemma ShlByte(x: nat)
    ensures Shl(x, 8) == 256 * x
  {
    assert Shl(x, 0) == x;
    assert Shl(x, 1) == 2 * x;
    assert Shl(x, 2) == 4 * x;
    assert Shl(x, 3) == 8 * x;
    assert Shl(x, 4) == 16 * x;
    assert Shl(x, 5) == 32 * x;
    assert Shl(x, 6) == 64 * x;
    assert Shl(x, 7) == 128 * x;
  }

  lemma ShlShort(x: nat)
    ensures Shl(x, 16) == 65536 * x
  {
    ShlByte(x);
    ShlShl(x, 8, 8);
    ShlByte(Shl(x, 8));
  }

  /** Truncation keeps the low bits. */
  lemma ByteBits(v: nat)
    ensures ValueBits(v % 256, 8) == ValueBits(v, 8)
  {
    hide ValueBits;
    Pow2Values();
    ShlByte(v / 256);
    ValueBitsConcat(v % 256, v / 256, 8, 0);
  }

  lemma ShortBits(v: nat)
    ensures ValueBits(v % 65536, 16) == ValueBits(v, 16)
  {
    hide ValueBits;
    Pow2Values();
    ShlShort(v / 65536);
    ValueBitsConcat(v % 65536, v / 65536, 16, 0);
  }

  lemma ValueBitsStep(v: nat, n: nat)
    requires n > 0
    ensures ValueBits(v, n) == [v % 2 == 1] + ValueBits(v / 2, n - 1)
  {
  }

  /** The low k bits of a value, then the others. */
  lemma {:induction false} ValueBitsSplit(v: nat, k: nat, n: nat)
    ensures ValueBits(v, k + n) == ValueBits(v, k) + ValueBits(Shr(v, k), n)
  {
    hide ValueBits;
    if k > 0 {
      ValueBitsSplit(v / 2, k - 1, n);
      ValueBitsStep(v, k);
      ValueBitsStep(v, k + n);
      ConcatAssoc([v % 2 == 1], ValueBits(v / 2, k - 1), ValueBits(Shr(v, k), n));
    }
  }

  /** A short goes out low byte first. */
  lemma TwoBytes(w: nat)
    requires w < 65536
    ensures ValueBits(w, 16) == ValueBits(w % 256, 8) + ValueBits(w / 256, 8)
  {
    Pow2Values();
    ShlByte(w / 256);
    ValueBitsConcat(w % 256, w / 256, 8, 8);
  }

  lemma ShrBelow(v: nat, k: nat, n: nat)
    requires v < Pow2(k + n)
    ensures Shr(v, k) < Pow2(n)
  {
    ShrBlock(v, k);
    ShlPow2(n, k);
    ShlOrder(Pow2(n), Shr(v, k), k);
  }

  // ---------- What the buffers carry ----------

  /** The bits sent so far: whole bytes, then the valid bits of the buffer. */
  ghost predicate Carries(emitted: seq<byte>, buf: nat, valid: nat, sent: seq<bool>)
  {
    && valid <= 16 && buf < Pow2(valid)
    && sent == BytesBits(emitted) + ValueBits(buf, valid)
  }

  lemma AppendByte(emitted: seq<byte>, b: byte)
    ensures BytesBits(emitted + [b]) == BytesBits(emitted) + ValueBits(b, 8)
  {
    BytesBitsAppend(emitted, [b]);
    assert BytesBits([]) == [];
    assert BytesBits([b]) == ValueBits(b, 8) + BytesBits([b][1..]);
  }

  lemma AppendShort(emitted: seq<byte>, lo: byte, hi: byte, w: nat)
    requires w < 65536 && lo == w % 256 && hi == w / 256
    ensures BytesBits(emitted + [lo] + [hi]) == BytesBits(emitted) + ValueBits(w, 16)
  {
    TwoBytes(w);
    AppendByte(emitted, lo);
    AppendByte(emitted + [lo], hi);
    ConcatAssoc(BytesBits(emitted), ValueBits(lo, 8), ValueBits(hi, 8));
  }

  /** The value fits into the buffer. */
  lemma CarryWithin(emitted: seq<byte>, buf: nat, valid: nat, sent: seq<bool>, value: nat, length: nat, buf': nat)
    requires Carries(emitted, buf, valid, sent) && value < Pow2(length) && valid + length <= 16
    requires buf' == Or(buf, Shl(value, valid)) % 65536
    ensures Carries(emitted, buf', valid + length, sent + ValueBits(value, length))
  {
    hide BytesBits, Or, Shl, Pow2, ValueBits;
    OrDisjoint(buf, value, valid);
    ValueBitsConcat(buf, value, valid, length);
    ShlSumBound(buf, value, valid, length);
    Pow2Mono(valid + length, 16);
    Pow2Values();
    ConcatAssoc(BytesBits(emitted), ValueBits(buf, valid), ValueBits(value, length));
  }

  lemma ShlSumBound(lo: nat, hi: nat, k: nat, n: nat)
    requires lo < Pow2(k) && hi < Pow2(n)
    ensures lo + Shl(hi, k) < Pow2(k + n)
  {
    ShlOne(k);
    ShlSum(hi, 1, k);
    ShlPow2(n, k);
    ShlOrder(hi + 1, Pow2(n), k);
  }

  /** The value overflows the buffer: a short goes out, the rest of the value stays. */
  lemma CarryOver(emitted: seq<byte>, buf: nat, valid: nat, sent: seq<bool>, value: nat, length: nat,
                  w: nat, lo: byte, hi: byte, buf': nat)
    requires Carries(emitted, buf, valid, sent) && value < Pow2(length) && length <= 16 && valid + length > 16
    requires w == Or(buf, Shl(value, valid)) % 65536 && lo == w % 256 && hi == w / 256
    requires buf' == Shr(value % 65536, 16 - valid)
    ensures Carries(emitted + [lo] + [hi], buf', valid + length - 16, sent + ValueBits(value, length))
  {
    hide BytesBits, Or, Shl, Shr, Pow2, ValueBits;
    var k := 16 - valid;
    ValueBelowShort(value, length);
    OrDisjoint(buf, value, valid);
    ValueBitsConcat(buf, value, valid, k);
    ShortBits(buf + Shl(value, valid));
    AppendShort(emitted, lo, hi, w);
    ValueBitsSplit(value, k, length - k);
    ShrBelow(value, k, length - k);
    Regroup(BytesBits(emitted), ValueBits(buf, valid), ValueBits(value, k), ValueBits(buf', length - k));
  }

  lemma Regroup(a: seq<bool>, b: seq<bool>, c: seq<bool>, d: seq<bool>)
    ensures (a + (b + c)) + d == (a + b) + (c + d)
  {
  }

  lemma ValueBelowShort(value: nat, length: nat)
    requires value < Pow2(length) && length <= 16
    ensures value < 65536
  {
    Pow2Mono(length, 16);
    Pow2Values();
  }

  /** The low byte of the buffer goes out. */
  lemma CarryByte(emitted: seq<byte>, buf: nat, valid: nat, sent: seq<bool>, b: byte, buf': nat)
    requires Carries(emitted, buf, valid, sent) && 8 <= valid && b == buf % 256 && buf' == Shr(buf, 8)
    ensures Carries(emitted + [b], buf', valid - 8, sent)
  {
    ValueBitsSplit(buf, 8, valid - 8);
    ByteBits(buf);
    ShrBelow(buf, 8, valid - 8);
    AppendByte(emitted, b);
    ConcatAssoc(BytesBits(emitted), ValueBits(buf, 8), ValueBits(buf', valid - 8));
  }

  lemma CarryShort(emitted: seq<byte>, buf: nat, sent: seq<bool>, lo: byte, hi: byte)
    requires Carries(emitted, buf, 16, sent) && lo == buf % 256 && hi == buf / 256
    ensures Carries(emitted + [lo] + [hi], 0, 0, sent)
  {
    Pow2Values();
    AppendShort(emitted, lo, hi, buf);
    assert ValueBits(0, 0) == [];
  }

  /** The bits that fill a byte up. */
  function Zeros(n: nat): (b: seq<bool>)
    ensures |b| == n
  {
    seq(n, i => false)
  }

  lemma PadZeros(v: nat, k: nat, n: nat)
    requires v < Pow2(k)
    ensures ValueBits(v, k + n) == ValueBits(v, k) + Zeros(n)
  {
    ShlOne(k);
    ValueBitsConcat(v, 0, k, n);
    ValueBitsZero(n);
  }

  lemma CarryWindupByte(emitted: seq<byte>, buf: nat, valid: nat, sent: seq<bool>, b: byte)
    requires Carries(emitted, buf, valid, sent) && 0 < valid <= 8 && b == buf % 256
    ensures Carries(emitted + [b], 0, 0, sent + Zeros(8 - valid))
  {
    hide BytesBits, ValueBits, Zeros, Pow2;
    Pow2Mono(valid, 8);
    Pow2Values();
    PadZeros(buf, valid, 8 - valid);
    AppendByte(emitted, b);
    ConcatAssoc(BytesBits(emitted), ValueBits(buf, valid), Zeros(8 - valid));
  }

  lemma CarryWindupShort(emitted: seq<byte>, buf: nat, valid: nat, sent: seq<bool>, lo: byte, hi: byte)
    requires Carries(emitted, buf, valid, sent) && 8 < valid <= 16 && lo == buf % 256 && hi == buf / 256
    ensures Carries(emitted + [lo] + [hi], 0, 0, sent + Zeros(16 - valid))
  {
    hide BytesBits, ValueBits, Zeros, Pow2;
    Pow2Mono(valid, 16);
    Pow2Values();
    PadZeros(buf, valid, 16 - valid);
    AppendShort(emitted, lo, hi, buf);
    ConcatAssoc(BytesBits(emitted), ValueBits(buf, valid), Zeros(16 - valid));
  }

  lemma CarryLength(emitted: seq<byte>, buf: nat, valid: nat, sent: seq<bool>)
    requires Carries(emitted, buf, valid, sent)
    ensures |sent| == 8 * |emitted| + valid
    ensures valid == 0 ==> sent == BytesBits(emitted)
    ensures 0 < valid <= 8 ==> Padding(|sent|) == 8 - valid
    ensures 8 < valid ==> Padding(|sent|) == 16 - valid
    ensures valid == 0 ==> Padding(|sent|) == 0
  {
    hide BytesBits, ValueBits, Pow2, Padding;
    PaddingOf(|emitted|, valid);
  }

  lemma PaddingOf(bytes: nat, valid: nat)
    requires valid <= 16
    ensures Padding(8 * bytes + valid) == if valid == 0 then 0 else if valid <= 8 then 8 - valid else 16 - valid
  {
    if valid == 16 {
      assert (8 * bytes + valid) % 8 == 0;
    } else if valid >= 8 {
      assert (8 * bytes + valid) % 8 == valid - 8;
    } else {
      assert (8 * bytes + valid) % 8 == valid;
    }
  }

  lemma CarryStart()
    ensures Carries([], 0, 0, [])
  {
    assert ValueBits(0, 0) == [];
  }

  // ---------- The output side of the compression state ----------

  /** The application's output space: next_out and avail_out of the stream. */
  class Output {
    var biBuf: nat
    var biValid: nat
    /** pending_buf from pending_out on. */
    var pending: seq<byte>
    /** Bytes handed to the application so far. */
    var delivered: seq<byte>
    var availOut: nat
    /** All bits sent, in order. */
    ghost var sent: seq<bool>

    ghost predicate Valid()
      reads this
    {
      Carries(delivered + pending, biBuf, biValid, sent)
    }

    constructor ()
      ensures Valid() && sent == [] && delivered == [] && pending == [] && availOut == 0
    {
      CarryStart();
      biBuf, biValid, pending, delivered, availOut, sent := 0, 0, [], [], 0, [];
    }

    /** put_byte, when no bits are waiting in the buffer. */
    method PutByte(b: byte)
      requires Valid() && biValid == 0
      modifies this`pending, this`sent
      ensures Valid() && sent == old(sent) + ValueBits(b, 8) && pending == old(pending) + [b]
    {
      hide BytesBits, ValueBits;
      CarryLength(delivered + pending, biBuf, biValid, sent);
      AppendByte(delivered + pending, b);
      CarryEmpty(delivered + pending + [b], biBuf, sent + ValueBits(b, 8));
      pending := pending + [b];
      sent := sent + ValueBits(b, 8);
      assert delivered + pending == delivered + old(pending) + [b];
    }

    /** put_short, when no bits are waiting in the buffer: low byte first. */
    method PutShort(w: nat)
      requires Valid() && biValid == 0 && w < 65536
      modifies this`pending, this`sent
      ensures Valid() && sent == old(sent) + ValueBits(w, 16)
      ensures pending == old(pending) + [(w % 256) as byte, (w / 256) as byte]
    {
      hide BytesBits, ValueBits;
      PutByte(w % 256);
      PutByte(w / 256);
      TwoBytes(w);
      ConcatAssoc(old(sent), ValueBits(w % 256, 8), ValueBits(w / 256, 8));
    }

    /** send_bits: the bits of value, least significant first. */
    method SendBits(value: nat, length: nat)
      requires Valid() && length <= 16 && value < Pow2(length)
      modifies this`biBuf, this`biValid, this`pending, this`sent
      ensures Valid() && sent == old(sent) + ValueBits(value, length)
    {
      hide BytesBits, ValueBits, Pow2, Or, Shr, Shl;
      ghost var emitted, buf, valid := delivered + pending, biBuf, biValid;
      CarryLength(emitted, buf, valid, sent);
      var both := Or(biBuf, Shl(value, biValid)) % 65536;
      if biValid + length > 16 {
        biBuf := both;
        var lo: byte, hi: byte := biBuf % 256, biBuf / 256;
        pending := pending + [lo];
        pending := pending + [hi];
        biBuf := Shr(value % 65536, 16 - biValid);
        CarryOver(emitted, buf, valid, sent, value, length, both, lo, hi, biBuf);
        biValid := biValid + length - 16;
        assert delivered + pending == emitted + [lo] + [hi];
      } else {
        biBuf := both;
        CarryWithin(emitted, buf, valid, sent, value, length, biBuf);
        biValid := biValid + length;
      }
      sent := sent + ValueBits(value, length);
    }

    /** bi_flush: keep at most 7 bits in the buffer. */
    method BiFlush()
      requires Valid()
      modifies this`biBuf, this`biValid, this`pending
      ensures Valid() && biValid <= 7
    {
      hide BytesBits, ValueBits, Pow2, Shr;
      CarryLength(delivered + pending, biBuf, biValid, sent);
      ghost var emitted := delivered + pending;
      if biValid == 16 {
        CarrySmall(emitted, biBuf, 16, sent);
        CarryShort(emitted, biBuf, sent, biBuf % 256, biBuf / 256);
        pending := pending + [(biBuf % 256) as byte] + [(biBuf / 256) as byte];
        assert delivered + pending == emitted + [biBuf % 256] + [biBuf / 256];
        biBuf := 0;
        biValid := 0;
      } else if biValid >= 8 {
        CarryByte(emitted, biBuf, biValid, sent, biBuf % 256, Shr(biBuf, 8));
        pending := pending + [(biBuf % 256) as byte];
        assert delivered + pending == emitted + [biBuf % 256];
        biBuf := Shr(biBuf, 8);
        biValid := biValid - 8;
      }
    }

    /** bi_windup: align the output on a byte boundary. */
    method BiWindup()
      requires Valid()
      modifies this`biBuf, this`biValid, this`pending, this`sent
      ensures Valid() && biValid == 0 && biBuf == 0 && sent == old(sent) + Zeros(Padding(|old(sent)|))
    {
      hide BytesBits, ValueBits, Pow2, Zeros, Padding;
      ghost var emitted, pad := delivered + pending, Zeros(Padding(|sent|));
      CarryLength(emitted, biBuf, biValid, sent);
      if biValid > 8 {
        CarrySmall(emitted, biBuf, biValid, sent);
        CarryWindupShort(emitted, biBuf, biValid, sent, biBuf % 256, biBuf / 256);
        pending := pending + [(biBuf % 256) as byte] + [(biBuf / 256) as byte];
        assert delivered + pending == emitted + [biBuf % 256] + [biBuf / 256];
      } else if biValid > 0 {
        CarryWindupByte(emitted, biBuf, biValid, sent, biBuf % 256);
        pending := pending + [(biBuf % 256) as byte];
        assert delivered + pending == emitted + [biBuf % 256];
      } else {
        CarryEmpty(emitted, biBuf, sent);
        assert pad == [] && sent + [] == sent;
      }
      biBuf := 0;
      biValid := 0;
      sent := sent + pad;
    }

    /** flush_pending: hand as much pending output over as there is room for. */
    method FlushPending()
      requires Valid()
      modifies this`pending, this`delivered, this`availOut
      ensures Valid() && delivered + pending == old(delivered + pending) && old(delivered) <= delivered
      ensures |delivered| - |old(delivered)| == old(availOut) - availOut
      ensures pending == [] || availOut == 0
      ensures availOut > 0 <==> |old(pending)| < old(availOut)
    {
      var len := |pending|;
      if len > availOut {
        len := availOut;
      }
      if len == 0 {
        return;
      }
      ghost var all := delivered + pending;
      delivered := delivered + pending[..len];
      pending := pending[len..];
      availOut := availOut - len;
      assert delivered + pending == all;
    }
  }

  lemma CarryEmpty(emitted: seq<byte>, buf: nat, sent: seq<bool>)
    ensures Carries(emitted, buf, 0, sent) <==> buf == 0 && sent == BytesBits(emitted)
  {
  }

  lemma CarrySmall(emitted: seq<byte>, buf: nat, valid: nat, sent: seq<bool>)
    requires Carries(emitted, buf, valid, sent)
    ensures buf < 65536
  {
    Pow2Mono(valid, 16);
    Pow2Values();
  }
}
