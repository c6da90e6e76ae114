/** Bit strings: the two packing orders of RFC 1951 section 3.1.1, and bytes as bits. */
module Bits {
  import opened Sums

  type byte = b: int | 0 <= b < 256

  /** The n low bits of v, least significant first: how numbers are packed. */
  function ValueBits(v: nat, n: nat): (b: seq<bool>)
    ensures |b| == n
  {
    if n == 0 then [] else [v % 2 == 1] + ValueBits(v / 2, n - 1)
  }

  /** The number whose bits, least significant first, are b. */
  function BitsValue(b: seq<bool>): nat
  {
    if b == [] then 0 else (if b[0] then 1 else 0) + 2 * BitsValue(b[1..])
  }

  /** The n low bits of c, most significant first: how Huffman codes are packed. */
  function CodeBits(c: nat, n: nat): (b: seq<bool>)
    ensures |b| == n
  {
    if n == 0 then [] else CodeBits(c / 2, n - 1) + [c % 2 == 1]
  }

  /** The bit stream carried by a sequence of bytes. */
  function BytesBits(bs: seq<byte>): (b: seq<bool>)
    ensures |b| == 8 * |bs|
  {
    if bs == [] then [] else ValueBits(bs[0], 8) + BytesBits(bs[1..])
  }

  lemma {:induction false} ValueRoundTrip(v: nat, n: nat)
    requires v < Pow2(n)
    ensures BitsValue(ValueBits(v, n)) == v
  {
    if n > 0 {
      ValueRoundTrip(v / 2, n - 1);
      assert ValueBits(v, n)[1..] == ValueBits(v / 2, n - 1);
    }
  }

  lemma {:induction false} BitsValueBound(b: seq<bool>)
    ensures BitsValue(b) < Pow2(|b|)
  {
    if b != [] {
      BitsValueBound(b[1..]);
    }
  }

  /** Placing hi above k bits of lo concatenates the two bit strings. */
  lemma {:induction false} ValueBitsConcat(lo: nat, hi: nat, k: nat, n: nat)
    requires lo < Pow2(k)
    ensures Shl(hi, k) >= 0
    ensures ValueBits(lo + Shl(hi, k), k + n) == ValueBits(lo, k) + ValueBits(hi, n)
  {
    if k == 0 {
      assert ValueBits(lo, k) == [];
    } else {
      ValueBitsConcat(lo / 2, hi, k - 1, n);
      var v := lo + Shl(hi, k);
      assert v % 2 == lo % 2 && v / 2 == lo / 2 + Shl(hi, k - 1);
      assert ValueBits(v, k + n) == [v % 2 == 1] + ValueBits(v / 2, k - 1 + n);
    }
  }

  lemma {:induction false} ValueBitsZero(n: nat)
    ensures ValueBits(0, n) == seq(n, i => false)
  {
    if n > 0 {
      ValueBitsZero(n - 1);
    }
  }

  lemma {:induction false} BytesBitsAppend(a: seq<byte>, b: seq<byte>)
    ensures BytesBits(a + b) == BytesBits(a) + BytesBits(b)
  {
    if a == [] {
      assert a + b == b;
    } else {
      BytesBitsAppend(a[1..], b);
      assert (a + b)[0] == a[0] && (a + b)[1..] == a[1..] + b;
      ConcatAssoc(ValueBits(a[0], 8), BytesBits(a[1..]), BytesBits(b));
    }
  }

  lemma ConcatAssoc(x: seq<bool>, y: seq<bool>, z: seq<bool>)
    ensures (x + y) + z == x + (y + z)
  {
  }

  /** Distinct numbers of n bits have distinct codes of n bits. */
  lemma {:induction false} CodeBitsInjective(c: nat, d: nat, n: nat)
    requires c < Pow2(n) && d < Pow2(n)
    requires CodeBits(c, n) == CodeBits(d, n)
    ensures c == d
  {
    if n > 0 {
      var x, y := CodeBits(c, n), CodeBits(d, n);
      assert x[..n - 1] == CodeBits(c / 2, n - 1) && y[..n - 1] == CodeBits(d / 2, n - 1);
      assert x[n - 1] == (c % 2 == 1) && y[n - 1] == (d % 2 == 1);
      CodeBitsInjective(c / 2, d / 2, n - 1);
    }
  }

  /** The first n bits of a code of n + k bits are the code shifted right by k. */
  lemma {:induction false} CodeBitsPrefix(c: nat, n: nat, k: nat)
    ensures CodeBits(c, n + k)[..n] == CodeBits(Shr(c, k), n)
  {
    if k > 0 {
      CodeBitsPrefix(c / 2, n, k - 1);
      assert CodeBits(c, n + k)[..n] == CodeBits(c / 2, n + k - 1)[..n];
    }
  }
}
