/** UPDATE_HASH: a running hash of three bytes, and why equal hashes make the third byte equal. */
module RollingHash {
  import opened Sums
  import opened Bits
  import opened BitWriter

  /** Bitwise exclusive or. */
  function Xor(a: nat, b: nat): nat
    decreases a + b
  {
    if a == 0 && b == 0 then 0
    else 2 * Xor(a / 2, b / 2) + if a % 2 == b % 2 then 0 else 1
  }

  /** v & (2^n - 1). */
  function Mask(v: nat, n: nat): nat
  {
    if n == 0 then 0 else 2 * Mask(v / 2, n - 1) + v % 2
  }

  lemma {:induction false} MaskBits(v: nat, n: nat)
    ensures Mask(v, n) < Pow2(n) && ValueBits(Mask(v, n), n) == ValueBits(v, n)
  {
    if n > 0 {
      MaskBits(v / 2, n - 1);
      assert Mask(v, n) / 2 == Mask(v / 2, n - 1) && Mask(v, n) % 2 == v % 2;
    }
  }

  /** Bit i of v. */
  function Bit(v: nat, i: nat): bool
  {
    if i == 0 then v % 2 == 1 else Bit(v / 2, i - 1)
  }

  lemma {:induction false} ValueBitsBit(v: nat, n: nat, i: nat)
    requires i < n
    ensures ValueBits(v, n)[i] == Bit(v, i)
  {
    if i > 0 {
      ValueBitsBit(v / 2, n - 1, i - 1);
    }
  }

  lemma {:induction false} XorBit(a: nat, b: nat, i: nat)
    ensures Bit(Xor(a, b), i) == (Bit(a, i) != Bit(b, i))
    decreases i
  {
    if a == 0 && b == 0 {
      ZeroBit(i);
    } else {
      assert Xor(a, b) / 2 == Xor(a / 2, b / 2);
      if i > 0 {
        XorBit(a / 2, b / 2, i - 1);
      }
    }
  }

  lemma {:induction false} ZeroBit(i: nat)
    ensures !Bit(0, i)
  {
    if i > 0 {
      ZeroBit(i - 1);
    }
  }

  lemma {:induction false} ShlBit(v: nat, s: nat, i: nat)
    ensures Bit(Shl(v, s), i) == (i >= s && Bit(v, i - s))
    decreases s
  {
    if s > 0 {
      assert Shl(v, s) == 2 * Shl(v, s - 1);
      if i > 0 {
        ShlBit(v, s - 1, i - 1);
      }
    }
  }

  lemma {:induction false} SmallBit(v: nat, n: nat, i: nat)
    requires v < Pow2(n) && i >= n
    ensures !Bit(v, i)
  {
    if n == 0 {
      ZeroBit(i);
    } else {
      SmallBit(v / 2, n - 1, i - 1);
    }
  }

  lemma MaskBit(v: nat, n: nat, i: nat)
    ensures Bit(Mask(v, n), i) == (i < n && Bit(v, i))
  {
    MaskBits(v, n);
    if i < n {
      ValueBitsBit(v, n, i);
      ValueBitsBit(Mask(v, n), n, i);
    } else {
      SmallBit(Mask(v, n), n, i);
    }
  }

  /** Numbers with the same bits are equal. */
  lemma SameBits(a: nat, b: nat, n: nat)
    requires a < Pow2(n) && b < Pow2(n) && forall i :: 0 <= i < n ==> Bit(a, i) == Bit(b, i)
    ensures a == b
  {
    forall i | 0 <= i < n ensures ValueBits(a, n)[i] == ValueBits(b, n)[i] {
      ValueBitsBit(a, n, i);
      ValueBitsBit(b, n, i);
    }
    assert ValueBits(a, n) == ValueBits(b, n);
    ValueRoundTrip(a, n);
    ValueRoundTrip(b, n);
  }

  /** hash_bits and hash_shift. */
  datatype HashSize = HashSize(bits: nat, shift: nat)

  /** deflateInit2_: hash_bits is memLevel + 7, and three shifts push a byte out. */
  ghost predicate SizeOk(z: HashSize)
  {
    8 <= z.bits <= 16 && z.shift == (z.bits + 2) / 3
  }

  function UpdateHash(z: HashSize, h: nat, c: byte): nat
  {
    Mask(Xor(Shl(h, z.shift), c), z.bits)
  }

  lemma UpdateBit(z: HashSize, h: nat, c: byte, i: nat)
    ensures Bit(UpdateHash(z, h, c), i) == (i < z.bits && (i >= z.shift && Bit(h, i - z.shift)) != Bit(c, i))
    ensures UpdateHash(z, h, c) < Pow2(z.bits)
  {
    MaskBits(Xor(Shl(h, z.shift), c), z.bits);
    MaskBit(Xor(Shl(h, z.shift), c), z.bits, i);
    XorBit(Shl(h, z.shift), c, i);
    ShlBit(h, z.shift, i);
  }

  /** The hash of three bytes. */
  function Hash3(z: HashSize, a: byte, b: byte, c: byte): nat
  {
    UpdateHash(z, UpdateHash(z, a, b), c)
  }

  lemma Hash3Bit(z: HashSize, h: nat, b: byte, c: byte, i: nat)
    requires i < z.bits
    ensures Bit(UpdateHash(z, UpdateHash(z, h, b), c), i) ==
            (((i >= 2 * z.shift && Bit(h, i - 2 * z.shift)) != (i >= z.shift && Bit(b, i - z.shift))) != Bit(c, i))
  {
    hide Bit, UpdateHash;
    UpdateBit(z, UpdateHash(z, h, b), c, i);
    if i >= z.shift {
      UpdateBit(z, h, b, i - z.shift);
    }
  }

  /** The hash rolls: the oldest of four bytes no longer takes part in the key. */
  lemma HashRolls(z: HashSize, a: byte, b: byte, c: byte, d: byte)
    requires SizeOk(z)
    ensures UpdateHash(z, Hash3(z, a, b, c), d) == Hash3(z, b, c, d)
  {
    hide Bit, UpdateHash;
    var x, y := UpdateHash(z, Hash3(z, a, b, c), d), Hash3(z, b, c, d);
    UpdateBit(z, Hash3(z, a, b, c), d, 0);
    UpdateBit(z, UpdateHash(z, b, c), d, 0);
    forall i | 0 <= i < z.bits ensures Bit(x, i) == Bit(y, i) {
      Hash3Bit(z, UpdateHash(z, a, b), c, d, i);
      Hash3Bit(z, b, c, d, i);
      if i >= 2 * z.shift {
        UpdateBit(z, a, b, i - 2 * z.shift);
      }
    }
    SameBits(x, y, z.bits);
  }

  /** With equal hashes and two equal bytes the third byte is equal too. */
  lemma ThirdByte(z: HashSize, a: byte, b: byte, c: byte, d: byte)
    requires SizeOk(z) && Hash3(z, a, b, c) == Hash3(z, a, b, d)
    ensures c == d
  {
    hide Bit, UpdateHash;
    ByteBound(c, z);
    ByteBound(d, z);
    forall i | 0 <= i < z.bits ensures Bit(c, i) == Bit(d, i) {
      Hash3Bit(z, a, b, c, i);
      Hash3Bit(z, a, b, d, i);
    }
    SameBits(c, d, z.bits);
  }

  lemma ByteBound(c: byte, z: HashSize)
    requires SizeOk(z)
    ensures c < Pow2(z.bits)
  {
    Pow2Mono(8, z.bits);
    Pow2Values();
  }

  lemma HashBelow(z: HashSize, h: nat, c: byte)
    ensures UpdateHash(z, h, c) < Pow2(z.bits)
  {
    MaskBits(Xor(Shl(h, z.shift), c), z.bits);
  }
}
