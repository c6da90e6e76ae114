/** tr_static_init: the constant tables, shown to be those of RFC 1951 sections 3.2.5 and 3.2.6. */
module StaticTables {
  import opened Sums
  import opened Bits
  import opened HuffmanCode
  import opened CanonicalCodes
  import opened Inflate
  import opened GenCodes

  const LITERALS: nat := 256
  const LENGTH_CODES: nat := 29
  const L_CODES: nat := 286
  const D_CODES: nat := 30
  const BL_CODES: nat := 19
  const END_BLOCK: nat := 256
  const MIN_MATCH: nat := 3
  const MAX_MATCH: nat := 258

  const EXTRA_LBITS: seq<nat> :=
    [0, 0, 0, 0, 0, 0, 0, 0, 1, 1, 1, 1, 2, 2, 2, 2, 3, 3, 3, 3, 4, 4, 4, 4, 5, 5, 5, 5, 0]

  const EXTRA_DBITS: seq<nat> :=
    [0, 0, 0, 0, 1, 1, 2, 2, 3, 3, 4, 4, 5, 5, 6, 6, 7, 7, 8, 8, 9, 9, 10, 10, 11, 11, 12, 12, 13, 13]

  const EXTRA_BLBITS: seq<nat> := [0, 0, 0, 0, 0, 0, 0, 0, 0, 0, 0, 0, 0, 0, 0, 0, 2, 3, 7]

  const BL_ORDER: seq<nat> := [16, 17, 18, 0, 8, 7, 9, 6, 10, 5, 11, 4, 12, 3, 13, 2, 14, 1, 15]

  // ---------- Length codes ----------

  /** Code c stands for a block of 2^extra lengths that holds l + 3. */
  ghost predicate LengthBlock(l: nat, c: nat)
  {
    c < LENGTH_CODES && LENGTH_BASE[c] <= l + 3 < LENGTH_BASE[c] + Pow2(LENGTH_EXTRA[c])
  }

  /** Every normalized length l is sent as the RFC's length symbol 257 + lenCode[l], and what
      base_length leaves over fits the extra bits. */
  ghost predicate LengthTablesOk(lenCode: seq<nat>, base: seq<nat>)
  {
    && |lenCode| == 256 && |base| == LENGTH_CODES
    && (forall l :: 0 <= l < 256 ==> LengthBlock(l, lenCode[l]))
    && (forall c :: 0 <= c < 28 ==> base[c] + 3 == LENGTH_BASE[c])
  }

  function LengthStart(c: nat): nat
    requires c < LENGTH_CODES
  {
    if c == 28 then 256 else LENGTH_BASE[c] - 3
  }

  lemma LengthStep(c: nat)
    requires c < 28
    ensures EXTRA_LBITS[c] == LENGTH_EXTRA[c]
    ensures LengthStart(c + 1) == LengthStart(c) + Pow2(LENGTH_EXTRA[c]) <= 256
    ensures LENGTH_BASE[c] == LengthStart(c) + 3
    ensures LengthStart(0) == 0
  {
    Pow2Values();
    hide Pow2;
  }

  lemma InLengthBlock(c: nat, n: nat)
    requires c < 28 && n < Pow2(LENGTH_EXTRA[c])
    ensures LengthBlock(LengthStart(c) + n, c)
  {
    hide Pow2;
  }

  method InitLengths(lenCode: array<nat>, base: array<nat>)
    requires lenCode != base && lenCode.Length == 256 && base.Length == LENGTH_CODES
    modifies lenCode, base
    ensures LengthTablesOk(lenCode[..], base[..])
  {
    hide Pow2, LengthBlock, LengthStart;
    var length, code := 0, 0;
    LengthStep(0);
    while code < LENGTH_CODES - 1
      invariant 0 <= code <= 28 && length == LengthStart(code) <= 256
      invariant forall c :: 0 <= c < code ==> base[c] == LengthStart(c)
      invariant forall l :: 0 <= l < length ==> LengthBlock(l, lenCode[l])
    {
      LengthStep(code);
      base[code] := length;
      var n := 0;
      while n < Pow2(EXTRA_LBITS[code])
        invariant 0 <= n <= Pow2(EXTRA_LBITS[code]) && length == LengthStart(code) + n
        invariant forall c :: 0 <= c <= code ==> base[c] == LengthStart(c)
        invariant forall l :: 0 <= l < length ==> LengthBlock(l, lenCode[l])
      {
        InLengthBlock(code, n);
        lenCode[length] := code;
        length := length + 1;
        n := n + 1;
      }
      code := code + 1;
    }
    LastLength();
    lenCode[length - 1] := code;
    LengthTables(lenCode[..], base[..]);
  }

  lemma LastLength()
    ensures LengthBlock(255, 28) && LengthStart(28) == 256
  {
  }

  lemma LengthTables(lenCode: seq<nat>, base: seq<nat>)
    requires |lenCode| == 256 && |base| == LENGTH_CODES
    requires forall l :: 0 <= l < 256 ==> LengthBlock(l, lenCode[l])
    requires forall c :: 0 <= c < 28 ==> base[c] == LengthStart(c)
    ensures LengthTablesOk(lenCode, base)
  {
    hide LengthBlock;
    forall c | 0 <= c < 28 ensures base[c] + 3 == LENGTH_BASE[c] {
      LengthStep(c);
    }
  }

  // ---------- Distance codes ----------

  /** d_code. */
  function DCode(distCode: seq<nat>, dist: nat): nat
    requires |distCode| == 512 && dist < 32768
  {
    if dist < 256 then distCode[dist] else distCode[256 + dist / 128]
  }

  ghost predicate DistBlock(d: nat, c: nat)
  {
    c < D_CODES && DIST_BASE[c] <= d + 1 < DIST_BASE[c] + Pow2(DIST_EXTRA[c])
  }

  /** Every distance d + 1 is sent as the RFC's distance symbol DCode(d). */
  ghost predicate DistTablesOk(distCode: seq<nat>, base: seq<nat>)
  {
    && |distCode| == 512 && |base| == D_CODES
    && (forall d :: 0 <= d < 32768 ==> DistBlock(d, DCode(distCode, d)))
    && (forall c :: 0 <= c < D_CODES ==> base[c] + 1 == DIST_BASE[c])
  }

  function DistStart(c: nat): nat
    requires c <= D_CODES
  {
    if c == D_CODES then 32768 else DIST_BASE[c] - 1
  }

  lemma DistStep(c: nat)
    requires c < 16
    ensures EXTRA_DBITS[c] == DIST_EXTRA[c]
    ensures DistStart(c + 1) == DistStart(c) + Pow2(DIST_EXTRA[c]) <= 256
    ensures DIST_BASE[c] == DistStart(c) + 1
    ensures DistStart(0) == 0 && DistStart(16) == 256 && DistStart(D_CODES) == 32768
  {
    Pow2Values();
    hide Pow2;
  }

  /** From code 16 on, distances come in blocks of 128. */
  lemma FarDistStep(c: nat)
    requires 16 <= c < D_CODES
    ensures EXTRA_DBITS[c] == DIST_EXTRA[c] >= 7
    ensures DistStart(c) % 128 == 0
    ensures Pow2(DIST_EXTRA[c]) == 128 * Pow2(DIST_EXTRA[c] - 7)
    ensures DistStart(c + 1) == DistStart(c) + 128 * Pow2(DIST_EXTRA[c] - 7) <= 32768
    ensures DIST_BASE[c] == DistStart(c) + 1
  {
    Pow2Values();
    hide Pow2;
  }

  /** Block k of 128 distances lies within code c. */
  ghost predicate FarBlock(k: nat, c: nat)
  {
    c < D_CODES && DIST_BASE[c] <= 128 * k + 1 && 128 * k + 128 < DIST_BASE[c] + Pow2(DIST_EXTRA[c])
  }

  lemma InDistBlock(c: nat, n: nat)
    requires c < 16 && n < Pow2(DIST_EXTRA[c])
    ensures DistBlock(DistStart(c) + n, c)
  {
    hide Pow2;
  }

  lemma InFarBlock(c: nat, n: nat, k: nat)
    requires 16 <= c < D_CODES && n < Pow2(DIST_EXTRA[c] - 7) && 128 * k == DistStart(c) + 128 * n
    ensures FarBlock(k, c)
  {
    FarDistStep(c);
    hide Pow2;
  }

  method InitNearDists(distCode: array<nat>, base: array<nat>)
    requires distCode != base && distCode.Length == 512 && base.Length == D_CODES
    modifies distCode, base
    ensures forall d :: 0 <= d < 256 ==> DistBlock(d, distCode[d])
    ensures forall c :: 0 <= c < 16 ==> base[c] == DistStart(c)
  {
    hide Pow2, DistBlock, DistStart;
    var dist, code := 0, 0;
    DistStep(0);
    while code < 16
      invariant 0 <= code <= 16 && dist == DistStart(code) <= 256
      invariant forall c :: 0 <= c < code ==> base[c] == DistStart(c)
      invariant forall d :: 0 <= d < dist ==> DistBlock(d, distCode[d])
    {
      DistStep(code);
      base[code] := dist;
      var n := 0;
      while n < Pow2(EXTRA_DBITS[code])
        invariant 0 <= n <= Pow2(EXTRA_DBITS[code]) && dist == DistStart(code) + n
        invariant forall c :: 0 <= c <= code ==> base[c] == DistStart(c)
        invariant forall d :: 0 <= d < dist ==> DistBlock(d, distCode[d])
      {
        InDistBlock(code, n);
        distCode[dist] := code;
        dist := dist + 1;
        n := n + 1;
      }
      code := code + 1;
    }
  }

  method InitFarDists(distCode: array<nat>, base: array<nat>)
    requires distCode != base && distCode.Length == 512 && base.Length == D_CODES
    modifies distCode, base
    ensures forall d :: 0 <= d < 256 ==> distCode[d] == old(distCode[d])
    ensures forall c :: 0 <= c < 16 ==> base[c] == old(base[c])
    ensures forall i :: 258 <= i < 512 ==> FarBlock(i - 256, distCode[i])
    ensures forall c :: 16 <= c < D_CODES ==> base[c] == DistStart(c)
  {
    hide Pow2, FarBlock, DistStart;
    var dist, code := 256 / 128, 16;
    DistStep(0);
    while code < D_CODES
      invariant 16 <= code <= D_CODES && 128 * dist == DistStart(code) && dist <= 256
      invariant forall d :: 0 <= d < 256 ==> distCode[d] == old(distCode[d])
      invariant forall c :: 0 <= c < 16 ==> base[c] == old(base[c])
      invariant forall c :: 16 <= c < code ==> base[c] == DistStart(c)
      invariant forall i :: 258 <= i < 256 + dist ==> FarBlock(i - 256, distCode[i])
    {
      FarDistStep(code);
      base[code] := dist * 128;
      var n := 0;
      ghost var start := dist;
      while n < Pow2(EXTRA_DBITS[code] - 7)
        invariant 0 <= n <= Pow2(EXTRA_DBITS[code] - 7) && dist == start + n
        invariant forall d :: 0 <= d < 256 ==> distCode[d] == old(distCode[d])
        invariant forall c :: 0 <= c < 16 ==> base[c] == old(base[c])
        invariant forall c :: 16 <= c <= code ==> base[c] == DistStart(c)
        invariant forall i :: 258 <= i < 256 + dist ==> FarBlock(i - 256, distCode[i])
      {
        InFarBlock(code, n, dist);
        distCode[256 + dist] := code;
        dist := dist + 1;
        n := n + 1;
      }
      code := code + 1;
    }
  }

  lemma DistBase(c: nat)
    requires c < D_CODES
    ensures DIST_BASE[c] == DistStart(c) + 1
  {
  }

  lemma DistTables(distCode: seq<nat>, base: seq<nat>)
    requires |distCode| == 512 && |base| == D_CODES
    requires forall d :: 0 <= d < 256 ==> DistBlock(d, distCode[d])
    requires forall i :: 258 <= i < 512 ==> FarBlock(i - 256, distCode[i])
    requires forall c :: 0 <= c < D_CODES ==> base[c] == DistStart(c)
    ensures DistTablesOk(distCode, base)
  {
    hide Pow2;
    forall c | 0 <= c < D_CODES ensures base[c] + 1 == DIST_BASE[c] {
      DistBase(c);
    }
    forall d | 0 <= d < 32768 ensures DistBlock(d, DCode(distCode, d)) {
      if d >= 256 {
        var k := d / 128;
        assert FarBlock(256 + k - 256, distCode[256 + k]);
      }
    }
  }

  // ---------- The static trees ----------

  /** Symbol x is sent with the codeword that the lengths give it. */
  ghost predicate Sends(fc: seq<nat>, dl: seq<nat>, lens: seq<nat>, x: nat)
  {
    && x < |fc| && x < |dl| && x < |lens|
    && dl[x] == lens[x] && 0 < lens[x] <= MAX_BITS && CodeFor(fc[x], lens, x)
  }

  lemma FixedLitParts()
    ensures forall x :: 0 <= x < 288 ==>
              FixedLit()[x] == if x < 144 then 8 else if x < 256 then 9 else if x < 280 then 7 else 8
  {
  }

  lemma {:induction false} RoomsRepeat(l: nat, k: nat, limit: nat)
    ensures Sum(Rooms(Repeat(l, k), limit)) == k * Room(l, limit)
  {
    hide Room;
    if k > 0 {
      RoomsRepeat(l, k - 1, limit);
      var r := Rooms(Repeat(l, k), limit);
      assert r[..k - 1] == Rooms(Repeat(l, k - 1), limit);
      OneMore(k, Room(l, limit));
    }
  }

  lemma OneMore(k: nat, r: nat)
    requires k > 0
    ensures (k - 1) * r + r == k * r
  {
  }

  lemma RoomsAppend(a: seq<nat>, b: seq<nat>, limit: nat)
    ensures Sum(Rooms(a + b, limit)) == Sum(Rooms(a, limit)) + Sum(Rooms(b, limit))
  {
    assert Rooms(a + b, limit) == Rooms(a, limit) + Rooms(b, limit);
    SumAppend(Rooms(a, limit), Rooms(b, limit));
  }

  /** The fixed codes are complete. */
  lemma FixedComplete()
    ensures Complete(FixedLit(), MAX_BITS) && Complete(FixedDist(), MAX_BITS)
  {
    FixedLitParts();
    RoomsRepeat(8, 144, 15);
    RoomsRepeat(9, 112, 15);
    RoomsRepeat(7, 24, 15);
    RoomsRepeat(8, 8, 15);
    RoomsRepeat(5, 32, 15);
    RoomsAppend(Repeat(8, 144), Repeat(9, 112), 15);
    RoomsAppend(Repeat(8, 144) + Repeat(9, 112), Repeat(7, 24), 15);
    RoomsAppend(Repeat(8, 144) + Repeat(9, 112) + Repeat(7, 24), Repeat(8, 8), 15);
    Pow2Values();
  }

  /** The static distance code: symbol n is the number n itself, in five bits. */
  lemma FixedDistCode(n: nat)
    requires n < 32
    ensures Codeword(FixedDist(), n) == CodeBits(n, 5)
  {
    CountAll(FixedDist()[..n], 5);
    FirstFixedDist(5);
  }

  lemma {:induction false} FirstFixedDist(b: nat)
    requires b <= 5
    ensures FirstCode(FixedDist(), b) == 0
  {
    if b > 0 {
      FirstFixedDist(b - 1);
      CountNone(FixedDist(), b - 1);
    }
  }

  /** Symbols from n to last get the given length. */
  method FillLengths(dl: array<nat>, blCount: array<nat>, n0: nat, last: nat, len: nat) returns (n: nat)
    requires dl != blCount && dl.Length == 288 && blCount.Length == MAX_BITS + 1
    requires n0 <= last < 288 && 1 <= len <= MAX_BITS
    requires blCount[0] == 0 && forall b :: 1 <= b <= MAX_BITS ==> blCount[b] == Count(dl[..n0], b)
    modifies dl, blCount
    ensures n == last + 1
    ensures forall x :: 0 <= x < n0 ==> dl[x] == old(dl[x])
    ensures forall x :: n0 <= x < n ==> dl[x] == len
    ensures blCount[0] == 0 && forall b :: 1 <= b <= MAX_BITS ==> blCount[b] == Count(dl[..n], b)
  {
    hide Count;
    n := n0;
    while n <= last
      invariant n0 <= n <= last + 1
      invariant forall x :: 0 <= x < n0 ==> dl[x] == old(dl[x])
      invariant forall x :: n0 <= x < n ==> dl[x] == len
      invariant blCount[0] == 0 && forall b :: 1 <= b <= MAX_BITS ==> blCount[b] == Count(dl[..n], b)
    {
      ghost var before := dl[..n];
      dl[n] := len;
      blCount[len] := blCount[len] + 1;
      assert dl[..n + 1] == before + [len];
      CountOneMore(before, len);
      n := n + 1;
    }
  }

  /** static_ltree: bit lengths by their ranges, codes by gen_codes. */
  method InitLtree(fc: array<nat>, dl: array<nat>)
    requires fc != dl && fc.Length == dl.Length == 288
    modifies fc, dl
    ensures dl[..] == FixedLit()
    ensures forall x :: 0 <= x < 288 ==> Sends(fc[..], dl[..], FixedLit(), x)
  {
    hide Complete, CodeFor, Count, FixedLit;
    var blCount := new nat[MAX_BITS + 1](i => 0);
    CountEmpty(dl[..0]);
    var n := FillLengths(dl, blCount, 0, 143, 8);
    n := FillLengths(dl, blCount, n, 255, 9);
    n := FillLengths(dl, blCount, n, 279, 7);
    n := FillLengths(dl, blCount, n, 287, 8);
    assert dl[..288] == dl[..];
    FixedLitParts();
    assert dl[..] == FixedLit();
    FixedComplete();
    GenCodes.GenCodes(fc, dl, 287, blCount);
    FixedSends(fc[..], dl[..]);
  }

  lemma CountEmpty(s: seq<nat>)
    requires s == []
    ensures forall b :: Count(s, b) == 0
  {
  }

  lemma CountOneMore(s: seq<nat>, l: nat)
    ensures forall b :: Count(s + [l], b) == Count(s, b) + if l == b then 1 else 0
  {
    forall b ensures Count(s + [l], b) == Count(s, b) + if l == b then 1 else 0 {
      assert (s + [l])[..|s|] == s;
    }
  }

  lemma FixedSends(fc: seq<nat>, dl: seq<nat>)
    requires |fc| == 288 && dl == FixedLit() && CodesFor(fc, dl)
    ensures forall x :: 0 <= x < 288 ==> Sends(fc, dl, FixedLit(), x)
  {
    hide CodeFor;
    FixedLitParts();
  }

  /** static_dtree: five bits each. */
  method InitDtree(fc: array<nat>, dl: array<nat>)
    requires fc != dl && fc.Length == dl.Length == D_CODES
    modifies fc, dl
    ensures forall x :: 0 <= x < D_CODES ==> Sends(fc[..], dl[..], FixedDist(), x)
  {
    hide CodeBits, ValueBits, Codeword, Pow2;
    var n := 0;
    while n < D_CODES
      invariant 0 <= n <= D_CODES
      invariant forall x :: 0 <= x < n ==> dl[x] == 5 && CodeFor(fc[x], FixedDist(), x)
    {
      dl[n] := 5;
      var code := BiReverse(n, 5);
      FixedDistCode(n);
      fc[n] := code;
      n := n + 1;
    }
  }

  /** The tables, initialised only once and constant from then on. */
  class Tables {
    const lenCode: seq<nat>
    const baseLength: seq<nat>
    const distCode: seq<nat>
    const baseDist: seq<nat>
    const ltreeFc: seq<nat>
    const ltreeDl: seq<nat>
    const dtreeFc: seq<nat>
    const dtreeDl: seq<nat>

    ghost predicate Valid()
    {
      && LengthTablesOk(lenCode, baseLength)
      && DistTablesOk(distCode, baseDist)
      && (forall x :: 0 <= x < 288 ==> Sends(ltreeFc, ltreeDl, FixedLit(), x))
      && (forall x :: 0 <= x < D_CODES ==> Sends(dtreeFc, dtreeDl, FixedDist(), x))
    }

    constructor ()
      ensures Valid()
    {
      hide LengthTablesOk, DistTablesOk, DistBlock, FarBlock, Sends, FixedLit, FixedDist;
      var len, lenBase := new nat[256](i => 0), new nat[LENGTH_CODES](i => 0);
      InitLengths(len, lenBase);
      lenCode, baseLength := len[..], lenBase[..];
      var dist, distBase := new nat[512](i => 0), new nat[D_CODES](i => 0);
      InitNearDists(dist, distBase);
      InitFarDists(dist, distBase);
      DistTables(dist[..], distBase[..]);
      distCode, baseDist := dist[..], distBase[..];
      var lfc, ldl := new nat[288](i => 0), new nat[288](i => 0);
      InitLtree(lfc, ldl);
      ltreeFc, ltreeDl := lfc[..], ldl[..];
      var dfc, ddl := new nat[D_CODES](i => 0), new nat[D_CODES](i => 0);
      InitDtree(dfc, ddl);
      dtreeFc, dtreeDl := dfc[..], ddl[..];
    }
  }
}
