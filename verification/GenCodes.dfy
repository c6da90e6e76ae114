/** gen_codes and bi_reverse: the codes of RFC 1951, ready to be sent least significant bit first. */
module GenCodes {
  import opened Sums
  import opened Bits
  import opened HuffmanCode
  import opened CanonicalCodes

  /** codes, sent least significant bit first, are the codewords belonging to lens. */
  ghost predicate CodesFor(codes: seq<nat>, lens: seq<nat>)
  {
    && |codes| >= |lens|
    && forall n :: 0 <= n < |lens| && lens[n] > 0 ==> CodeFor(codes[n], lens, n)
  }

  ghost predicate CodeFor(code: nat, lens: seq<nat>, n: nat)
    requires n < |lens|
  {
    code < Pow2(lens[n]) && ValueBits(code, lens[n]) == Codeword(lens, n)
  }

  /** Reverse the first len bits of a code. */
  method BiReverse(code0: nat, len0: nat) returns (r: nat)
    requires len0 >= 1
    ensures r < Pow2(len0)
    ensures ValueBits(r, len0) == CodeBits(code0, len0)
  {
    var code, len, res := code0, len0, 0;
    ghost var k, rev: nat := 0, 0;
    assert ValueBits(0, 0) == [] && CodeBits(code0, len0) + [] == CodeBits(code0, len0);
    while len > 0
      invariant k + len == len0 && res == 2 * rev && rev < Pow2(k)
      invariant CodeBits(code, len) + ValueBits(rev, k) == CodeBits(code0, len0)
    {
      res := res + code % 2;
      AppendBit(code, len, rev, k);
      rev, k := res, k + 1;
      code, res, len := code / 2, res * 2, len - 1;
    }
    assert CodeBits(code, 0) == [];
    r := res / 2;
  }

  lemma AppendBit(code: nat, len: nat, rev: nat, k: nat)
    requires len > 0
    ensures CodeBits(code, len) + ValueBits(rev, k) ==
            CodeBits(code / 2, len - 1) + ValueBits(2 * rev + code % 2, k + 1)
  {
    var v := 2 * rev + code % 2;
    assert v / 2 == rev && v % 2 == code % 2;
    assert ValueBits(v, k + 1) == [code % 2 == 1] + ValueBits(rev, k);
    assert CodeBits(code, len) == CodeBits(code / 2, len - 1) + [code % 2 == 1];
  }

  /** Complete within a smaller limit is complete within 15 bits. */
  lemma CompleteWide(lens: seq<nat>, limit: nat)
    requires Complete(lens, limit) && limit <= MAX_BITS
    ensures Complete(lens, MAX_BITS)
  {
    FirstCodeRoom(lens, limit, limit);
    FirstCodeRoom(lens, limit, MAX_BITS);
    assert RoomsTo(lens, limit, limit) == Rooms(lens, limit);
    assert RoomsTo(lens, limit, MAX_BITS) == Rooms(lens, MAX_BITS);
    ShlPow2(limit, MAX_BITS - limit);
  }

  lemma CodesSmall(lens: seq<nat>, b: nat)
    requires Complete(lens, MAX_BITS) && b <= MAX_BITS
    ensures FirstCode(lens, b) + BlCount(lens, b) <= Pow2(b) <= 0x8000
  {
    CodesFit(lens, b, MAX_BITS);
    Pow2Mono(b, MAX_BITS);
    Pow2Values();
  }

  lemma NextFirst(lens: seq<nat>, b: nat, code: nat, bl: nat)
    requires Complete(lens, MAX_BITS) && 1 <= b <= MAX_BITS
    requires code == FirstCode(lens, b - 1) && bl == BlCount(lens, b - 1)
    ensures (code + bl) * 2 % 0x1_0000 == FirstCode(lens, b)
  {
    CodesSmall(lens, b - 1);
    CodesSmall(lens, b);
  }

  lemma FirstCodeZero(lens: seq<nat>)
    ensures FirstCode(lens, 0) == 0
  {
  }

  /** The first code of each length, in 16-bit arithmetic. */
  method FirstCodes(blCount: array<nat>, ghost lens: seq<nat>) returns (nextCode: array<nat>)
    requires blCount.Length == MAX_BITS + 1 && Complete(lens, MAX_BITS)
    requires forall b :: 0 <= b <= MAX_BITS ==> blCount[b] == BlCount(lens, b)
    ensures fresh(nextCode) && nextCode.Length == MAX_BITS + 1
    ensures forall b :: 1 <= b <= MAX_BITS ==> nextCode[b] == FirstCode(lens, b)
  {
    hide Complete, FirstCode, BlCount;
    FirstCodeZero(lens);
    nextCode := new nat[MAX_BITS + 1];
    var code: nat := 0;
    var bits := 1;
    while bits <= MAX_BITS
      invariant 1 <= bits <= MAX_BITS + 1
      invariant code == FirstCode(lens, bits - 1)
      invariant forall b :: 1 <= b < bits ==> nextCode[b] == FirstCode(lens, b)
    {
      NextFirst(lens, bits, code, blCount[bits - 1]);
      code := (code + blCount[bits - 1]) * 2 % 0x1_0000;
      nextCode[bits] := code;
      bits := bits + 1;
    }
  }

  lemma CountNext(lens: seq<nat>, n: nat, b: nat)
    requires n < |lens|
    ensures Count(lens[..n + 1], b) == Count(lens[..n], b) + if lens[n] == b then 1 else 0
  {
    assert lens[..n + 1][..n] == lens[..n];
  }

  lemma CodeIs(lens: seq<nat>, n: nat, code: nat, rev: nat)
    requires Complete(lens, MAX_BITS) && n < |lens| && lens[n] > 0
    requires code == FirstCode(lens, lens[n]) + Count(lens[..n], lens[n])
    requires rev < Pow2(lens[n]) && ValueBits(rev, lens[n]) == CodeBits(code, lens[n])
    ensures CodeFor(rev, lens, n) && code < 0x8000
  {
    hide FirstCode, CodeBits, ValueBits, Pow2, Count;
    CodeFits(lens, n, MAX_BITS);
    CodesSmall(lens, lens[n]);
  }

  /** next_code when the symbols below n have their codes. */
  ghost predicate NextCodes(next: seq<nat>, lens: seq<nat>, n: nat)
  {
    && |next| == MAX_BITS + 1 && n <= |lens|
    && forall b :: 1 <= b <= MAX_BITS ==> next[b] == FirstCode(lens, b) + Count(lens[..n], b)
  }

  lemma NextCodesStart(next: seq<nat>, lens: seq<nat>)
    requires |next| == MAX_BITS + 1 && forall b :: 1 <= b <= MAX_BITS ==> next[b] == FirstCode(lens, b)
    ensures NextCodes(next, lens, 0)
  {
    assert lens[..0] == [];
  }

  lemma NextCodesSkip(next: seq<nat>, lens: seq<nat>, n: nat)
    requires NextCodes(next, lens, n) && n < |lens| && lens[n] == 0
    ensures NextCodes(next, lens, n + 1)
  {
    forall b | 1 <= b <= MAX_BITS ensures Count(lens[..n + 1], b) == Count(lens[..n], b) {
      CountNext(lens, n, b);
    }
  }

  /** Symbol n takes the next code of its length; the counter stays within 16 bits. */
  lemma NextCodesTake(next: seq<nat>, lens: seq<nat>, n: nat, rev: nat)
    requires NextCodes(next, lens, n) && n < |lens| && 0 < lens[n] <= MAX_BITS && Complete(lens, MAX_BITS)
    requires rev < Pow2(lens[n]) && ValueBits(rev, lens[n]) == CodeBits(next[lens[n]], lens[n])
    ensures NextCodes(next[lens[n] := (next[lens[n]] + 1) % 0x1_0000], lens, n + 1)
    ensures CodeFor(rev, lens, n)
  {
    hide Complete, FirstCode;
    CodeIs(lens, n, next[lens[n]], rev);
    forall b | 1 <= b <= MAX_BITS
      ensures Count(lens[..n + 1], b) == Count(lens[..n], b) + if lens[n] == b then 1 else 0
    {
      CountNext(lens, n, b);
    }
  }

  /** Generate the codes of all symbols up to maxCode that have a length. */
  method GenCodes(fc: array<nat>, dl: array<nat>, maxCode: nat, blCount: array<nat>)
    requires fc != dl && fc != blCount && maxCode < dl.Length == fc.Length && blCount.Length == MAX_BITS + 1
    requires Complete(dl[..maxCode + 1], MAX_BITS)
    requires forall b :: 0 <= b <= MAX_BITS ==> blCount[b] == BlCount(dl[..maxCode + 1], b)
    modifies fc
    ensures CodesFor(fc[..], dl[..maxCode + 1])
    ensures forall n :: maxCode < n < fc.Length ==> fc[n] == old(fc[n])
  {
    hide Complete, FirstCode, BlCount, CodeFor, NextCodes, Count;
    ghost var lens := dl[..maxCode + 1];
    LensWithin(lens);
    var nextCode := FirstCodes(blCount, lens);
    NextCodesStart(nextCode[..], lens);
    var n := 0;
    while n <= maxCode
      invariant 0 <= n <= maxCode + 1 && dl[..maxCode + 1] == lens
      invariant NextCodes(nextCode[..], lens, n)
      invariant forall m :: 0 <= m < n && lens[m] > 0 ==> CodeFor(fc[m], lens, m)
      invariant forall n :: maxCode < n < fc.Length ==> fc[n] == old(fc[n])
    {
      var len := dl[n];
      assert len == lens[n];
      if len == 0 {
        NextCodesSkip(nextCode[..], lens, n);
        n := n + 1;
        continue;
      }
      var rev := BiReverse(nextCode[len], len);
      NextCodesTake(nextCode[..], lens, n, rev);
      fc[n] := rev;
      ghost var next := nextCode[..];
      nextCode[len] := (nextCode[len] + 1) % 0x1_0000;
      assert nextCode[..] == next[len := nextCode[len]];
      n := n + 1;
    }
  }

  lemma LensWithin(lens: seq<nat>)
    requires Complete(lens, MAX_BITS)
    ensures forall n :: 0 <= n < |lens| ==> lens[n] <= MAX_BITS
  {
  }
}
