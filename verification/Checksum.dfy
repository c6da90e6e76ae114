/** adler32: the checksum with its modulus deferred. */
module Checksum {
  import opened Bits
  import opened Inflate

  const BASE: nat := 65521
  const NMAX: nat := 5552

  /** The largest values s1 and s2 can have after n bytes without a reduction. */
  function Bound1(n: nat): nat
  {
    BASE - 1 + 255 * n
  }

  function Bound2(n: nat): nat
  {
    if n == 0 then BASE - 1 else Bound2(n - 1) + Bound1(n)
  }

  lemma {:induction false} Bound2Closed(n: nat)
    ensures 2 * Bound2(n) == 2 * (n + 1) * (BASE - 1) + 255 * n * (n + 1)
  {
    if n > 0 {
      Bound2Closed(n - 1);
    }
  }

  lemma {:induction false} Bound2Mono(n: nat, k: nat)
    requires n <= k
    ensures Bound2(n) <= Bound2(k)
    decreases k
  {
    if n < k {
      Bound2Mono(n, k - 1);
    }
  }

  /** NMAX bytes fit into 32 bits, one more would not. */
  lemma NmaxFits(n: nat)
    requires n <= NMAX
    ensures Bound1(n) <= Bound2(n) < 0x1_0000_0000 <= Bound2(NMAX + 1)
  {
    Bound2Mono(n, NMAX);
    Bound2Closed(NMAX);
    Bound2Closed(NMAX + 1);
    Bound1Below(n);
  }

  lemma {:induction false} Bound1Below(n: nat)
    ensures Bound1(n) <= Bound2(n)
  {
  }

  lemma ModAdd(s: nat, x: nat)
    ensures (s + x) % BASE == (s % BASE + x) % BASE
  {
  }

  lemma AdlerNext(s: (nat, nat), data: seq<byte>, x: byte)
    ensures AdlerStep(s, data + [x]) ==
            var (a, b) := AdlerStep(s, data); ((a + x) % BASE, (b + (a + x) % BASE) % BASE)
  {
    assert (data + [x])[..|data|] == data;
  }

  /** Checksumming in two parts. */
  lemma {:induction false} AdlerAppend(s: (nat, nat), x: seq<byte>, y: seq<byte>)
    ensures AdlerStep(s, x + y) == AdlerStep(AdlerStep(s, x), y)
  {
    if y == [] {
      assert x + y == x;
    } else {
      var init, last := y[..|y| - 1], y[|y| - 1];
      AdlerAppend(s, x, init);
      assert x + y == (x + init) + [last] && y == init + [last];
      AdlerNext(s, x + init, last);
      AdlerNext(AdlerStep(s, x), init, last);
    }
  }

  lemma AdlerReduced(s: (nat, nat), data: seq<byte>)
    requires s.0 < BASE && s.1 < BASE
    ensures AdlerStep(s, data).0 < BASE && AdlerStep(s, data).1 < BASE
  {
  }

  /** s1 and s2, not reduced for n bytes, stand for the checksum of the bytes done. */
  ghost predicate Deferred(s1: nat, s2: nat, n: nat, start: (nat, nat), done: seq<byte>)
  {
    && (s1 % BASE, s2 % BASE) == AdlerStep(start, done)
    && s1 <= Bound1(n) && s2 <= Bound2(n)
  }

  /** One more byte, in 32-bit arithmetic. */
  lemma DeferredNext(s1: nat, s2: nat, n: nat, start: (nat, nat), done: seq<byte>, x: byte)
    requires Deferred(s1, s2, n, start, done) && n < NMAX
    ensures s1 + x < 0x1_0000_0000 && s2 + (s1 + x) < 0x1_0000_0000
    ensures Deferred(s1 + x, s2 + (s1 + x), n + 1, start, done + [x])
  {
    NmaxFits(n + 1);
    AdlerNext(start, done, x);
    ModAdd(s1, x);
    ModAdd2(s2, s1 + x);
  }

  lemma ModAdd2(s: nat, t: nat)
    ensures (s + t) % BASE == (s % BASE + t % BASE) % BASE
  {
    ModAdd(s, t);
    ModAdd(t, s % BASE);
  }

  /** DO16: sixteen bytes from position p. */
  method Do16(buf: seq<byte>, p: nat, s1: nat, s2: nat, ghost n: nat, ghost start: (nat, nat)) returns (t1: nat, t2: nat)
    requires p + 16 <= |buf| && n + 16 <= NMAX && Deferred(s1, s2, n, start, buf[..p])
    ensures Deferred(t1, t2, n + 16, start, buf[..p + 16])
  {
    hide Deferred;
    t1, t2 := s1, s2;
    for i := 0 to 16
      invariant Deferred(t1, t2, n + i, start, buf[..p + i])
    {
      DeferredNext(t1, t2, n + i, start, buf[..p + i], buf[p + i]);
      t1 := (t1 + buf[p + i]) % 0x1_0000_0000;
      t2 := (t2 + t1) % 0x1_0000_0000;
      assert buf[..p + i] + [buf[p + i]] == buf[..p + (i + 1)];
    }
  }

  /** Up to NMAX bytes without a reduction. */
  method Chunk(buf: seq<byte>, p0: nat, k0: nat, s1: nat, s2: nat, ghost start: (nat, nat)) returns (t1: nat, t2: nat)
    requires p0 + k0 <= |buf| && k0 <= NMAX && Deferred(s1, s2, 0, start, buf[..p0])
    ensures Deferred(t1, t2, k0, start, buf[..p0 + k0])
  {
    hide Deferred;
    t1, t2 := s1, s2;
    var p: nat, k: nat := p0, k0;
    while k >= 16
      invariant p0 <= p && p + k == p0 + k0 && Deferred(t1, t2, p - p0, start, buf[..p])
    {
      t1, t2 := Do16(buf, p, t1, t2, p - p0, start);
      p := p + 16;
      k := k - 16;
    }
    while k != 0
      invariant p0 <= p && p + k == p0 + k0 && Deferred(t1, t2, p - p0, start, buf[..p])
    {
      DeferredNext(t1, t2, p - p0, start, buf[..p], buf[p]);
      t1 := (t1 + buf[p]) % 0x1_0000_0000;
      t2 := (t2 + t1) % 0x1_0000_0000;
      assert buf[..p] + [buf[p]] == buf[..p + 1];
      p := p + 1;
      k := k - 1;
    }
  }

  /** adler32: whatever the data before was, the checksum of the data so far and buf. */
  method Adler(adler: nat, buf: seq<byte>, ghost before: seq<byte>) returns (r: nat)
    requires adler == Adler32(before)
    ensures r == Adler32(before + buf) < 0x1_0000_0000
  {
    hide Deferred, Bound1, Bound2;
    ghost var start := AdlerStep((1, 0), before);
    AdlerReduced((1, 0), before);
    var s1: nat, s2: nat := adler % 65536, adler / 65536 % 65536;
    var p := 0;
    DeferredStart(s1, s2, start, buf[..0]);
    while p < |buf|
      invariant 0 <= p <= |buf| && s1 < BASE && s2 < BASE && Deferred(s1, s2, 0, start, buf[..p])
    {
      var k := if |buf| - p < NMAX then |buf| - p else NMAX;
      s1, s2 := Chunk(buf, p, k, s1, s2, start);
      p := p + k;
      DeferredReduce(s1, s2, k, start, buf[..p]);
      s1, s2 := s1 % BASE, s2 % BASE;
    }
    assert buf[..p] == buf;
    AdlerAppend((1, 0), before, buf);
    DeferredEnd(s1, s2, start, buf);
    r := s2 * 65536 + s1;
  }

  lemma DeferredStart(s1: nat, s2: nat, start: (nat, nat), done: seq<byte>)
    requires (s1, s2) == start && s1 < BASE && s2 < BASE && done == []
    ensures Deferred(s1, s2, 0, start, done)
  {
  }

  lemma DeferredReduce(s1: nat, s2: nat, n: nat, start: (nat, nat), done: seq<byte>)
    requires Deferred(s1, s2, n, start, done)
    ensures Deferred(s1 % BASE, s2 % BASE, 0, start, done)
  {
  }

  lemma DeferredEnd(s1: nat, s2: nat, start: (nat, nat), done: seq<byte>)
    requires Deferred(s1, s2, 0, start, done) && s1 < BASE && s2 < BASE
    ensures (s1, s2) == AdlerStep(start, done)
  {
  }
}
