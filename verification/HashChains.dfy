/** The dictionary of deflate: hash chains over the sliding window. */
module HashChains {
  import opened Sums
  import opened Bits
  import opened RollingHash

  type Pos = p: int | 0 <= p < 0x1_0000

  const NIL: nat := 0
  const MIN_LOOKAHEAD: nat := 262

  /** An index into prev: p & w_mask. */
  function Slot(p: nat, wBits: nat): nat
  {
    Mask(p, wBits)
  }

  lemma {:induction false} SlotIs(p: nat, wBits: nat)
    requires p < 2 * Pow2(wBits)
    ensures Slot(p, wBits) == if p < Pow2(wBits) then p else p - Pow2(wBits)
  {
    if wBits > 0 {
      SlotIs(p / 2, wBits - 1);
    }
  }

  /** Positions less than a window apart use different slots. */
  lemma SlotsDiffer(p: nat, q: nat, wBits: nat)
    requires p < q < p + Pow2(wBits) && q < 2 * Pow2(wBits)
    ensures Slot(p, wBits) != Slot(q, wBits)
  {
    SlotIs(p, wBits);
    SlotIs(q, wBits);
  }

  function HashAt(w: seq<byte>, z: HashSize, p: nat): nat
    requires p + 3 <= |w|
  {
    Hash3(z, w[p], w[p + 1], w[p + 2])
  }

  /** No string of hash h is inserted between positions x and q. */
  ghost predicate NoneBetween(w: seq<byte>, z: HashSize, ins: set<nat>, x: nat, q: nat, h: nat)
  {
    forall y :: y in ins && x < y < q && y + 3 <= |w| ==> HashAt(w, z, y) != h
  }

  /** A chain entry is the last string of hash h inserted before position q, or NIL if there is none. */
  ghost predicate Link(w: seq<byte>, z: HashSize, ins: set<nat>, x: nat, h: nat, q: nat)
  {
    && (x == NIL || (x in ins && x < q && x + 3 <= |w| && HashAt(w, z, x) == h))
    && NoneBetween(w, z, ins, x, q, h)
  }

  /** The dictionary holds the strings at the positions ins, all before next; the first valid bytes
      of the window are input. */
  ghost predicate Chains(w: seq<byte>, head: seq<Pos>, prev: seq<Pos>, wBits: nat, z: HashSize, ins: set<nat>, next: nat, valid: nat)
  {
    && SizeOk(z) && |head| == Pow2(z.bits) && |prev| == Pow2(wBits) && |w| == 2 * Pow2(wBits) && valid <= |w|
    && next <= |w|
    && (forall p :: p in ins ==> 0 < p < next && p + 3 <= valid)
    && (forall h :: 0 <= h < |head| ==> Link(w, z, ins, head[h], h, next))
    && (forall p :: p in ins && p + Pow2(wBits) >= next ==> Linked(w, prev, wBits, z, ins, p))
    && (forall i :: 0 <= i < |prev| ==> prev[i] == 0 || prev[i] < next)
  }

  ghost predicate Linked(w: seq<byte>, prev: seq<Pos>, wBits: nat, z: HashSize, ins: set<nat>, p: nat)
  {
    && Slot(p, wBits) < |prev| && p + 3 <= |w|
    && Link(w, z, ins, prev[Slot(p, wBits)], HashAt(w, z, p), p)
  }

  /** Which strings the dictionary holds, when the window starts at position base of the input: those before
      next but for skipped positions of the input and for window position 0, and none from before the input. */
  ghost predicate Indexed(ins: set<nat>, skipped: set<int>, base: int, next: int)
  {
    && (forall x :: x in ins ==> base + x >= 0)
    && (forall x: nat :: 0 < x < next && base + x >= 0 && base + x !in skipped ==> x in ins)
  }

  /** One more string, or one skipped. */
  lemma IndexedNext(ins: set<nat>, skipped: set<int>, base: int, next: nat)
    requires Indexed(ins, skipped, base, next) && base + next >= 0
    ensures Indexed(if next == 0 then ins else ins + {next}, skipped, base, next + 1)
    ensures Indexed(ins, skipped + {base + next}, base, next + 1)
  {
  }

  lemma IndexedLess(ins: set<nat>, skipped: set<int>, base: int, next: int)
    requires Indexed(ins, skipped, base, next + 1)
    ensures Indexed(ins, skipped, base, next)
  {
  }

  lemma IndexedSlid(ins: set<nat>, skipped: set<int>, base: int, next: int, n: nat)
    requires Indexed(ins, skipped, base, next)
    ensures Indexed(SlidSet(ins, n), skipped, base + n, next - n)
  {
    forall x: nat | 0 < x < next - n && base + n + x >= 0 && base + n + x !in skipped ensures x in SlidSet(ins, n) {
      assert x + n in ins;
    }
  }

  /** ins_h is ready for the string at position p. */
  ghost predicate Primed(w: seq<byte>, z: HashSize, insH: nat, p: nat)
  {
    p + 2 <= |w| && forall c: byte :: UpdateHash(z, insH, c) == Hash3(z, w[p], w[p + 1], c)
  }

  lemma PrimedFresh(w: seq<byte>, z: HashSize, p: nat)
    requires p + 2 <= |w|
    ensures Primed(w, z, UpdateHash(z, w[p], w[p + 1]), p)
  {
    hide UpdateHash;
  }

  lemma PrimedSlid(w: seq<byte>, w': seq<byte>, z: HashSize, insH: nat, p: nat, n: nat)
    requires Primed(w, z, insH, p) && |w| == |w'| == 2 * n && n <= p && p + 2 <= |w|
    requires forall i :: 0 <= i < n ==> w'[i] == w[i + n]
    ensures Primed(w', z, insH, p - n)
  {
    hide UpdateHash;
    assert w'[p - n] == w[p - n + n] && w'[p - n + 1] == w[p - n + 1 + n];
  }

  lemma PrimedNext(w: seq<byte>, z: HashSize, p: nat)
    requires SizeOk(z) && p + 3 <= |w|
    ensures Primed(w, z, HashAt(w, z, p), p + 1)
  {
    forall c: byte ensures UpdateHash(z, HashAt(w, z, p), c) == Hash3(z, w[p + 1], w[p + 2], c) {
      HashRolls(z, w[p], w[p + 1], w[p + 2], c);
    }
  }

  lemma ChainsLater(w: seq<byte>, head: seq<Pos>, prev: seq<Pos>, wBits: nat, z: HashSize, ins: set<nat>, next: nat, valid: nat,
                    later: nat)
    requires Chains(w, head, prev, wBits, z, ins, next, valid) && next <= later <= |w|
    ensures Chains(w, head, prev, wBits, z, ins, later, valid)
  {
    hide HashAt, Slot, SizeOk;
  }

  /** INSERT_STRING keeps the chains. */
  lemma Inserted(w: seq<byte>, head: seq<Pos>, prev: seq<Pos>, wBits: nat, z: HashSize, ins: set<nat>, next: nat, valid: nat,
                 str: Pos, h: nat)
    requires Chains(w, head, prev, wBits, z, ins, next, valid) && next <= str && str + 3 <= valid
    requires h == HashAt(w, z, str) && h < |head| && Slot(str, wBits) < |prev|
    ensures Chains(w, head[h := str], prev[Slot(str, wBits) := head[h]], wBits, z, if str == 0 then ins else ins + {str}, str + 1, valid)
  {
    hide UpdateHash, Hash3, Slot, SizeOk;
    var ins', head', prev' := if str == 0 then ins else ins + {str}, head[h := str], prev[Slot(str, wBits) := head[h]];
    forall p | p in ins' && p + Pow2(wBits) >= str + 1 ensures Linked(w, prev', wBits, z, ins', p) {
      if p != str {
        assert Linked(w, prev, wBits, z, ins, p);
        SlotsDiffer(p, str, wBits);
      }
    }
  }

  lemma SlotBelow(p: nat, wBits: nat)
    ensures Slot(p, wBits) < Pow2(wBits)
  {
    MaskBits(p, wBits);
  }

  /** Appending input beyond the valid bytes does not touch the strings. */
  lemma Appended(w: seq<byte>, w': seq<byte>, head: seq<Pos>, prev: seq<Pos>, wBits: nat, z: HashSize, ins: set<nat>, next: nat,
                 valid: nat, valid': nat)
    requires Chains(w, head, prev, wBits, z, ins, next, valid) && |w'| == |w| && valid <= valid' <= |w|
    requires forall i :: 0 <= i < valid ==> w'[i] == w[i]
    ensures Chains(w', head, prev, wBits, z, ins, next, valid')
  {
    hide UpdateHash, Hash3, Slot, SizeOk;
    forall p | p in ins && p + Pow2(wBits) >= next ensures Linked(w', prev, wBits, z, ins, p) {
      assert Linked(w, prev, wBits, z, ins, p);
    }
    forall h | 0 <= h < |head| ensures Link(w', z, ins, head[h], h, next) {
      assert Link(w, z, ins, head[h], h, next);
    }
  }

  /** An entry after the window has moved by n. */
  function Slid(m: Pos, n: nat): Pos
  {
    if m >= n then m - n else NIL
  }

  /** Sliding the window keeps the chains of the strings that stay. */
  lemma SlideKeeps(w: seq<byte>, w': seq<byte>, head: seq<Pos>, head': seq<Pos>, prev: seq<Pos>, prev': seq<Pos>,
                   wBits: nat, z: HashSize, ins: set<nat>, next: nat, valid: nat)
    requires Chains(w, head, prev, wBits, z, ins, next, valid) && |w'| == |w| && |head'| == |head| && |prev'| == |prev|
    requires next >= Pow2(wBits) && valid >= Pow2(wBits)
    requires forall i :: 0 <= i < Pow2(wBits) ==> w'[i] == w[i + Pow2(wBits)]
    requires forall h :: 0 <= h < |head| ==> head'[h] == Slid(head[h], Pow2(wBits))
    requires forall i :: 0 <= i < |prev| ==> prev'[i] == Slid(prev[i], Pow2(wBits))
    ensures Chains(w', head', prev', wBits, z, SlidSet(ins, Pow2(wBits)), next - Pow2(wBits), valid - Pow2(wBits))
  {
    hide UpdateHash, Hash3, Slot, SizeOk, HashAt, Link, Linked, Slid;
    var n, ins' := Pow2(wBits), SlidSet(ins, Pow2(wBits));
    forall h | 0 <= h < |head| ensures Link(w', z, ins', head'[h], h, next - n) {
      SlideLink(w, w', z, ins, head[h], h, next, n);
    }
    forall p | p in ins' && p + n >= next - n ensures Linked(w', prev', wBits, z, ins', p) {
      SlideLinked(w, w', prev, prev', wBits, z, ins, p);
    }
    forall i | 0 <= i < |prev| ensures prev'[i] == 0 || prev'[i] < next - n {
      SlidBelow(prev[i], n, next);
    }
  }

  lemma SlidBelow(m: Pos, n: nat, next: nat)
    requires m == 0 || m < next
    ensures Slid(m, n) == 0 || Slid(m, n) < next - n
  {
  }

  lemma SlideLinked(w: seq<byte>, w': seq<byte>, prev: seq<Pos>, prev': seq<Pos>, wBits: nat, z: HashSize, ins: set<nat>, p: nat)
    requires |w'| == |w| == 2 * Pow2(wBits) && forall i :: 0 <= i < Pow2(wBits) ==> w'[i] == w[i + Pow2(wBits)]
    requires |prev| == |prev'| && forall i :: 0 <= i < |prev| ==> prev'[i] == Slid(prev[i], Pow2(wBits))
    requires p + Pow2(wBits) + 3 <= |w| && Linked(w, prev, wBits, z, ins, p + Pow2(wBits))
    requires forall p :: p in ins ==> p + 3 <= |w|
    ensures Linked(w', prev', wBits, z, SlidSet(ins, Pow2(wBits)), p)
  {
    hide UpdateHash, Hash3, Slot, HashAt, Link, Slid;
    var n := Pow2(wBits);
    SlotSlid(p, wBits);
    SlideHash(w, w', z, p + n, n);
    SlideLink(w, w', z, ins, prev[Slot(p, wBits)], HashAt(w, z, p + n), p + n, n);
  }

  function SlidSet(ins: set<nat>, n: nat): set<nat>
  {
    set p | p in ins && p > n :: p - n
  }

  lemma SlotSlid(p: nat, wBits: nat)
    requires p < Pow2(wBits)
    ensures Slot(p + Pow2(wBits), wBits) == Slot(p, wBits)
  {
    SlotIs(p, wBits);
    SlotIs(p + Pow2(wBits), wBits);
  }

  lemma SlideHash(w: seq<byte>, w': seq<byte>, z: HashSize, x: nat, n: nat)
    requires |w'| == |w| == 2 * n && x >= n && x + 3 <= |w| && forall i :: 0 <= i < n ==> w'[i] == w[i + n]
    ensures HashAt(w', z, x - n) == HashAt(w, z, x)
  {
    assert w'[x - n] == w[x - n + n] && w'[x - n + 1] == w[x - n + 1 + n] && w'[x - n + 2] == w[x - n + 2 + n];
  }

  lemma SlideLink(w: seq<byte>, w': seq<byte>, z: HashSize, ins: set<nat>, x: Pos, h: nat, q: nat, n: nat)
    requires |w'| == |w| == 2 * n && n > 0 && forall i :: 0 <= i < n ==> w'[i] == w[i + n]
    requires Link(w, z, ins, x, h, q) && q >= n && forall p :: p in ins ==> p + 3 <= |w|
    ensures Link(w', z, SlidSet(ins, n), Slid(x, n), h, q - n)
  {
    hide HashAt;
    if x > n {
      SlideHash(w, w', z, x, n);
      assert x - n in SlidSet(ins, n);
    }
    forall y | y in SlidSet(ins, n) && Slid(x, n) < y < q - n && y + 3 <= |w'| ensures HashAt(w', z, y) != h {
      SlideHash(w, w', z, y + n, n);
    }
  }

  lemma Cleared(w: seq<byte>, head: seq<Pos>, prev: seq<Pos>, wBits: nat, z: HashSize, ins: set<nat>, next: nat, valid: nat,
                head': seq<Pos>)
    requires Chains(w, head, prev, wBits, z, ins, next, valid) && |head'| == |head| && forall h :: 0 <= h < |head'| ==> head'[h] == 0
    ensures Chains(w, head', prev, wBits, z, {}, next, valid)
  {
    hide UpdateHash, Hash3, Slot, SizeOk;
  }

  /** The hash chains of a compression state. */
  class Dictionary {
    const wBits: nat
    const z: HashSize
    const head: array<Pos>
    const prev: array<Pos>
    var insH: nat
    ghost var ins: set<nat>
    ghost var next: nat

    /** w is the window, of which the first valid bytes are input. */
    ghost predicate Valid(w: seq<byte>, valid: nat)
      reads this, head, prev
    {
      head != prev && 9 <= wBits <= 15 && Chains(w, head[..], prev[..], wBits, z, ins, next, valid)
    }

    constructor (wBits: nat, z: HashSize, ghost w: seq<byte>)
      requires 9 <= wBits <= 15 && SizeOk(z) && |w| == 2 * Pow2(wBits)
      ensures Valid(w, 0) && this.wBits == wBits && this.z == z && fresh(head) && fresh(prev) && next == 0 && ins == {}
    {
      hide UpdateHash, Hash3, Slot, Pow2;
      this.wBits := wBits;
      this.z := z;
      head := new Pos[Pow2(z.bits)](i => 0);
      prev := new Pos[Pow2(wBits)](i => 0);
      insH := 0;
      ins := {};
      next := 0;
    }

    /** INSERT_STRING: the string at str heads its chain; returns the head before. */
    method Insert(window: array<byte>, str: Pos, ghost valid: nat) returns (matchHead: Pos)
      requires Valid(window[..], valid) && next <= str && str + 3 <= valid && Primed(window[..], z, insH, str)
      modifies head, prev, this`insH, this`ins, this`next
      ensures Valid(window[..], valid) && next == str + 1
      ensures ins == if str == 0 then old(ins) else old(ins) + {str}
      ensures HashAt(window[..], z, str) < head.Length && Slot(str, wBits) < prev.Length
      ensures matchHead == old(head[..])[HashAt(window[..], z, str)]
      ensures Link(window[..], z, old(ins), matchHead, HashAt(window[..], z, str), str)
      ensures head[..] == old(head[..])[HashAt(window[..], z, str) := str]
      ensures prev[..] == old(prev[..])[Slot(str, wBits) := matchHead]
      ensures Primed(window[..], z, insH, str + 1)
    {
      hide UpdateHash, Hash3, Slot, SizeOk, Chains, Pow2;
      ghost var w, h0, p0 := window[..], head[..], prev[..];
      ChainSizes(w, h0, p0, wBits, z, ins, next, valid);
      insH := UpdateHash(z, insH, window[str + 2]);
      assert insH == HashAt(w, z, str);
      HashAtBelow(w, z, str);
      SlotBelow(str, wBits);
      HeadLink(w, h0, p0, wBits, z, ins, next, valid, insH, str);
      matchHead := head[insH];
      prev[Slot(str, wBits)] := matchHead;
      head[insH] := str;
      Inserted(w, h0, p0, wBits, z, ins, next, valid, str, insH);
      assert head[..] == h0[insH := str] && prev[..] == p0[Slot(str, wBits) := matchHead];
      PrimedNext(w, z, str);
      ins := if str == 0 then ins else ins + {str};
      next := str + 1;
    }

    /** The tables follow the window when its upper half moves down. */
    method Slide(ghost w: seq<byte>, ghost w': seq<byte>, ghost valid: nat)
      requires Valid(w, valid) && |w'| == |w| && valid >= Pow2(wBits)
      requires forall i :: 0 <= i < Pow2(wBits) ==> w'[i] == w[i + Pow2(wBits)]
      modifies head, prev, this`ins, this`next
      ensures forall h :: 0 <= h < head.Length ==> head[h] == Slid(old(head[h]), Pow2(wBits))
      ensures forall i :: 0 <= i < prev.Length ==> prev[i] == Slid(old(prev[i]), Pow2(wBits))
      ensures ins == SlidSet(old(ins), Pow2(wBits))
      ensures Valid(w', valid - Pow2(wBits)) && next == if old(next) > Pow2(wBits) then old(next) - Pow2(wBits) else 0
    {
      hide UpdateHash, Hash3, Slot, SizeOk, Chains, Slid, Pow2;
      ghost var h0, p0 := head[..], prev[..];
      ChainSizes(w, h0, p0, wBits, z, ins, next, valid);
      if next < Pow2(wBits) {
        ChainsLater(w, h0, p0, wBits, z, ins, next, valid, Pow2(wBits));
        next := Pow2(wBits);
      }
      SlideTable(head, Pow2(wBits));
      SlideTable(prev, Pow2(wBits));
      SlideKeeps(w, w', h0, head[..], p0, prev[..], wBits, z, ins, next, valid);
      ins := SlidSet(ins, Pow2(wBits));
      next := next - Pow2(wBits);
    }

    /** Start hashing at position p. */
    method Prime(window: array<byte>, p: nat)
      requires p + 2 <= window.Length
      modifies this`insH
      ensures Primed(window[..], z, insH, p)
    {
      hide UpdateHash;
      insH := window[p];
      insH := UpdateHash(z, insH, window[p + 1]);
      PrimedFresh(window[..], z, p);
    }

    /** CLEAR_HASH. */
    method Clear(ghost w: seq<byte>, ghost valid: nat)
      requires Valid(w, valid)
      modifies head, this`ins
      ensures Valid(w, valid) && ins == {}
    {
      hide Chains;
      ghost var h0 := head[..];
      var n := 0;
      while n < head.Length
        invariant 0 <= n <= head.Length && ins == old(ins) && forall i :: 0 <= i < n ==> head[i] == 0
      {
        head[n] := NIL;
        n := n + 1;
      }
      Cleared(w, h0, prev[..], wBits, z, ins, next, valid, head[..]);
      ins := {};
    }
  }

  /** Move all entries of a table. */
  method SlideTable(t: array<Pos>, wsize: nat)
    modifies t
    ensures forall i :: 0 <= i < t.Length ==> t[i] == Slid(old(t[i]), wsize)
  {
    var n := t.Length;
    while n != 0
      invariant 0 <= n <= t.Length
      invariant forall i :: 0 <= i < n ==> t[i] == old(t[i])
      invariant forall i :: n <= i < t.Length ==> t[i] == Slid(old(t[i]), wsize)
    {
      n := n - 1;
      var m := t[n];
      t[n] := if m >= wsize then m - wsize else NIL;
    }
  }

  lemma ChainSizes(w: seq<byte>, head: seq<Pos>, prev: seq<Pos>, wBits: nat, z: HashSize, ins: set<nat>, next: nat, valid: nat)
    requires Chains(w, head, prev, wBits, z, ins, next, valid) && 9 <= wBits <= 15
    ensures SizeOk(z) && |head| == Pow2(z.bits) && |prev| == Pow2(wBits) && |w| == 2 * Pow2(wBits) && valid <= |w| <= 65536
  {
    Pow2Mono(wBits, 15);
    Pow2Values();
  }

  lemma HashAtBelow(w: seq<byte>, z: HashSize, p: nat)
    requires p + 3 <= |w|
    ensures HashAt(w, z, p) < Pow2(z.bits)
  {
    HashBelow(z, UpdateHash(z, w[p], w[p + 1]), w[p + 2]);
  }

  lemma HeadLink(w: seq<byte>, head: seq<Pos>, prev: seq<Pos>, wBits: nat, z: HashSize, ins: set<nat>, next: nat, valid: nat, h: nat, q: nat)
    requires Chains(w, head, prev, wBits, z, ins, next, valid) && h < |head| && next <= q
    ensures Link(w, z, ins, head[h], h, q)
  {
    hide UpdateHash, Hash3, Slot, SizeOk, HashAt;
  }
}
