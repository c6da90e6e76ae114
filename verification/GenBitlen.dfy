/** The second half of gen_bitlen, handing the repaired lengths out again, and gen_bitlen itself. */
module GenBitlen {
  import opened Sums
  import opened HuffmanCode
  import opened CanonicalCodes
  import OptimalCodes
  import opened TreeHeap
  import opened TreeOrder
  import opened TreeLengths
  import opened TreeDepth
  import opened BitLengths
  import opened LengthLimit

  /** The symbols that occur, as the set of places where f is not 0. */
  ghost predicate Leaf(g: Forest, x: nat)
    requires Sized(g)
  {
    x < g.elems && g.f[x] > 0
  }

  /** Lengths handed out so far: to the leaves among the first i nodes listed. */
  ghost function Assigned(g: Forest, len: seq<nat>, i: nat): (r: seq<nat>)
    requires Sized(g) && |len| == |g.f|
    ensures |r| == |len|
  {
    seq(|len|, x requires 0 <= x < |len| => if Leaf(g, x) && g.at[x] < i then len[x] else 0)
  }

  /** Codes longer than bits are all handed out, n of those of length bits are left, and so far
      lengths never increased. */
  ghost predicate Handing(g: Forest, len: seq<nat>, i: nat, bl: seq<nat>, bits: nat, n: nat)
    requires Tree(g) && |len| == |g.f|
  {
    && bits < |bl| && n <= bl[bits] && i <= |g.out|
    && (forall b :: bits < b < |bl| ==> Count(Assigned(g, len, i), b) == bl[b])
    && (bits > 0 ==> Count(Assigned(g, len, i), bits) == bl[bits] - n)
    && (forall b :: 1 <= b < bits ==> Count(Assigned(g, len, i), b) == 0)
    && (forall x: nat :: Leaf(g, x) ==> len[x] > 0)
    && Descending(g, len, i, bits)
  }

  ghost predicate Descending(g: Forest, len: seq<nat>, i: nat, bits: nat)
    requires Tree(g) && |len| == |g.f|
  {
    && (forall x: nat :: Leaf(g, x) && g.at[x] < i ==> len[x] >= bits)
    && (forall x: nat, y: nat :: Leaf(g, x) && Leaf(g, y) && g.at[x] < g.at[y] < i ==> len[x] >= len[y])
  }

  /** A leaf listed at i gets length bits. */
  lemma AssignNext(g: Forest, len: seq<nat>, i: nat, bits: nat)
    requires Tree(g) && |len| == |g.f| && i < |g.out| && Leaf(g, g.out[i])
    ensures g.at[g.out[i]] == i && Assigned(g, len, i)[g.out[i]] == 0
    ensures Assigned(g, len[g.out[i] := bits], i + 1) == Assigned(g, len, i)[g.out[i] := bits]
  {
    var x := g.out[i];
    forall y | 0 <= y < |len| && y != x
      ensures Assigned(g, len[x := bits], i + 1)[y] == Assigned(g, len, i)[y]
    {
      LeafListed(g, y);
    }
  }

  lemma LeafListed(g: Forest, x: nat)
    requires Tree(g)
    ensures Leaf(g, x) ==> g.at[x] < |g.out| && g.out[g.at[x]] == x
  {
    if Leaf(g, x) {
      assert Exists(g, g.k - 1, x);
      assert Listed(g, x);
    }
  }

  /** An inner node is passed over. */
  lemma SkipNext(g: Forest, len: seq<nat>, i: nat)
    requires Tree(g) && |len| == |g.f| && i < |g.out| && !Leaf(g, g.out[i])
    ensures Assigned(g, len, i + 1) == Assigned(g, len, i)
    ensures forall x: nat :: Leaf(g, x) && g.at[x] < i + 1 ==> g.at[x] < i
  {
    forall y: nat | Leaf(g, y) && g.at[y] < i + 1 ensures g.at[y] < i {
      LeafListed(g, y);
    }
  }

  lemma HandingSkip(g: Forest, len: seq<nat>, i: nat, bl: seq<nat>, bits: nat, n: nat)
    requires Tree(g) && |len| == |g.f| && i < |g.out| && !Leaf(g, g.out[i])
    requires Handing(g, len, i, bl, bits, n)
    ensures Handing(g, len, i + 1, bl, bits, n)
  {
    hide Tree, Leaf, Assigned;
    TreeSize(g);
    SkipNext(g, len, i);
  }

  lemma HandingNext(g: Forest, len: seq<nat>, i: nat, bl: seq<nat>, bits: nat, n: nat)
    requires Tree(g) && |len| == |g.f| && i < |g.out| && Leaf(g, g.out[i]) && n > 0 && bits > 0
    requires Handing(g, len, i, bl, bits, n)
    ensures Handing(g, len[g.out[i] := bits], i + 1, bl, bits, n - 1)
  {
    hide Tree, Assigned, Descending;
    TreeSize(g);
    var x, a, a' := g.out[i], Assigned(g, len, i), Assigned(g, len[g.out[i] := bits], i + 1);
    AssignNext(g, len, i, bits);
    forall b: nat
      ensures b > 0 ==> Count(a', b) == Count(a, b) + if b == bits then 1 else 0
    {
      CountUpdate(a, x, bits, b);
    }
    DescendingNext(g, len, i, bits);
  }

  lemma DescendingNext(g: Forest, len: seq<nat>, i: nat, bits: nat)
    requires Tree(g) && |len| == |g.f| && i < |g.out| && Leaf(g, g.out[i])
    requires Descending(g, len, i, bits)
    ensures Descending(g, len[g.out[i] := bits], i + 1, bits)
  {
    var x := g.out[i];
    forall y: nat | Leaf(g, y) && g.at[y] < i + 1 ensures y == x || g.at[y] < i {
      LeafListed(g, y);
    }
  }

  lemma HandingDown(g: Forest, len: seq<nat>, i: nat, bl: seq<nat>, bits: nat)
    requires Tree(g) && |len| == |g.f| && bits > 0
    requires Handing(g, len, i, bl, bits, 0)
    ensures Handing(g, len, i, bl, bits - 1, bl[bits - 1])
  {
  }

  // ---------- There is a leaf left as long as there are codes left ----------

  lemma {:induction false} FewerNonZero(a: seq<nat>, b: seq<nat>)
    requires |a| == |b| && forall i :: 0 <= i < |a| && b[i] == 0 ==> a[i] == 0
    ensures Count(a, 0) >= Count(b, 0)
    ensures Count(a, 0) == Count(b, 0) ==> forall i :: 0 <= i < |a| ==> (a[i] == 0 <==> b[i] == 0)
  {
    if a != [] {
      var last := |a| - 1;
      FewerNonZero(a[..last], b[..last]);
      if Count(a, 0) == Count(b, 0) {
        forall i | 0 <= i < |a| ensures a[i] == 0 <==> b[i] == 0 {
          if i < last {
            assert a[..last][i] == a[i] && b[..last][i] == b[i];
          }
        }
      }
    }
  }

  /** The number of codes handed out. */
  lemma {:induction false} HandedOut(a: seq<nat>, bl: seq<nat>, bits: nat, b: nat)
    requires bits < |bl| && b < |bl|
    requires forall j :: bits < j < |bl| ==> Count(a, j) == bl[j]
    requires forall j :: 1 <= j < bits ==> Count(a, j) == 0
    requires bits > 0 ==> Count(a, bits) <= bl[bits]
    ensures Between(a, b) <= Codes(bl, b)
    ensures 1 <= bits <= b ==> Between(a, b) <= Codes(bl, b) - (bl[bits] - Count(a, bits))
    ensures bits == 0 ==> Between(a, b) == Codes(bl, b)
  {
    if b > 0 {
      HandedOut(a, bl, bits, b - 1);
    }
  }

  lemma AssignedBounded(g: Forest, len: seq<nat>, i: nat, bl: seq<nat>, bits: nat, n: nat, limit: nat)
    requires Tree(g) && |len| == |g.f| && Handing(g, len, i, bl, bits, n) && bits <= limit < |bl|
    requires forall x: nat :: Leaf(g, x) ==> len[x] <= limit
    ensures Between(Assigned(g, len, i), limit) == |len| - Count(Assigned(g, len, i), 0)
  {
    BetweenAll(Assigned(g, len, i), limit);
  }

  /** While codes are left, a leaf is still to come. */
  lemma LeafLeft(g: Forest, len: seq<nat>, i: nat, bl: seq<nat>, bits: nat, n: nat, limit: nat)
    requires Tree(g) && |len| == |g.f| && Handing(g, len, i, bl, bits, n) && 1 <= bits <= limit < |bl| && n > 0
    requires forall x: nat :: Leaf(g, x) ==> len[x] <= limit
    requires Codes(bl, limit) == |len| - Count(LeafLens(g, len), 0)
    ensures i < |g.out|
  {
    var a := Assigned(g, len, i);
    AssignedBounded(g, len, i, bl, bits, n, limit);
    HandedOut(a, bl, bits, limit);
    if i == |g.out| {
      AllAssigned(g, len);
    }
  }

  lemma AllAssigned(g: Forest, len: seq<nat>)
    requires Tree(g) && |len| == |g.f|
    ensures Assigned(g, len, |g.out|) == LeafLens(g, len)
  {
    forall x | 0 <= x < |len| ensures Assigned(g, len, |g.out|)[x] == LeafLens(g, len)[x] {
      LeafListed(g, x);
    }
  }

  /** When no codes are left every leaf has its new length. */
  lemma HandingDone(g: Forest, len: seq<nat>, i: nat, bl: seq<nat>, limit: nat)
    requires Tree(g) && |len| == |g.f| && Handing(g, len, i, bl, 0, 0) && limit < |bl|
    requires forall x: nat :: Leaf(g, x) ==> len[x] <= limit
    requires Codes(bl, limit) == |len| - Count(LeafLens(g, len), 0)
    ensures Assigned(g, len, i) == LeafLens(g, len)
    ensures forall x: nat :: Leaf(g, x) ==> g.at[x] < i
  {
    var a, b := Assigned(g, len, i), LeafLens(g, len);
    AssignedBounded(g, len, i, bl, 0, 0, limit);
    HandedOut(a, bl, 0, limit);
    FewerNonZero(a, b);
    forall x: nat | Leaf(g, x) ensures g.at[x] < i {
      assert b[x] != 0;
    }
    assert forall x :: 0 <= x < |len| ==> a[x] == b[x];
  }

  // ---------- Opt_len while lengths change ----------

  lemma CostChange(f: seq<nat>, lens: seq<nat>, desc: TreeDesc, n: nat, l: nat)
    requires |f| == |lens| && n < |f| && lens[n] > 0 && l > 0
    ensures Sum(BitCosts(f, lens[n := l], desc)) == Sum(BitCosts(f, lens, desc)) + (l - lens[n]) * f[n]
  {
    var c := SymbolBits(f[n], l, XBits(desc, n));
    assert BitCosts(f, lens[n := l], desc) == BitCosts(f, lens, desc)[n := c];
    SumUpdate(BitCosts(f, lens, desc), n, c);
    CostDifference(f[n], lens[n], l, XBits(desc, n));
  }

  lemma CostDifference(f: int, l: int, l': int, x: int)
    ensures f * (l' + x) - f * (l + x) == (l' - l) * f
  {
  }

  lemma LeafLensSet(g: Forest, len: seq<nat>, n: nat, l: nat)
    requires Sized(g) && |len| == |g.f| && Leaf(g, n)
    ensures LeafLens(g, len[n := l]) == LeafLens(g, len)[n := l]
    ensures LeafLens(g, len)[n] == len[n]
  {
  }

  /** Everything the reassignment loops keep. limit is the length limit; opt what has been added
      to opt_len, relative to the lengths len. */
  ghost predicate Reassigning(g: Forest, desc: TreeDesc, len: seq<nat>, i: nat, bl: seq<nat>, bits: nat, n: nat, opt: int)
    requires Tree(g) && DescOk(desc)
  {
    && |len| == |g.f| && desc.maxLength < |bl| && bits <= desc.maxLength
    && Handing(g, len, i, bl, bits, n)
    && (forall x: nat :: Leaf(g, x) ==> len[x] <= desc.maxLength)
    && Codes(bl, desc.maxLength) == |len| - Count(LeafLens(g, len), 0)
    && opt == Sum(BitCosts(g.f, LeafLens(g, len), desc))
  }

  lemma ReassignNext(g: Forest, desc: TreeDesc, len: seq<nat>, i: nat, bl: seq<nat>, bits: nat, n: nat, opt: int)
    requires Tree(g) && DescOk(desc) && bits > 0 && n > 0 && i < |g.out|
    requires Reassigning(g, desc, len, i, bl, bits, n, opt)
    ensures g.out[i] < |len|
    ensures !Leaf(g, g.out[i]) ==> Reassigning(g, desc, len, i + 1, bl, bits, n, opt)
    ensures Leaf(g, g.out[i]) ==>
              Reassigning(g, desc, len[g.out[i] := bits], i + 1, bl, bits, n - 1, opt + (bits - len[g.out[i]]) * g.f[g.out[i]])
  {
    hide Tree, DescOk, Handing, BitCosts, LeafLens, Codes;
    var x := g.out[i];
    ListedSmall(g, i);
    if Leaf(g, x) {
      LeafPositive(g, len, i, bl, bits, n);
      HandingNext(g, len, i, bl, bits, n);
      LeafLensSet(g, len, x, bits);
      CostChange(g.f, LeafLens(g, len), desc, x, bits);
      CountUpdate(LeafLens(g, len), x, bits, 0);
    } else {
      HandingSkip(g, len, i, bl, bits, n);
    }
  }

  lemma ListedSmall(g: Forest, i: nat)
    requires Tree(g) && i < |g.out|
    ensures Sized(g) && g.out[i] < |g.f|
  {
  }

  lemma LeafPositive(g: Forest, len: seq<nat>, i: nat, bl: seq<nat>, bits: nat, n: nat)
    requires Tree(g) && |len| == |g.f| && Handing(g, len, i, bl, bits, n)
    ensures forall x: nat :: Leaf(g, x) ==> len[x] > 0
  {
  }

  lemma ReassignDown(g: Forest, desc: TreeDesc, len: seq<nat>, i: nat, bl: seq<nat>, bits: nat, opt: int)
    requires Tree(g) && DescOk(desc) && bits > 0
    requires Reassigning(g, desc, len, i, bl, bits, 0, opt)
    ensures Reassigning(g, desc, len, i, bl, bits - 1, bl[bits - 1], opt)
  {
    hide Tree, DescOk, Handing, BitCosts, LeafLens, Codes;
    HandingDown(g, len, i, bl, bits);
  }

  lemma ReassignMore(g: Forest, desc: TreeDesc, len: seq<nat>, i: nat, bl: seq<nat>, bits: nat, n: nat, opt: int)
    requires Tree(g) && DescOk(desc) && bits > 0 && n > 0
    requires Reassigning(g, desc, len, i, bl, bits, n, opt)
    ensures i < |g.out| == 2 * g.k - 1
  {
    hide Tree, DescOk, Handing, BitCosts, LeafLens, Codes;
    TreeSize(g);
    LeafLeft(g, len, i, bl, bits, n, desc.maxLength);
  }

  /** Recompute all code lengths, scanning in increasing frequency; opt_len follows. */
  method Reassign(s: TreeState, tree: HuffTree, ghost g: Forest, ghost opt: int) returns (ghost i: nat)
    requires OnArrays(g, s, tree) && NoneAfter(g.f, g.elems, tree.maxCode)
    requires Reassigning(g, tree.desc, tree.dl[..], 0, s.blCount[..], tree.desc.maxLength,
                         s.blCount[tree.desc.maxLength], opt)
    requires s.blCount[0] == 0
    modifies s`optLen, tree.dl
    ensures Reassigning(g, tree.desc, tree.dl[..], i, s.blCount[..], 0, 0, opt + s.optLen - old(s.optLen))
    ensures forall x :: 0 <= x < tree.dl.Length && !Listed(g, x) ==> tree.dl[x] == old(tree.dl[x])
  {
    hide Tree, DescOk, Reassigning, NoneAfter;
    TreeSize(g);
    DescLimits(tree.desc);
    ghost var bl, heap := s.blCount[..], s.heap[..];
    var h := HEAP_SIZE;
    var bits: nat := tree.desc.maxLength;
    i := 0;
    while bits != 0
      invariant h == HEAP_SIZE - i && i <= 2 * g.k - 1 && bits < |bl|
      invariant tree.fc[..] == g.f && s.blCount[..] == bl && s.heap[..] == heap
      invariant Reassigning(g, tree.desc, tree.dl[..], i, bl, bits, bl[bits], opt + s.optLen - old(s.optLen))
      invariant forall x :: 0 <= x < tree.dl.Length && !Listed(g, x) ==> tree.dl[x] == old(tree.dl[x])
    {
      var n := s.blCount[bits];
      while n != 0
        invariant h == HEAP_SIZE - i && i <= 2 * g.k - 1
        invariant tree.fc[..] == g.f && s.blCount[..] == bl && s.heap[..] == heap
        invariant Reassigning(g, tree.desc, tree.dl[..], i, bl, bits, n, opt + s.optLen - old(s.optLen))
        invariant forall x :: 0 <= x < tree.dl.Length && !Listed(g, x) ==> tree.dl[x] == old(tree.dl[x])
        decreases HEAP_SIZE - i
      {
        ReassignMore(g, tree.desc, tree.dl[..], i, bl, bits, n, opt + s.optLen - old(s.optLen));
        i, h, n := ReassignOne(s, tree, g, i, h, bl, bits, n, opt + s.optLen - old(s.optLen));
      }
      ReassignDown(g, tree.desc, tree.dl[..], i, bl, bits, opt + s.optLen - old(s.optLen));
      bits := bits - 1;
    }
  }

  /** The next node in order of increasing frequency: if it is a leaf it gets length bits. */
  method ReassignOne(s: TreeState, tree: HuffTree, ghost g: Forest, ghost i: nat, h: nat, ghost bl: seq<nat>,
                     bits: nat, n: nat, ghost opt: int)
      returns (ghost i': nat, h': nat, n': nat)
    requires OnArrays(g, s, tree) && NoneAfter(g.f, g.elems, tree.maxCode)
    requires bits > 0 && n > 0 && i < |g.out| == 2 * g.k - 1 && h == HEAP_SIZE - i
    requires Reassigning(g, tree.desc, tree.dl[..], i, bl, bits, n, opt)
    modifies s`optLen, tree.dl
    ensures i' == i + 1 && h' == h - 1 && n' <= n
    ensures Reassigning(g, tree.desc, tree.dl[..], i', bl, bits, n', opt + s.optLen - old(s.optLen))
    ensures forall x :: 0 <= x < tree.dl.Length && !Listed(g, x) ==> tree.dl[x] == old(tree.dl[x])
  {
    hide Tree, DescOk, Reassigning, NoneAfter;
    TreeSize(g);
    i', h', n' := i + 1, h - 1, n;
    ReassignNext(g, tree.desc, tree.dl[..], i, bl, bits, n, opt);
    LeafAt(g, tree.maxCode, i);
    assert s.heap[HEAP_SIZE - 1 - i] == g.out[i];
    var m := s.heap[h'];
    if m > tree.maxCode {
      return;
    }
    if tree.dl[m] != bits {
      s.optLen := s.optLen + (bits - tree.dl[m]) * tree.fc[m];
      tree.dl[m] := bits;
    }
    assert tree.dl[..] == old(tree.dl[..])[m := bits];
    n' := n - 1;
  }

  lemma LeafAt(g: Forest, maxCode: int, i: nat)
    requires Tree(g) && i < |g.out| && NoneAfter(g.f, g.elems, maxCode)
    ensures g.out[i] <= maxCode <==> Leaf(g, g.out[i])
    ensures Listed(g, g.out[i])
  {
    assert Exists(g, g.k - 1, g.out[i]);
  }

  // ---------- gen_bitlen ----------

  /** lens are the lengths of a complete code for exactly the symbols of f that occur, none longer
      than limit, rarer symbols never shorter. */
  ghost predicate LengthsFor(f: seq<nat>, elems: nat, lens: seq<nat>, limit: nat)
  {
    && |lens| == |f| && elems <= |f|
    && (forall x :: 0 <= x < |f| ==> (lens[x] > 0 <==> x < elems && f[x] > 0))
    && Complete(lens, limit)
    && (forall x, y :: 0 <= x < elems && 0 <= y < elems && 0 < f[x] < f[y] ==> lens[x] >= lens[y])
  }

  lemma AfterPass(g: Forest, desc: TreeDesc, t: Totals)
    requires Tree(g) && DescOk(desc) && desc.elems == g.elems && Passed(g, desc, 0, t)
    ensures |t.len| == |g.f| && LensOk(g, t.len, desc.maxLength)
    ensures Counts(t.bl, LeafLens(g, t.len)) && t.over == 2 * Overflows(g, t.len, desc.maxLength, 0)
    ensures t.opt == Sum(BitCosts(g.f, LeafLens(g, t.len), desc))
    ensures t.stat == Sum(StaticCosts(g.f, LeafLens(g, t.len), desc))
    ensures forall x :: 0 <= x < |t.len| && !Listed(g, x) ==> t.len[x] == g.dad[x]
  {
    hide Tree, DescOk, Half, Counts, BitCosts, StaticCosts, LensOk;
    TreeSize(g);
    HalfEnd(g, t.len, desc.maxLength);
    OverPairs(g, t.len, desc.maxLength, 0);
  }

  lemma LeafLensSmall(g: Forest, len: seq<nat>, limit: nat)
    requires Tree(g) && LensOk(g, len, limit) && limit > 0
    ensures forall x :: 0 <= x < |len| ==> LeafLens(g, len)[x] <= limit
    ensures forall x :: 0 <= x < |len| ==> (LeafLens(g, len)[x] > 0 <==> Leaf(g, x))
  {
    forall x | 0 <= x < |len|
      ensures LeafLens(g, len)[x] <= limit && (LeafLens(g, len)[x] > 0 <==> Leaf(g, x))
    {
      if Leaf(g, x) {
        LensBounded(g, len, limit, x);
      }
    }
  }

  lemma LensSize(g: Forest, len: seq<nat>, limit: nat)
    requires Tree(g) && LensOk(g, len, limit)
    ensures |len| == |g.f|
  {
  }

  /** Cutting lengths off at the limit leaves the excess the repair loop starts from. */
  lemma CutOff(g: Forest, desc: TreeDesc, len: seq<nat>, bl: seq<nat>)
    requires Tree(g) && DescOk(desc) && desc.elems == g.elems
    requires LensOk(g, len, desc.maxLength) && Counts(bl, LeafLens(g, len))
    ensures Excess(bl, desc.maxLength, Overflows(g, len, desc.maxLength, 0), g.k)
    ensures forall j :: desc.maxLength < j < |bl| ==> bl[j] == 0
  {
    hide Tree, LensOk, Rooms;
    TreeSize(g);
    LensSize(g, len, desc.maxLength);
    var lens, limit := LeafLens(g, len), desc.maxLength;
    LeafLensSmall(g, len, limit);
    forall j | limit < j < |bl| ensures bl[j] == 0 {
      CountNone(lens, j);
    }
    TreeKraft(g, len, limit);
    KraftRooms(bl, lens, limit);
    DeepLeaves(g, len, limit);
    LeafCount(g, len, limit);
    BetweenAll(lens, limit);
    CodesCounts(bl, lens, limit);
  }

  lemma {:induction false} ReassignStart(g: Forest, desc: TreeDesc, len: seq<nat>, bl: seq<nat>)
    requires Tree(g) && DescOk(desc) && desc.elems == g.elems && LensOk(g, len, desc.maxLength)
    requires |bl| == MAX_BITS + 1 && Excess(bl, desc.maxLength, 0, g.k)
    requires forall j :: desc.maxLength < j < |bl| ==> bl[j] == 0
    ensures Reassigning(g, desc, len, 0, bl, desc.maxLength, bl[desc.maxLength],
                        Sum(BitCosts(g.f, LeafLens(g, len), desc)))
  {
    hide Tree, LensOk, BitCosts;
    var limit := desc.maxLength;
    TreeSize(g);
    LensSize(g, len, limit);
    LeafLensSmall(g, len, limit);
    LeafCount(g, len, limit);
    forall b: nat | b > 0 ensures Count(Assigned(g, len, 0), b) == 0 {
      CountNone(Assigned(g, len, 0), b);
    }
    forall x: nat | Leaf(g, x) ensures 0 < len[x] <= limit {
      assert LeafLens(g, len)[x] > 0;
    }
  }

  /** What the reassignment leaves: a complete code with the repaired counts, rarer never shorter. */
  lemma Reassigned(g: Forest, desc: TreeDesc, len: seq<nat>, i: nat, bl: seq<nat>, opt: int)
    requires Tree(g) && DescOk(desc) && desc.elems == g.elems
    requires Reassigning(g, desc, len, i, bl, 0, 0, opt) && |bl| == MAX_BITS + 1
    requires Excess(bl, desc.maxLength, 0, g.k)
    ensures LengthsFor(g.f, g.elems, LeafLens(g, len), desc.maxLength)
    ensures Counts(bl, LeafLens(g, len))
    ensures opt == Sum(BitCosts(g.f, LeafLens(g, len), desc))
  {
    hide Tree, BitCosts;
    TreeSize(g);
    var limit, lens := desc.maxLength, LeafLens(g, len);
    HandingDone(g, len, i, bl, limit);
    assert forall b :: 1 <= b < |bl| ==> Count(lens, b) == bl[b];
    KraftRooms(bl, lens, limit);
    forall x, y | 0 <= x < g.elems && 0 <= y < g.elems && 0 < g.f[x] < g.f[y] ensures lens[x] >= lens[y] {
      RarerFirst(g, x, y);
    }
  }

  lemma RarerFirst(g: Forest, x: nat, y: nat)
    requires Tree(g) && x < g.elems && y < g.elems && 0 < g.f[x] < g.f[y]
    ensures Leaf(g, x) && Leaf(g, y) && g.at[x] < g.at[y]
  {
    LeafListed(g, x);
    LeafListed(g, y);
  }

  /** Without overflow: the lengths of the tree are optimal, hence rarer symbols are never shorter. */
  lemma NoOverflow(g: Forest, desc: TreeDesc, len: seq<nat>)
    requires Tree(g) && DescOk(desc) && desc.elems == g.elems
    requires LensOk(g, len, desc.maxLength) && Overflows(g, len, desc.maxLength, 0) == 0
    ensures |len| == |g.f| && LengthsFor(g.f, g.elems, LeafLens(g, len), desc.maxLength)
    ensures OptimalCodes.Optimal(LeafFreqs(g), LeafLens(g, len))
  {
    hide Tree, LensOk, Rooms, OptimalCodes.Cost;
    TreeSize(g);
    LensSize(g, len, desc.maxLength);
    var lens, limit, w := LeafLens(g, len), desc.maxLength, LeafFreqs(g);
    LeafLensSmall(g, len, limit);
    TreeKraft(g, len, limit);
    forall ls: seq<nat>, l: nat | OptimalCodes.Kraft(w, ls, l) ensures OptimalCodes.Cost(w, lens) <= OptimalCodes.Cost(w, ls) {
      TreeOptimal(g, len, limit, ls, l);
    }
    RoomsShares(w, lens, limit);
    forall x, y | 0 <= x < g.elems && 0 <= y < g.elems && 0 < g.f[x] < g.f[y] ensures lens[x] >= lens[y] {
      OptimalOrder(w, lens, limit, x, y);
    }
  }

  lemma RoomsShares(w: seq<nat>, lens: seq<nat>, limit: nat)
    requires |w| == |lens| && forall x :: 0 <= x < |w| ==> (w[x] > 0 <==> lens[x] > 0) && lens[x] <= limit
    requires Sum(Rooms(lens, limit)) == Pow2(limit)
    ensures OptimalCodes.Kraft(w, lens, limit)
  {
    assert Rooms(lens, limit) == OptimalCodes.Shares(w, lens, limit);
  }

  /** Exchanging a rarer symbol's shorter code would save bits. */
  lemma OptimalOrder(w: seq<nat>, lens: seq<nat>, limit: nat, x: nat, y: nat)
    requires |w| == |lens| && OptimalCodes.Optimal(w, lens) && OptimalCodes.Kraft(w, lens, limit)
    requires x < |w| && y < |w| && 0 < w[x] < w[y]
    ensures lens[x] >= lens[y]
  {
    if lens[x] < lens[y] {
      OptimalCodes.SwapLengths(w, lens, x, y, limit);
      OptimalCodes.SwapSaves(w, lens, x, y);
    }
  }

  lemma SameStatic(f: seq<nat>, a: seq<nat>, b: seq<nat>, desc: TreeDesc)
    requires |f| == |a| == |b| && forall x :: 0 <= x < |f| ==> (a[x] == 0 <==> b[x] == 0)
    ensures StaticCosts(f, a, desc) == StaticCosts(f, b, desc)
  {
  }

  /** bl are the counts of the levels of g, cut off at the limit, after the longest codes gave way. */
  ghost predicate RepairedFrom(g: Forest, limit: nat, cut: seq<nat>, bl0: seq<nat>, bl: seq<nat>)
    requires Tree(g)
  {
    LensOk(g, cut, limit) && |cut| == |g.f| && Counts(bl0, LeafLens(g, cut)) && Frugal(bl0, bl, limit)
  }

  ghost predicate Repaired(g: Forest, limit: nat, bl: seq<nat>)
    requires Tree(g)
  {
    exists cut, bl0 :: RepairedFrom(g, limit, cut, bl0, bl)
  }

  /** What gen_bitlen establishes: lens, found in tree.dl for the symbols that occur. The limit made a
      difference exactly when some symbol of the tree lies below it. */
  ghost predicate Generated(g: Forest, desc: TreeDesc, len: seq<nat>, bl: seq<nat>, limited: bool, opt: int, stat: int)
    requires Tree(g)
  {
    && |len| == |g.f| && LengthsFor(g.f, g.elems, LeafLens(g, len), desc.maxLength)
    && Counts(bl, LeafLens(g, len))
    && opt == Sum(BitCosts(g.f, LeafLens(g, len), desc))
    && stat == Sum(StaticCosts(g.f, LeafLens(g, len), desc))
    && (limited <==> Deep(g, desc.maxLength))
    && (limited ==> Repaired(g, desc.maxLength, bl))
    && (!limited ==> OptimalCodes.Optimal(LeafFreqs(g), LeafLens(g, len)) && AtDepth(g, len))
  }

  lemma GeneratedAtOnce(g: Forest, desc: TreeDesc, t: Totals)
    requires Tree(g) && DescOk(desc) && desc.elems == g.elems && Passed(g, desc, 0, t) && t.over == 0
    ensures Generated(g, desc, t.len, t.bl, false, t.opt, t.stat)
  {
    hide Tree, DescOk, Passed, LensOk, Counts, LengthsFor, OptimalCodes.Optimal, BitCosts, StaticCosts, Deep, AtDepth;
    AfterPass(g, desc, t);
    NoOverflow(g, desc, t.len);
    OverflowDeep(g, t.len, desc.maxLength);
    UncutDepth(g, t.len, desc.maxLength);
  }

  lemma GeneratedByRepair(g: Forest, desc: TreeDesc, t: Totals, len: seq<nat>, bl: seq<nat>, i: nat, opt: int)
    requires Tree(g) && DescOk(desc) && desc.elems == g.elems && Passed(g, desc, 0, t) && t.over > 0
    requires Excess(bl, desc.maxLength, 0, g.k) && |bl| == MAX_BITS + 1
    requires Reassigning(g, desc, len, i, bl, 0, 0, opt) && Frugal(t.bl, bl, desc.maxLength)
    ensures Generated(g, desc, len, bl, true, opt, t.stat)
  {
    hide Frugal, Tree, DescOk, Passed, LensOk, Counts, OptimalCodes.Optimal, BitCosts, StaticCosts, Reassigning, Excess, LeafLens, Deep, AtDepth;
    TreeSize(g);
    AfterPass(g, desc, t);
    OverflowDeep(g, t.len, desc.maxLength);
    Reassigned(g, desc, len, i, bl, opt);
    LensSize(g, t.len, desc.maxLength);
    assert RepairedFrom(g, desc.maxLength, t.len, t.bl, bl);
    SameSupport(g, desc, t.len, len);
    SameStatic(g.f, LeafLens(g, t.len), LeafLens(g, len), desc);
  }

  lemma SameSupport(g: Forest, desc: TreeDesc, len0: seq<nat>, len: seq<nat>)
    requires Tree(g) && DescOk(desc) && LensOk(g, len0, desc.maxLength) && |len| == |g.f| == |len0|
    requires LengthsFor(g.f, g.elems, LeafLens(g, len), desc.maxLength)
    ensures forall x :: 0 <= x < |g.f| ==> (LeafLens(g, len0)[x] == 0 <==> LeafLens(g, len)[x] == 0)
  {
    LeafLensSmall(g, len0, desc.maxLength);
  }

  /** The overflow branch of gen_bitlen: repair the counts, then hand the lengths out again. */
  method LimitLengths(s: TreeState, tree: HuffTree, ghost g: Forest, overflow: nat, ghost t: Totals)
    requires OnArrays(g, s, tree) && NoneAfter(g.f, g.elems, tree.maxCode)
    requires Passed(g, tree.desc, 0, t) && t.len == tree.dl[..] && t.bl == s.blCount[..] && t.over == overflow > 0
    modifies s`optLen, s.blCount, tree.dl
    ensures Generated(g, tree.desc, tree.dl[..], s.blCount[..], true, t.opt + s.optLen - old(s.optLen), t.stat)
    ensures forall x :: 0 <= x < tree.dl.Length && !Listed(g, x) ==> tree.dl[x] == old(tree.dl[x])
  {
    hide Tree, DescOk, NoneAfter, Passed, Generated, LensOk, Counts, Excess, Reassigning, Listed, LeafLens, BitCosts, StaticCosts, Overflows,
         Frugal;
    TreeSize(g);
    DescLimits(tree.desc);
    AfterPass(g, tree.desc, t);
    CutOff(g, tree.desc, t.len, t.bl);
    RepairCounts(s.blCount, tree.desc.maxLength, overflow, g.k);
    ReassignStart(g, tree.desc, t.len, s.blCount[..]);
    ExcessZero(s.blCount[..], tree.desc.maxLength, g.k);
    ghost var i := Reassign(s, tree, g, t.opt);
    GeneratedByRepair(g, tree.desc, t, tree.dl[..], s.blCount[..], i, t.opt + s.optLen - old(s.optLen));
  }

  /** Compute the optimal bit lengths for a tree, within its length limit, and update the total
      bit length for the current block. limited says whether the limit made a difference. */
  method GenBitlen(s: TreeState, tree: HuffTree, ghost g: Forest) returns (limited: bool)
    requires OnArrays(g, s, tree) && g.dad == tree.dl[..] && NoneAfter(g.f, g.elems, tree.maxCode)
    modifies s`optLen, s`staticLen, s.blCount, tree.dl
    ensures Generated(g, tree.desc, tree.dl[..], s.blCount[..], limited,
                      s.optLen - old(s.optLen), s.staticLen - old(s.staticLen))
    ensures forall x :: 0 <= x < tree.dl.Length && !Listed(g, x) ==> tree.dl[x] == old(tree.dl[x])
  {
    hide Tree, DescOk, NoneAfter, Passed, Generated, LensOk, Counts, Listed;
    ghost var t: Totals;
    var overflow;
    overflow, t := FirstPass(s, tree, g);
    AfterPass(g, tree.desc, t);
    if overflow == 0 {
      GeneratedAtOnce(g, tree.desc, t);
      return false;
    }
    LimitLengths(s, tree, g, overflow, t);
    limited := true;
  }

  lemma ExcessZero(bl: seq<nat>, limit: nat, codes: nat)
    requires Excess(bl, limit, 0, codes)
    ensures bl[0] == 0
  {
  }
}
