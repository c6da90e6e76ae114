/** gen_bitlen: code lengths from the finished tree, within the length limit. */
module BitLengths {
  import opened Sums
  import opened HuffmanCode
  import opened CanonicalCodes
  import opened TreeHeap
  import opened TreeOrder
  import opened TreeLengths

  /** static_tree_desc: code lengths of the static tree (none for the bit length tree), extra
      bits from symbol base on, number of symbols, length limit. */
  datatype TreeDesc = TreeDesc(stree: seq<nat>, extra: seq<nat>, base: nat, elems: nat, maxLength: nat)

  /** Extra bits sent after the code of symbol n. */
  function XBits(desc: TreeDesc, n: nat): nat
  {
    if desc.base <= n < desc.base + |desc.extra| then desc.extra[n - desc.base] else 0
  }

  ghost predicate DescOk(desc: TreeDesc)
  {
    && 3 <= desc.elems <= 286 && 1 <= desc.maxLength <= MAX_BITS && desc.elems < Pow2(desc.maxLength)
    && desc.base <= desc.elems && |desc.extra| >= desc.elems - desc.base
    && (desc.stree == [] || |desc.stree| >= desc.elems)
    && XBits(desc, 0) == XBits(desc, 1) == XBits(desc, 2) == 0
  }

  /** A tree under construction: Freq/Code and Dad/Len are unions in the source, hence one
      array each. */
  class HuffTree {
    const fc: array<nat>
    const dl: array<nat>
    const desc: TreeDesc
    var maxCode: int

    /** No array in common. */
    ghost predicate Beside(other: HuffTree)
    {
      this != other && fc != other.fc && fc != other.dl && dl != other.fc && dl != other.dl
    }

    ghost predicate Valid()
    {
      DescOk(desc) && fc != dl && fc.Length == dl.Length == 2 * desc.elems + 1
    }

    constructor (desc: TreeDesc)
      requires DescOk(desc)
      ensures Valid() && this.desc == desc && fresh(fc) && fresh(dl)
      ensures forall i :: 0 <= i < fc.Length ==> fc[i] == 0
    {
      fc := new nat[2 * desc.elems + 1](i => 0);
      dl := new nat[2 * desc.elems + 1](i => 0);
      this.desc := desc;
      maxCode := -1;
    }
  }

  /** The part of the compression state that all tree constructions share. */
  class TreeState {
    const heap: array<nat>
    const depth: array<nat>
    const blCount: array<nat>
    var heapLen: nat
    var heapMax: nat
    var optLen: int
    var staticLen: int

    ghost predicate Valid()
    {
      && heap.Length == depth.Length == HEAP_SIZE && blCount.Length == MAX_BITS + 1
      && heap != depth && heap != blCount && depth != blCount
    }

    /** The state works on the tree without sharing any array with it. */
    ghost predicate Apart(tree: HuffTree)
    {
      && heap != tree.fc && heap != tree.dl && depth != tree.fc && depth != tree.dl
      && blCount != tree.fc && blCount != tree.dl
    }

    constructor ()
      ensures Valid() && fresh(heap) && fresh(depth) && fresh(blCount)
    {
      heap := new nat[HEAP_SIZE](i => 0);
      depth := new nat[HEAP_SIZE](i => 0);
      blCount := new nat[MAX_BITS + 1](i => 0);
      heapLen, heapMax, optLen, staticLen := 0, 0, 0, 0;
    }
  }

  // ---------- Counting bits ----------

  /** Bits taken by f occurrences of a symbol with a code of length l and x extra bits. */
  function SymbolBits(f: nat, l: nat, x: nat): nat
  {
    f * (l + x)
  }

  /** Bits taken by all occurrences of each symbol that has a code: code and extra bits. */
  ghost function BitCosts(f: seq<nat>, lens: seq<nat>, desc: TreeDesc): (r: seq<int>)
    requires |f| == |lens|
    ensures |r| == |f|
  {
    seq(|f|, x requires 0 <= x < |f| => if lens[x] == 0 then 0 else SymbolBits(f[x], lens[x], XBits(desc, x)))
  }

  /** The same with the static code. */
  ghost function StaticCosts(f: seq<nat>, lens: seq<nat>, desc: TreeDesc): (r: seq<int>)
    requires |f| == |lens|
    ensures |r| == |f|
  {
    seq(|f|, x requires 0 <= x < |f| =>
      if lens[x] == 0 || x >= |desc.stree| then 0 else SymbolBits(f[x], desc.stree[x], XBits(desc, x)))
  }

  lemma CostSet(f: seq<nat>, lens: seq<nat>, desc: TreeDesc, n: nat, l: nat)
    requires |f| == |lens| && n < |f| && lens[n] == 0 && l > 0
    ensures Sum(BitCosts(f, lens[n := l], desc)) == Sum(BitCosts(f, lens, desc)) + SymbolBits(f[n], l, XBits(desc, n))
    ensures Sum(StaticCosts(f, lens[n := l], desc)) == Sum(StaticCosts(f, lens, desc)) +
            if n < |desc.stree| then SymbolBits(f[n], desc.stree[n], XBits(desc, n)) else 0
  {
    assert BitCosts(f, lens[n := l], desc) == BitCosts(f, lens, desc)[n := SymbolBits(f[n], l, XBits(desc, n))];
    SumUpdate(BitCosts(f, lens, desc), n, SymbolBits(f[n], l, XBits(desc, n)));
    var c := if n < |desc.stree| then SymbolBits(f[n], desc.stree[n], XBits(desc, n)) else 0;
    assert StaticCosts(f, lens[n := l], desc) == StaticCosts(f, lens, desc)[n := c];
    SumUpdate(StaticCosts(f, lens, desc), n, c);
  }

  /** bl_count holds the number of codes of each length. */
  ghost predicate Counts(bl: seq<nat>, lens: seq<nat>)
  {
    && |bl| == MAX_BITS + 1 && bl[0] == 0
    && forall b :: 1 <= b <= MAX_BITS ==> bl[b] == Count(lens, b)
  }

  lemma CountsSet(bl: seq<nat>, lens: seq<nat>, n: nat, l: nat, bl': seq<nat>)
    requires Counts(bl, lens) && n < |lens| && lens[n] == 0 && 1 <= l <= MAX_BITS
    requires bl' == bl[l := bl[l] + 1]
    ensures Counts(bl', lens[n := l])
  {
    forall b | 1 <= b <= MAX_BITS ensures bl'[b] == Count(lens[n := l], b) {
      CountUpdate(lens, n, l, b);
    }
  }

  // ---------- First pass ----------

  /** The tree as the arrays hold it before any length is assigned. */
  ghost predicate OnArrays(g: Forest, s: TreeState, tree: HuffTree)
    reads s, s.heap, tree.fc
  {
    && s.Valid() && tree.Valid() && s.Apart(tree) && Tree(g)
    && g.elems == tree.desc.elems && g.f == tree.fc[..]
    && s.heapMax == HEAP_SIZE - (2 * g.k - 1)
    && forall i :: 0 <= i < |g.out| ==> s.heap[HEAP_SIZE - 1 - i] == g.out[i]
  }

  /** Nodes listed at i or later have their length, the others still their father link. */
  ghost predicate Half(g: Forest, len: seq<nat>, limit: nat, i: nat)
    requires Tree(g)
  {
    && |len| == |g.f| && len[Root(g)] == 0 && i < |g.out|
    && (forall j :: i <= j < 2 * g.k - 2 ==>
          len[g.out[j]] == if len[g.elems + j / 2] < limit then len[g.elems + j / 2] + 1 else limit)
    && (forall j :: 0 <= j < i ==> len[g.out[j]] == g.elems + j / 2)
  }

  /** Lengths of the symbols listed at i or later. */
  ghost function Done(g: Forest, len: seq<nat>, i: nat): (r: seq<nat>)
    requires Sized(g) && |len| == |g.f|
    ensures |r| == |len|
  {
    seq(|len|, x requires 0 <= x < |len| => if x < g.elems && Listed(g, x) && g.at[x] >= i then len[x] else 0)
  }

  /** Fathers at the limit, counted once for each son listed at i or later. */
  ghost function OverNodes(g: Forest, len: seq<nat>, limit: nat, i: nat): nat
    requires Tree(g) && |len| == |g.f| && i <= 2 * g.k - 2
    decreases 2 * g.k - 2 - i
  {
    if i == 2 * g.k - 2 then 0
    else (if len[g.elems + i / 2] == limit then 1 else 0) + OverNodes(g, len, limit, i + 1)
  }

  function Below(l: nat, limit: nat): nat
  {
    if l < limit then l + 1 else limit
  }

  lemma SonOfListed(g: Forest, j: nat)
    requires Tree(g) && j < 2 * g.k - 2
    ensures Listed(g, g.elems + j / 2) && g.at[g.elems + j / 2] > j
    ensures g.at[g.out[j]] == j && g.out[j] != Root(g)
    ensures g.dad[g.out[j]] == g.elems + j / 2
  {
    PairListed(g, j / 2);
    assert Merged(g, j / 2);
    assert j == 2 * (j / 2) || j == 2 * (j / 2) + 1;
    assert g.at[Root(g)] == 2 * g.k - 2;
  }

  lemma ListedOnce(g: Forest, x: nat, i: nat)
    requires Sized(g) && Listing(g) && i < |g.out| && Listed(g, x) && g.at[x] == i
    ensures x == g.out[i]
  {
  }

  lemma HalfStart(g: Forest, len: seq<nat>, limit: nat, done: seq<nat>)
    requires Tree(g) && |len| == |g.f| && len[Root(g)] == 0
    requires forall x :: 0 <= x < |len| && x != Root(g) ==> len[x] == g.dad[x]
    requires done == Done(g, len, 2 * g.k - 2)
    ensures Half(g, len, limit, 2 * g.k - 2)
    ensures forall x :: 0 <= x < |done| ==> done[x] == 0
  {
    forall j | 0 <= j < 2 * g.k - 2 ensures len[g.out[j]] == g.elems + j / 2 {
      SonOfListed(g, j);
    }
    forall x | 0 <= x < |done| ensures done[x] == 0 {
      if Listed(g, x) { ListedOnce(g, x, g.at[x]); }
    }
  }

  lemma HalfStep(g: Forest, len: seq<nat>, limit: nat, i: nat)
    requires Tree(g) && i < 2 * g.k - 2 && Half(g, len, limit, i + 1) && limit > 0
    ensures len[g.out[i]] == g.elems + i / 2 < |len|
    ensures Half(g, len[g.out[i] := Below(len[g.elems + i / 2], limit)], limit, i)
  {
    var n, father := g.out[i], g.elems + i / 2;
    SonOfListed(g, i);
    var len' := len[n := Below(len[father], limit)];
    forall j | i <= j < 2 * g.k - 2 ensures len'[g.out[j]] == Below(len'[g.elems + j / 2], limit) {
      SonOfListed(g, j);
    }
    forall j | 0 <= j < i ensures len'[g.out[j]] == g.elems + j / 2 {
      SonOfListed(g, j);
    }
  }

  /** The length assigned is positive, within the limit, and new. */
  lemma DoneStep(g: Forest, len: seq<nat>, limit: nat, i: nat)
    requires Tree(g) && i < 2 * g.k - 2 && Half(g, len, limit, i + 1) && limit > 0
    ensures var n, l := g.out[i], Below(len[g.elems + i / 2], limit);
            && 1 <= l <= limit && Done(g, len, i + 1)[n] == 0
            && Done(g, len[n := l], i) == if n < g.elems then Done(g, len, i + 1)[n := l] else Done(g, len, i + 1)
  {
    var n, father := g.out[i], g.elems + i / 2;
    SonOfListed(g, i);
    var len' := len[n := Below(len[father], limit)];
    forall x | 0 <= x < |len| && x != n ensures Done(g, len', i)[x] == Done(g, len, i + 1)[x] {
      if Listed(g, x) && g.at[x] <= i { ListedOnce(g, x, g.at[x]); }
    }
  }

  lemma {:induction false} OverSame(g: Forest, len: seq<nat>, len': seq<nat>, limit: nat, n: nat, i: nat, j: nat)
    requires Tree(g) && |len| == |len'| == |g.f| && i < j <= 2 * g.k - 2 && n == g.out[i]
    requires forall x :: 0 <= x < |len| && x != n ==> len'[x] == len[x]
    ensures OverNodes(g, len', limit, j) == OverNodes(g, len, limit, j)
    decreases 2 * g.k - 2 - j
  {
    if j < 2 * g.k - 2 {
      SonOfListed(g, j);
      SonOfListed(g, i);
      OverSame(g, len, len', limit, n, i, j + 1);
    }
  }

  lemma OverStep(g: Forest, len: seq<nat>, limit: nat, i: nat, l: nat)
    requires Tree(g) && |len| == |g.f| && i < 2 * g.k - 2
    ensures OverNodes(g, len[g.out[i] := l], limit, i) ==
            OverNodes(g, len, limit, i + 1) + if len[g.elems + i / 2] == limit then 1 else 0
  {
    OverSame(g, len, len[g.out[i] := l], limit, g.out[i], i, i + 1);
    SonOfListed(g, i);
  }

  lemma {:induction false} OverPairs(g: Forest, len: seq<nat>, limit: nat, t: nat)
    requires Tree(g) && |len| == |g.f| && t < g.k
    ensures OverNodes(g, len, limit, 2 * t) == 2 * Overflows(g, len, limit, t)
    decreases g.k - t
  {
    if t < g.k - 1 {
      OverPairs(g, len, limit, t + 1);
      assert (2 * t) / 2 == t && (2 * t + 1) / 2 == t;
      var o1 := OverNodes(g, len, limit, 2 * t + 1);
      assert o1 == (if len[g.elems + t] == limit then 1 else 0) + OverNodes(g, len, limit, 2 * t + 2);
    }
  }

  lemma HalfEnd(g: Forest, len: seq<nat>, limit: nat)
    requires Tree(g) && Half(g, len, limit, 0)
    ensures LensOk(g, len, limit)
    ensures Done(g, len, 0) == LeafLens(g, len)
  {
    forall s | 0 <= s < g.k - 1 ensures PairLens(g, len, limit, s) {
      assert (2 * s) / 2 == s && (2 * s + 1) / 2 == s;
    }
    forall x | 0 <= x < |len| ensures Done(g, len, 0)[x] == LeafLens(g, len)[x] {
      ListedExists(g, x);
    }
  }

  /** Symbols after maxCode do not occur. */
  ghost predicate NoneAfter(f: seq<nat>, elems: nat, maxCode: int)
  {
    && elems <= |f| && maxCode < elems
    && forall x :: 0 <= x < elems && x > maxCode ==> f[x] == 0
  }

  lemma LeafIffSmall(g: Forest, maxCode: int, i: nat)
    requires Tree(g) && i < |g.out| && NoneAfter(g.f, g.elems, maxCode)
    ensures g.out[i] <= maxCode <==> g.out[i] < g.elems
  {
    assert Exists(g, g.k - 1, g.out[i]);
  }

  /** What the first pass keeps: lengths (or father links), bl_count, overflow, and what it added
      to opt_len and static_len. */
  datatype Totals = Totals(len: seq<nat>, bl: seq<nat>, over: nat, opt: int, stat: int)

  /** The totals are right when the nodes listed at i or later are done. */
  ghost predicate Passed(g: Forest, desc: TreeDesc, i: nat, t: Totals)
    requires Tree(g)
  {
    && i <= 2 * g.k - 2 && |t.len| == |g.f| && Half(g, t.len, desc.maxLength, i)
    && Counts(t.bl, Done(g, t.len, i))
    && t.over == OverNodes(g, t.len, desc.maxLength, i)
    && t.opt == Sum(BitCosts(g.f, Done(g, t.len, i), desc))
    && t.stat == Sum(StaticCosts(g.f, Done(g, t.len, i), desc))
    && forall x :: 0 <= x < |t.len| && !Listed(g, x) ==> t.len[x] == g.dad[x]
  }

  /** The next node to visit still names its father, whose length is known and within the limit. */
  lemma NextFather(g: Forest, desc: TreeDesc, i: nat, t: Totals)
    requires Tree(g) && i < 2 * g.k - 2 && Passed(g, desc, i + 1, t)
    ensures i < |g.out| && g.out[i] < |t.len| && t.len[g.out[i]] == g.elems + i / 2 < |t.len|
    ensures t.len[g.elems + i / 2] <= desc.maxLength
  {
    SonOfListed(g, i);
    var j := g.at[g.elems + i / 2];
    assert g.out[j] == g.elems + i / 2;
  }

  lemma PassedKeeps(g: Forest, i: nat, t: Totals, len': seq<nat>, l: nat)
    requires Tree(g) && i < 2 * g.k - 2 && |t.len| == |g.f|
    requires forall x :: 0 <= x < |t.len| && !Listed(g, x) ==> t.len[x] == g.dad[x]
    requires len' == t.len[g.out[i] := l]
    ensures forall x :: 0 <= x < |len'| && !Listed(g, x) ==> len'[x] == g.dad[x]
  {
    assert Listed(g, g.out[i]);
  }

  lemma PassedStart(g: Forest, desc: TreeDesc, len: seq<nat>, bl: seq<nat>)
    requires Tree(g) && len == g.dad[Root(g) := 0]
    requires |bl| == MAX_BITS + 1 && (forall b :: 0 <= b <= MAX_BITS ==> bl[b] == 0)
    ensures Passed(g, desc, 2 * g.k - 2, Totals(len, bl, 0, 0, 0))
  {
    var done := Done(g, len, 2 * g.k - 2);
    HalfStart(g, len, desc.maxLength, done);
    forall b | 1 <= b <= MAX_BITS ensures Count(done, b) == 0 {
      CountNone(done, b);
    }
    SumZero(BitCosts(g.f, done, desc));
    SumZero(StaticCosts(g.f, done, desc));
    assert Listed(g, Root(g)) by { assert Exists(g, g.k - 1, Root(g)); }
  }

  lemma DescLimits(desc: TreeDesc)
    requires DescOk(desc)
    ensures 1 <= desc.maxLength <= MAX_BITS && 3 <= desc.elems <= 286
  {
  }

  /** What visiting node out[i] leaves unchanged apart from its length. */
  lemma PassedNode(g: Forest, desc: TreeDesc, i: nat, t: Totals, l: nat)
    requires Tree(g) && DescOk(desc) && i < 2 * g.k - 2
    requires Passed(g, desc, i + 1, t) && l == Below(t.len[g.elems + i / 2], desc.maxLength)
    ensures g.out[i] < |t.len| && |t.len| == |g.f| && 1 <= l <= desc.maxLength
    ensures var len', done := t.len[g.out[i] := l], Done(g, t.len, i + 1);
            && Half(g, len', desc.maxLength, i)
            && (forall x :: 0 <= x < |len'| && !Listed(g, x) ==> len'[x] == g.dad[x])
            && OverNodes(g, len', desc.maxLength, i) ==
               t.over + (if t.len[g.elems + i / 2] == desc.maxLength then 1 else 0)
            && done[g.out[i]] == 0
            && Done(g, len', i) == if g.out[i] < g.elems then done[g.out[i] := l] else done
  {
    NextFather(g, desc, i, t);
    hide Tree, Half, Below, Listed;
    var len' := t.len[g.out[i] := l];
    HalfStep(g, t.len, desc.maxLength, i);
    DoneStep(g, t.len, desc.maxLength, i);
    OverStep(g, t.len, desc.maxLength, i, l);
    PassedKeeps(g, i, t, len', l);
  }

  lemma PassedInner(g: Forest, desc: TreeDesc, i: nat, t: Totals, l: nat) returns (t': Totals)
    requires Tree(g) && DescOk(desc) && i < 2 * g.k - 2
    requires Passed(g, desc, i + 1, t) && l == Below(t.len[g.elems + i / 2], desc.maxLength)
    requires g.elems <= g.out[i] < |t.len|
    ensures Passed(g, desc, i, t')
    ensures t' == Totals(t.len[g.out[i] := l], t.bl,
                         t.over + if t.len[g.elems + i / 2] == desc.maxLength then 1 else 0, t.opt, t.stat)
  {
    PassedNode(g, desc, i, t, l);
    hide Tree, Half, Below, Listed, Counts, DescOk;
    t' := Totals(t.len[g.out[i] := l], t.bl,
                 t.over + if t.len[g.elems + i / 2] == desc.maxLength then 1 else 0, t.opt, t.stat);
  }

  /** The totals after one more leaf of length l. */
  ghost function LeafTotals(g: Forest, desc: TreeDesc, i: nat, t: Totals, l: nat): Totals
    requires i < |g.out| && g.out[i] < |t.len| && g.out[i] < |g.f| && l < |t.bl| && g.elems + i / 2 < |t.len|
  {
    var n := g.out[i];
    Totals(t.len[n := l], t.bl[l := t.bl[l] + 1],
           t.over + if t.len[g.elems + i / 2] == desc.maxLength then 1 else 0,
           t.opt + SymbolBits(g.f[n], l, XBits(desc, n)),
           t.stat + if n < |desc.stree| then SymbolBits(g.f[n], desc.stree[n], XBits(desc, n)) else 0)
  }

  lemma PassedLeaf(g: Forest, desc: TreeDesc, i: nat, t: Totals, l: nat)
    requires Tree(g) && DescOk(desc) && i < 2 * g.k - 2
    requires Passed(g, desc, i + 1, t) && l == Below(t.len[g.elems + i / 2], desc.maxLength)
    requires g.out[i] < g.elems
    ensures g.out[i] < |t.len| && g.out[i] < |g.f| && |t.bl| == MAX_BITS + 1 && 1 <= l <= MAX_BITS
    ensures Passed(g, desc, i, LeafTotals(g, desc, i, t, l))
  {
    hide Tree, DescOk, Half, SymbolBits, XBits, Counts, BitCosts, StaticCosts, Done, OverNodes, Listed, Below;
    DescLimits(desc);
    TreeSize(g);
    PassedNode(g, desc, i, t, l);
    PassedLeafSums(g, desc, i, t, l);
  }

  lemma PassedLeafSums(g: Forest, desc: TreeDesc, i: nat, t: Totals, l: nat)
    requires Tree(g) && DescOk(desc) && i < 2 * g.k - 2
    requires Passed(g, desc, i + 1, t)
    requires g.out[i] < g.elems && g.out[i] < |t.len| && 1 <= l <= desc.maxLength
    requires Sized(g) && i < |g.out| && |t.len| == |g.f| && Done(g, t.len, i + 1)[g.out[i]] == 0
    ensures |t.bl| == MAX_BITS + 1
    ensures var t', done := LeafTotals(g, desc, i, t, l), Done(g, t.len, i + 1)[g.out[i] := l];
            && Counts(t'.bl, done)
            && t'.opt == Sum(BitCosts(g.f, done, desc))
            && t'.stat == Sum(StaticCosts(g.f, done, desc))
  {
    hide Tree, DescOk, Half, SymbolBits, XBits, Counts, BitCosts, StaticCosts, Done, OverNodes, Listed;
    var n, done := g.out[i], Done(g, t.len, i + 1);
    DescLimits(desc);
    CountsSize(t.bl, done);
    CountsSet(t.bl, done, n, l, t.bl[l := t.bl[l] + 1]);
    CostSet(g.f, done, desc, n, l);
  }

  lemma CountsSize(bl: seq<nat>, lens: seq<nat>)
    requires Counts(bl, lens)
    ensures |bl| == MAX_BITS + 1
  {
  }

  method ClearCounts(blCount: array<nat>)
    requires blCount.Length == MAX_BITS + 1
    modifies blCount
    ensures forall b :: 0 <= b <= MAX_BITS ==> blCount[b] == 0
  {
    var bits := 0;
    while bits <= MAX_BITS
      invariant bits <= MAX_BITS + 1
      invariant forall b :: 0 <= b < bits ==> blCount[b] == 0
    {
      blCount[bits] := 0;
      bits := bits + 1;
    }
  }

  /** Account for symbol n, of frequency f, getting a code of the given length. */
  method CountLeaf(s: TreeState, desc: TreeDesc, n: nat, f: nat, bits: nat)
    requires s.Valid() && DescOk(desc) && n < desc.elems && bits <= MAX_BITS
    modifies s`optLen, s`staticLen, s.blCount
    ensures s.blCount[..] == old(s.blCount[..])[bits := old(s.blCount[bits]) + 1]
    ensures s.optLen == old(s.optLen) + SymbolBits(f, bits, XBits(desc, n))
    ensures s.staticLen == old(s.staticLen) +
            if n < |desc.stree| then SymbolBits(f, desc.stree[n], XBits(desc, n)) else 0
  {
    s.blCount[bits] := s.blCount[bits] + 1;
    var xbits := 0;
    if n >= desc.base {
      xbits := desc.extra[n - desc.base];
    }
    s.optLen := s.optLen + f * (bits + xbits);
    if desc.stree != [] {
      s.staticLen := s.staticLen + f * (desc.stree[n] + xbits);
    }
  }

  /** The body of the first pass: node heap[h] gets its length. */
  method VisitNode(s: TreeState, tree: HuffTree, h: nat, over: nat, ghost g: Forest, ghost i: nat, ghost t: Totals)
      returns (over': nat, ghost t': Totals)
    requires s.Valid() && tree.Valid() && s.Apart(tree) && Tree(g) && g.elems == tree.desc.elems
    requires g.f == tree.fc[..] && NoneAfter(g.f, g.elems, tree.maxCode)
    requires h < HEAP_SIZE && i < 2 * g.k - 2 && s.heap[h] == g.out[i]
    requires Passed(g, tree.desc, i + 1, t)
    requires t.len == tree.dl[..] && t.bl == s.blCount[..] && t.over == over
    modifies s`optLen, s`staticLen, s.blCount, tree.dl
    ensures Passed(g, tree.desc, i, t')
    ensures t'.len == tree.dl[..] && t'.bl == s.blCount[..] && t'.over == over'
    ensures t'.opt - t.opt == s.optLen - old(s.optLen)
    ensures t'.stat - t.stat == s.staticLen - old(s.staticLen)
  {
    hide Tree, Passed, NoneAfter, SymbolBits, XBits, DescOk, LeafTotals;
    DescLimits(tree.desc);
    TreeSize(g);
    NextFather(g, tree.desc, i, t);
    LeafIffSmall(g, tree.maxCode, i);
    var maxLength := tree.desc.maxLength;
    over' := over;
    var n := s.heap[h];
    var bits := tree.dl[tree.dl[n]] + 1;
    if bits > maxLength {
      bits := maxLength;
      over' := over + 1;
    }
    tree.dl[n] := bits;
    if n > tree.maxCode {
      t' := PassedInner(g, tree.desc, i, t, bits);
      return;
    }
    PassedLeaf(g, tree.desc, i, t, bits);
    t' := LeafTotals(g, tree.desc, i, t, bits);
    LeafTotalsAre(g, tree.desc, i, t, bits);
    CountLeaf(s, tree.desc, n, tree.fc[n], bits);
    assert tree.dl[..] == t'.len;
  }

  lemma LeafTotalsAre(g: Forest, desc: TreeDesc, i: nat, t: Totals, l: nat)
    requires i < |g.out| && g.out[i] < |t.len| && g.out[i] < |g.f| && l < |t.bl| && g.elems + i / 2 < |t.len|
    ensures var n, t' := g.out[i], LeafTotals(g, desc, i, t, l);
            && t'.len == t.len[n := l] && t'.bl == t.bl[l := t.bl[l] + 1]
            && t'.over == t.over + (if t.len[g.elems + i / 2] == desc.maxLength then 1 else 0)
            && t'.opt == t.opt + SymbolBits(g.f[n], l, XBits(desc, n))
            && t'.stat == t.stat + if n < |desc.stree| then SymbolBits(g.f[n], desc.stree[n], XBits(desc, n)) else 0
  {
  }

  /** Before the first pass: no lengths counted, the root at level 0. */
  method StartLengths(s: TreeState, tree: HuffTree, ghost g: Forest) returns (ghost t: Totals)
    requires OnArrays(g, s, tree) && g.dad == tree.dl[..]
    modifies s.blCount, tree.dl
    ensures Passed(g, tree.desc, 2 * g.k - 2, t)
    ensures t.len == tree.dl[..] && t.bl == s.blCount[..] && t.over == 0 && t.opt == t.stat == 0
  {
    hide Tree, Passed;
    TreeSize(g);
    ClearCounts(s.blCount);
    assert s.heap[s.heapMax] == s.heap[HEAP_SIZE - 1 - (2 * g.k - 2)] == g.out[2 * g.k - 2];
    tree.dl[s.heap[s.heapMax]] := 0;
    t := Totals(tree.dl[..], s.blCount[..], 0, 0, 0);
    PassedStart(g, tree.desc, t.len, t.bl);
  }

  /** First pass of gen_bitlen: the optimal lengths, cut off at the limit. */
  method FirstPass(s: TreeState, tree: HuffTree, ghost g: Forest) returns (overflow: nat, ghost t: Totals)
    requires OnArrays(g, s, tree) && g.dad == tree.dl[..] && NoneAfter(g.f, g.elems, tree.maxCode)
    modifies s`optLen, s`staticLen, s.blCount, tree.dl
    ensures Passed(g, tree.desc, 0, t)
    ensures t.len == tree.dl[..] && t.bl == s.blCount[..] && t.over == overflow
    ensures t.opt == s.optLen - old(s.optLen) && t.stat == s.staticLen - old(s.staticLen)
  {
    hide Tree, Passed, NoneAfter;
    TreeSize(g);
    overflow := 0;
    t := StartLengths(s, tree, g);
    var h := s.heapMax + 1;
    while h < HEAP_SIZE
      invariant s.heapMax + 1 <= h <= HEAP_SIZE
      invariant tree.fc[..] == g.f
      invariant t.len == tree.dl[..] && t.bl == s.blCount[..] && t.over == overflow
      invariant t.opt == s.optLen - old(s.optLen) && t.stat == s.staticLen - old(s.staticLen)
      invariant Passed(g, tree.desc, HEAP_SIZE - h, t)
    {
      ghost var i := HEAP_SIZE - 1 - h;
      assert s.heap[HEAP_SIZE - 1 - i] == g.out[i];
      overflow, t := VisitNode(s, tree, h, overflow, g, i, t);
      h := h + 1;
    }
  }
}
