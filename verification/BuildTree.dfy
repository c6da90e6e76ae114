/** build_tree: from symbol frequencies to a complete, length-limited code. */
module BuildTree {
  import opened Sums
  import opened HuffmanCode
  import opened TreeHeap
  import opened TreeOrder
  import opened TreeLengths
  import opened TreeDepth
  import opened TreeHeights
  import opened BitLengths
  import opened GenBitlen
  import opened GenCodes

  // ---------- The initial queue ----------

  /** The queue holds exactly the symbols that occur. */
  ghost predicate SymbolQueue(h: seq<nat>, pos: seq<nat>, len: nat, f: seq<nat>, elems: nat)
  {
    && |pos| == |f| && elems <= |f|
    && Indexed(h, pos, len)
    && (forall x :: 0 <= x < |pos| ==> pos[x] <= len && (pos[x] > 0 <==> x < elems && f[x] > 0))
  }

  /** Symbols that occur are trees of height 0. */
  ghost predicate AtBottom(f: seq<nat>, d: seq<nat>, elems: nat)
  {
    && elems <= |f| && elems <= |d|
    && (forall x :: 0 <= x < elems && f[x] > 0 ==> d[x] == 0)
  }

  lemma Enqueue(h: seq<nat>, pos: seq<nat>, len: nat, f: seq<nat>, elems: nat, n: nat, v: nat)
    requires SymbolQueue(h, pos, len, f, elems) && n < elems && f[n] == 0 && len + 1 < |h| && v > 0
    ensures SymbolQueue(h[len + 1 := n], pos[n := len + 1], len + 1, f[n := v], elems)
  {
  }

  /** The symbols below n only. */
  function Prefix(f: seq<nat>, n: nat): (r: seq<nat>)
    requires n <= |f|
    ensures |r| == |f|
  {
    seq(|f|, x requires 0 <= x < |f| => if x < n then f[x] else 0)
  }

  lemma PrefixNext(f: seq<nat>, n: nat)
    requires n < |f|
    ensures Prefix(f, n + 1) == Prefix(f, n)[n := f[n]]
    ensures Prefix(f, n)[n] == 0
    ensures f[n] == 0 ==> Prefix(f, n + 1) == Prefix(f, n)
  {
  }

  /** Put the symbols that occur into the queue; the others get length 0. */
  method InitHeap(s: TreeState, tree: HuffTree) returns (ghost pos: seq<nat>)
    requires s.Valid() && tree.Valid() && s.Apart(tree)
    modifies s`heapLen, s`heapMax, s.heap, s.depth, tree.dl, tree`maxCode
    ensures s.heapLen <= tree.desc.elems && s.heapMax == HEAP_SIZE
    ensures SymbolQueue(s.heap[..], pos, s.heapLen, tree.fc[..], tree.desc.elems)
    ensures -1 <= tree.maxCode && NoneAfter(tree.fc[..], tree.desc.elems, tree.maxCode)
    ensures tree.maxCode >= 0 ==> tree.fc[tree.maxCode] > 0
    ensures forall x :: 0 <= x < tree.desc.elems && tree.fc[x] == 0 ==> tree.dl[x] == 0
    ensures AtBottom(tree.fc[..], s.depth[..], tree.desc.elems)
  {
    hide DescOk, SymbolQueue, Prefix;
    DescLimits(tree.desc);
    ghost var f := tree.fc[..];
    s.heapLen, s.heapMax := 0, HEAP_SIZE;
    tree.maxCode := -1;
    pos := seq(tree.fc.Length, x => 0);
    var n: nat := 0;
    PrefixStart(f, tree.desc.elems, s.heap[..], pos);
    while n < tree.desc.elems
      invariant 0 <= n <= tree.desc.elems && s.heapLen <= n && s.heapMax == HEAP_SIZE && |pos| == |f|
      invariant -1 <= tree.maxCode < n && tree.fc[..] == f
      invariant SymbolQueue(s.heap[..], pos, s.heapLen, Prefix(f, n), tree.desc.elems)
      invariant forall x :: 0 <= x < n && x > tree.maxCode ==> f[x] == 0
      invariant tree.maxCode >= 0 ==> f[tree.maxCode] > 0
      invariant forall x :: 0 <= x < n && f[x] == 0 ==> tree.dl[x] == 0
      invariant forall x :: 0 <= x < n && f[x] > 0 ==> s.depth[x] == 0
    {
      PrefixNext(f, n);
      if tree.fc[n] != 0 {
        Enqueue(s.heap[..], pos, s.heapLen, Prefix(f, n), tree.desc.elems, n, f[n]);
        ghost var h := s.heap[..];
        s.heapLen := s.heapLen + 1;
        s.heap[s.heapLen] := n;
        tree.maxCode := n;
        s.depth[n] := 0;
        pos := pos[n := s.heapLen];
        assert s.heap[..] == h[s.heapLen := n];
      } else {
        tree.dl[n] := 0;
      }
      n := n + 1;
    }
    PrefixSame(f, tree.desc.elems, s.heap[..], pos, s.heapLen);
  }

  lemma PrefixStart(f: seq<nat>, elems: nat, h: seq<nat>, pos: seq<nat>)
    requires elems <= |f| == |pos| && |h| > 0 && forall x :: 0 <= x < |pos| ==> pos[x] == 0
    ensures SymbolQueue(h, pos, 0, Prefix(f, 0), elems)
  {
  }

  lemma PrefixSame(f: seq<nat>, elems: nat, h: seq<nat>, pos: seq<nat>, len: nat)
    requires elems <= |f| && SymbolQueue(h, pos, len, Prefix(f, elems), elems)
    ensures SymbolQueue(h, pos, len, f, elems)
  {
  }

  // ---------- At least two codes ----------

  /** Frequencies after forcing the given symbols to frequency 1. */
  function Forced(f: seq<nat>, ds: seq<nat>): (r: seq<nat>)
    requires forall i :: 0 <= i < |ds| ==> ds[i] < |f|
    ensures |r| == |f|
  {
    if ds == [] then f else Forced(f, ds[..|ds| - 1])[ds[|ds| - 1] := 1]
  }

  /** The symbols forced: none if two symbols occur; otherwise enough to have two, all among the
      first three and none of them occurring. */
  ghost predicate Dummies(f: seq<nat>, ds: seq<nat>)
  {
    && |f| >= 3
    && (forall i :: 0 <= i < |ds| ==> ds[i] <= 2 && f[ds[i]] == 0)
    && (forall i, j :: 0 <= i < j < |ds| ==> ds[i] != ds[j])
  }

  lemma {:induction false} ForcedAt(f: seq<nat>, ds: seq<nat>, x: nat)
    requires Dummies(f, ds) && x < |f|
    ensures Forced(f, ds)[x] == if x in ds then 1 else f[x]
  {
    if ds != [] {
      ForcedAt(f, ds[..|ds| - 1], x);
    }
  }

  function StaticBits(desc: TreeDesc, ds: seq<nat>): int
  {
    if ds == [] then 0
    else StaticBits(desc, ds[..|ds| - 1]) + if ds[|ds| - 1] < |desc.stree| then desc.stree[ds[|ds| - 1]] else 0
  }

  /** With at most one symbol in the queue no two symbols occur. */
  lemma LoneSymbol(h: seq<nat>, pos: seq<nat>, len: nat, f: seq<nat>, elems: nat, x: nat, y: nat)
    requires SymbolQueue(h, pos, len, f, elems) && len < 2 && x < elems && y < elems && f[x] > 0 && f[y] > 0
    ensures x == y
  {
    assert pos[x] == 1 && pos[y] == 1;
  }

  /** Force one symbol that does not occur, as build_tree does while there are fewer than two. */
  method ForceOne(s: TreeState, tree: HuffTree, ghost pos: seq<nat>) returns (node: nat, ghost pos': seq<nat>)
    requires s.Valid() && tree.Valid() && s.Apart(tree) && s.heapLen < 2
    requires SymbolQueue(s.heap[..], pos, s.heapLen, tree.fc[..], tree.desc.elems)
    requires -1 <= tree.maxCode && NoneAfter(tree.fc[..], tree.desc.elems, tree.maxCode)
    requires tree.maxCode >= 0 ==> tree.fc[tree.maxCode] > 0
    requires AtBottom(tree.fc[..], s.depth[..], tree.desc.elems)
    modifies s`heapLen, s.heap, s.depth, s`optLen, s`staticLen, tree.fc, tree`maxCode
    ensures node <= 2 && old(tree.fc[node]) == 0 && tree.fc[..] == old(tree.fc[..])[node := 1]
    ensures s.heapLen == old(s.heapLen) + 1
    ensures SymbolQueue(s.heap[..], pos', s.heapLen, tree.fc[..], tree.desc.elems)
    ensures 0 <= tree.maxCode < tree.desc.elems && NoneAfter(tree.fc[..], tree.desc.elems, tree.maxCode)
    ensures tree.fc[tree.maxCode] > 0
    ensures AtBottom(tree.fc[..], s.depth[..], tree.desc.elems)
    ensures s.optLen == old(s.optLen) - 1
    ensures s.staticLen == old(s.staticLen) - if node < |tree.desc.stree| then tree.desc.stree[node] else 0
  {
    hide SymbolQueue;
    ghost var f, h := tree.fc[..], s.heap[..];
    QueueSize(h, pos, s.heapLen, f, tree.desc.elems, tree.maxCode);
    if tree.maxCode < 2 {
      tree.maxCode := tree.maxCode + 1;
      node := tree.maxCode;
    } else {
      node := 0;
    }
    Enqueue(h, pos, s.heapLen, f, tree.desc.elems, node, 1);
    s.heapLen := s.heapLen + 1;
    s.heap[s.heapLen] := node;
    tree.fc[node] := 1;
    s.depth[node] := 0;
    s.optLen := s.optLen - 1;
    if tree.desc.stree != [] {
      s.staticLen := s.staticLen - tree.desc.stree[node];
    }
    pos' := pos[node := s.heapLen];
    assert s.heap[..] == h[s.heapLen := node] && tree.fc[..] == f[node := 1];
  }

  lemma QueueSize(h: seq<nat>, pos: seq<nat>, len: nat, f: seq<nat>, elems: nat, maxCode: int)
    requires SymbolQueue(h, pos, len, f, elems) && len < 2 <= elems && -1 <= maxCode && NoneAfter(f, elems, maxCode)
    requires maxCode >= 0 ==> f[maxCode] > 0
    ensures |pos| == |f| && len < |h|
    ensures maxCode >= 2 ==> f[0] == 0
  {
    if maxCode >= 2 && f[0] > 0 {
      LoneSymbol(h, pos, len, f, elems, 0, maxCode);
    }
  }

  /** Force at least two codes of non-zero frequency. */
  method ForceTwo(s: TreeState, tree: HuffTree, ghost pos0: seq<nat>) returns (ghost pos: seq<nat>, ghost ds: seq<nat>)
    requires s.Valid() && tree.Valid() && s.Apart(tree)
    requires SymbolQueue(s.heap[..], pos0, s.heapLen, tree.fc[..], tree.desc.elems)
    requires -1 <= tree.maxCode && NoneAfter(tree.fc[..], tree.desc.elems, tree.maxCode)
    requires tree.maxCode >= 0 ==> tree.fc[tree.maxCode] > 0
    requires AtBottom(tree.fc[..], s.depth[..], tree.desc.elems)
    modifies s`heapLen, s.heap, s.depth, s`optLen, s`staticLen, tree.fc, tree`maxCode
    ensures Dummies(old(tree.fc[..]), ds) && tree.fc[..] == Forced(old(tree.fc[..]), ds)
    ensures ds == [] ==> s.heapLen == old(s.heapLen)
    ensures s.heapLen >= 2 && (ds != [] ==> s.heapLen == 2)
    ensures SymbolQueue(s.heap[..], pos, s.heapLen, tree.fc[..], tree.desc.elems)
    ensures 0 <= tree.maxCode < tree.desc.elems && NoneAfter(tree.fc[..], tree.desc.elems, tree.maxCode)
    ensures tree.fc[tree.maxCode] > 0
    ensures AtBottom(tree.fc[..], s.depth[..], tree.desc.elems)
    ensures s.optLen == old(s.optLen) - |ds|
    ensures s.staticLen == old(s.staticLen) - StaticBits(tree.desc, ds)
  {
    hide SymbolQueue, NoneAfter, AtBottom;
    ghost var f0 := tree.fc[..];
    pos, ds := pos0, [];
    QueueNonEmpty(s.heap[..], pos, s.heapLen, f0, tree.desc.elems, tree.maxCode);
    while s.heapLen < 2
      invariant Dummies(f0, ds) && tree.fc[..] == Forced(f0, ds)
      invariant SymbolQueue(s.heap[..], pos, s.heapLen, tree.fc[..], tree.desc.elems)
      invariant -1 <= tree.maxCode < tree.desc.elems && NoneAfter(tree.fc[..], tree.desc.elems, tree.maxCode)
      invariant tree.maxCode >= 0 ==> tree.fc[tree.maxCode] > 0
      invariant AtBottom(tree.fc[..], s.depth[..], tree.desc.elems)
      invariant s.heapLen > 0 ==> tree.maxCode >= 0
      invariant s.optLen == old(s.optLen) - |ds|
      invariant s.staticLen == old(s.staticLen) - StaticBits(tree.desc, ds)
      invariant ds == [] ==> s.heapLen == old(s.heapLen)
      invariant ds != [] ==> s.heapLen <= 2
      decreases 2 - s.heapLen
    {
      var node;
      ghost var f := tree.fc[..];
      node, pos := ForceOne(s, tree, pos);
      ForcedAt(f0, ds, node);
      assert (ds + [node])[..|ds|] == ds;
      ds := ds + [node];
    }
  }

  lemma QueueNonEmpty(h: seq<nat>, pos: seq<nat>, len: nat, f: seq<nat>, elems: nat, maxCode: int)
    requires SymbolQueue(h, pos, len, f, elems) && -1 <= maxCode && NoneAfter(f, elems, maxCode)
    ensures len > 0 ==> maxCode >= 0
    ensures maxCode < elems
  {
    if len > 0 {
      assert pos[h[1]] == 1;
    }
  }

  // ---------- Merging ----------

  /** Sub-heaps of increasing lengths: afterwards the whole queue is a heap. */
  method Heapify(s: TreeState, tree: HuffTree, ghost pos0: seq<nat>) returns (ghost pos: seq<nat>)
    requires s.Valid() && tree.Valid() && s.Apart(tree) && s.heapLen >= 2
    requires SymbolQueue(s.heap[..], pos0, s.heapLen, tree.fc[..], tree.desc.elems)
    modifies s.heap
    ensures SymbolQueue(s.heap[..], pos, s.heapLen, tree.fc[..], tree.desc.elems)
    ensures HeapFrom(s.heap[..], tree.fc[..], s.depth[..], pos, s.heapLen, 1)
  {
    DescLimits(tree.desc);
    ghost var f, d := tree.fc[..], s.depth[..];
    pos := pos0;
    var n := s.heapLen / 2;
    while n >= 1
      invariant 0 <= n <= s.heapLen / 2 && tree.fc[..] == f && s.depth[..] == d
      invariant SymbolQueue(s.heap[..], pos, s.heapLen, f, tree.desc.elems)
      invariant HeapFrom(s.heap[..], f, d, pos, s.heapLen, n + 1)
    {
      pos := PqDownHeap(s.heap, s.heapLen, tree.fc, s.depth, n, pos);
      n := n - 1;
    }
  }

  /** The weights waiting in the queue. */
  function Waiting(f: seq<nat>, pos: seq<nat>): (r: seq<int>)
    requires |f| == |pos|
    ensures |r| == |f|
  {
    seq(|f|, x requires 0 <= x < |f| => if pos[x] > 0 then f[x] else 0)
  }

  /** A merge keeps the total weight, so 16 bits suffice for every inner node. */
  lemma WaitingStep(g: Forest, pos: seq<nat>, g': Forest, pos': seq<nat>, t: nat, n: nat, m: nat)
    requires Sized(g) && t + 1 < g.k && |pos| == |g.f| == |pos'| && Step(g, pos, g', pos', t, n, m)
    ensures Sum(Waiting(g'.f, pos')) == Sum(Waiting(g.f, pos))
  {
    WaitingJoined(g.f, pos, g'.f, pos', g.elems + t, n, m);
    SumUpdate3(Waiting(g.f, pos), n, 0, m, 0, g.elems + t, g.f[n] + g.f[m]);
  }

  lemma WaitingJoined(f: seq<nat>, pos: seq<nat>, f': seq<nat>, pos': seq<nat>, node: nat, n: nat, m: nat)
    requires |f| == |pos| == |pos'| && n < |f| && m < |f| && node < |f| && n != m && n != node && m != node
    requires f' == f[node := f[n] + f[m]]
    requires forall x :: 0 <= x < |pos| ==> (pos'[x] > 0 <==> (pos[x] > 0 && x != n && x != m) || x == node)
    requires pos[n] > 0 && pos[m] > 0 && pos[node] == 0
    ensures Waiting(f', pos') == Waiting(f, pos)[n := 0][m := 0][node := f[n] + f[m]]
    ensures Waiting(f, pos)[n] == f[n] && Waiting(f, pos)[m] == f[m] && Waiting(f, pos)[node] == 0
  {
  }

  lemma PairFits(f: seq<nat>, pos: seq<nat>, n: nat, m: nat)
    requires |f| == |pos| && n < |f| && m < |f| && n != m && pos[n] > 0 && pos[m] > 0
    ensures f[n] + f[m] <= Sum(Waiting(f, pos))
  {
    SumTwoMembers(Waiting(f, pos), n, m);
  }

  /** With weights of 16 bits the heights stay well within the 8 bits kept of them. */
  lemma HeightSmall(g: Forest, h: seq<nat>, pos: seq<nat>, t: nat, n: nat)
    requires Merging(g, h, pos, t) && Sum(Waiting(g.f, pos)) < 0x1_0000 && n < |pos| && pos[n] > 0
    ensures |pos| == |g.f| == |g.high| && g.high[n] < 23
  {
    hide Increasing, MergedTo, Positive, Flat, QueueAbove;
    SumMember(Waiting(g.f, pos), n);
    HeightBound(g, t, n);
  }

  /** Only the nodes in the queue matter for its order. */
  lemma HeapFromSame(h: seq<nat>, f: seq<nat>, d: seq<nat>, pos: seq<nat>, len: nat, k: nat,
                     h': seq<nat>, f': seq<nat>, d': seq<nat>)
    requires Indexed(h, pos, len) && |f| == |f'| >= |pos| && |d| == |d'| >= |pos| && HeapFrom(h, f, d, pos, len, k)
    requires |h'| == |h| && forall i :: 0 <= i <= len ==> h'[i] == h[i]
    requires forall x :: 0 <= x < |pos| && pos[x] > 0 ==> f'[x] == f[x] && d'[x] == d[x]
    ensures Indexed(h', pos, len) && HeapFrom(h', f', d', pos, len, k)
  {
  }

  /** The state of the merge loop after t merges, on the arrays. */
  ghost predicate MergeState(s: TreeState, tree: HuffTree, g: Forest, pos: seq<nat>, t: nat)
    reads s, s.heap, s.depth, tree, tree.fc, tree.dl
  {
    && s.Valid() && tree.Valid() && s.Apart(tree) && g.elems == tree.desc.elems
    && g.f == tree.fc[..] && g.dad == tree.dl[..]
    && |g.f| <= HEAP_SIZE && g.high == s.depth[..|g.f|]
    && Merging(g, s.heap[..], pos, t)
    && s.heapLen == g.k - t && s.heapMax == HEAP_SIZE - 2 * t
    && HeapFrom(s.heap[..], tree.fc[..], s.depth[..], pos, s.heapLen, 1)
    && Sum(Waiting(g.f, pos)) < 0x1_0000
  }

  /** pqremove and the replacement of the first node, put together, are one merge step. */
  lemma StepFrom(g: Forest, pos: seq<nat>, pos1: seq<nat>, pos2: seq<nat>, t: nat, n: nat, m: nat)
    requires Sized(g) && t + 1 < g.k && |pos| == |pos1| == |pos2| == |g.f| && |g.out| == 2 * t
    requires Placed(g, pos, t) && n < |pos| && m < |pos|
    requires pos[n] == 1 && pos1[n] == 0 && pos1[m] == 1 && pos2[m] == 0
    requires 1 <= pos2[g.elems + t] <= g.k - t - 1
    requires forall x :: 0 <= x < |pos| && x != n ==>
               pos1[x] == pos[x] || (1 <= pos[x] <= g.k - t && 1 <= pos1[x] <= g.k - t - 1)
    requires forall x :: 0 <= x < |pos| ==> pos1[x] != g.k - t
    requires forall x :: 0 <= x < |pos| && x != g.elems + t && x != m ==>
               pos2[x] == pos1[x] || (1 <= pos1[x] <= g.k - t - 1 && 1 <= pos2[x] <= g.k - t - 1)
    requires forall x :: 0 <= x < |pos| && 1 <= pos[x] <= g.k - t ==> Smaller(g.f, g.high, n, x)
    requires forall x :: 0 <= x < |pos| && 1 <= pos1[x] <= g.k - t - 1 ==> Smaller(g.f, g.high, m, x)
    ensures Step(g, pos, AfterMerge(g, t, n, m), pos2, t, n, m)
  {
    assert !Exists(g, t, g.elems + t);
    assert pos[g.elems + t] == 0;
  }

  ghost function AfterMerge(g: Forest, t: nat, n: nat, m: nat): Forest
    requires Sized(g) && t < g.k && n < |g.f| && m < |g.f|
  {
    var node := g.elems + t;
    g.(f := g.f[node := g.f[n] + g.f[m]],
       high := g.high[node := Taller(g.high[n], g.high[m])],
       dad := g.dad[n := node][m := node],
       out := g.out + [n, m],
       at := g.at[n := |g.out|][m := |g.out| + 1])
  }

  lemma MergeSizes(g: Forest, h: seq<nat>, pos: seq<nat>, t: nat)
    requires Merging(g, h, pos, t)
    ensures Sized(g) && t < g.k && |pos| == |g.f| == |g.high| == |g.dad| == 2 * g.elems + 1 && |g.out| == 2 * t && |h| == HEAP_SIZE
    ensures 2 <= g.k <= g.elems <= 286
    ensures Placed(g, pos, t) && Indexed(h, pos, g.k - t)
    ensures g.elems + t < |pos| && pos[g.elems + t] == 0
  {
    assert !Exists(g, t, g.elems + t);
  }

  /** The two least frequent nodes leave the queue (the second stays at its front for now) and are
      listed. */
  method TakeTwo(s: TreeState, tree: HuffTree, ghost pos: seq<nat>) returns (n: nat, m: nat, ghost pos1: seq<nat>)
    requires s.Valid() && tree.Valid() && s.Apart(tree) && |pos| == tree.fc.Length <= HEAP_SIZE
    requires 2 <= s.heapLen && s.heapLen + 2 < s.heapMax <= HEAP_SIZE
    requires Indexed(s.heap[..], pos, s.heapLen)
    requires HeapFrom(s.heap[..], tree.fc[..], s.depth[..], pos, s.heapLen, 1)
    modifies s`heapLen, s`heapMax, s.heap
    ensures s.heapLen == old(s.heapLen) - 1 && s.heapMax == old(s.heapMax) - 2 && |pos1| == |pos|
    ensures n < |pos| && m < |pos| && pos[n] == 1 && pos1[n] == 0 && pos1[m] == 1
    ensures s.heap[old(s.heapMax) - 1] == n && s.heap[old(s.heapMax) - 2] == m == s.heap[1]
    ensures forall p :: old(s.heapMax) <= p < HEAP_SIZE ==> s.heap[p] == old(s.heap[p])
    ensures Indexed(s.heap[..], pos1, s.heapLen)
    ensures HeapFrom(s.heap[..], tree.fc[..], s.depth[..], pos1, s.heapLen, 1)
    ensures forall x :: 0 <= x < |pos| && x != n ==>
              pos1[x] == pos[x] || (1 <= pos[x] <= old(s.heapLen) && 1 <= pos1[x] <= s.heapLen)
    ensures forall x :: 0 <= x < |pos| ==> pos1[x] != old(s.heapLen)
    ensures forall x :: 0 <= x < |pos| && 1 <= pos[x] <= old(s.heapLen) ==>
              Smaller(tree.fc[..], s.depth[..|pos|], n, x)
    ensures forall x :: 0 <= x < |pos| && 1 <= pos1[x] <= s.heapLen ==>
              Smaller(tree.fc[..], s.depth[..|pos|], m, x)
  {
    hide DescOk, HeapFrom;
    n, pos1 := PqRemove(s.heap, s.heapLen, tree.fc, s.depth, pos);
    s.heapLen := s.heapLen - 1;
    m := s.heap[1];
    ghost var h1 := s.heap[..];
    s.heapMax := s.heapMax - 1;
    s.heap[s.heapMax] := n;
    s.heapMax := s.heapMax - 1;
    s.heap[s.heapMax] := m;
    HeapFromSame(h1, tree.fc[..], s.depth[..], pos1, s.heapLen, 1, s.heap[..], tree.fc[..], s.depth[..]);
  }

  /** Their father takes the front of the queue. */
  method MakeFather(s: TreeState, tree: HuffTree, node: nat, n: nat, m: nat, ghost pos1: seq<nat>)
      returns (ghost pos': seq<nat>)
    requires s.Valid() && tree.Valid() && s.Apart(tree) && |pos1| == tree.fc.Length <= HEAP_SIZE
    requires 1 <= s.heapLen && node < |pos1| && n < |pos1| && m < |pos1| && pos1[node] == 0 && s.heap[1] == m
    requires Indexed(s.heap[..], pos1, s.heapLen)
    requires HeapFrom(s.heap[..], tree.fc[..], s.depth[..], pos1, s.heapLen, 1)
    requires tree.fc[n] + tree.fc[m] < 0x1_0000
    modifies s.heap, s.depth, tree.fc, tree.dl
    ensures tree.fc[..] == old(tree.fc[..])[node := old(tree.fc[n]) + old(tree.fc[m])]
    ensures s.depth[..] == old(s.depth[..])[node := Taller(old(s.depth[n]), old(s.depth[m])) % 0x100]
    ensures tree.dl[..] == old(tree.dl[..])[n := node][m := node]
    ensures |pos'| == |pos1| && Indexed(s.heap[..], pos', s.heapLen)
    ensures HeapFrom(s.heap[..], tree.fc[..], s.depth[..], pos', s.heapLen, 1)
    ensures 1 <= pos'[node] <= s.heapLen && pos'[m] == 0
    ensures forall x :: 0 <= x < |pos1| && x != node && x != m ==>
              pos'[x] == pos1[x] || (1 <= pos1[x] <= s.heapLen && 1 <= pos'[x] <= s.heapLen)
    ensures forall p :: s.heapLen < p < HEAP_SIZE ==> s.heap[p] == old(s.heap[p])
  {
    hide DescOk, HeapFrom;
    ghost var h1, f1, d1 := s.heap[..], tree.fc[..], s.depth[..];
    tree.fc[node] := (tree.fc[n] + tree.fc[m]) % 0x1_0000;
    s.depth[node] := ((if s.depth[n] >= s.depth[m] then s.depth[n] else s.depth[m]) + 1) % 0x100;
    tree.dl[n] := node;
    tree.dl[m] := node;
    HeapFromSame(h1, f1, d1, pos1, s.heapLen, 1, s.heap[..], tree.fc[..], s.depth[..]);
    HeapFromLess(s.heap[..], tree.fc[..], s.depth[..], pos1, s.heapLen);
    pos' := PqReplace(s.heap, s.heapLen, tree.fc, s.depth, node, pos1);
  }

  lemma HeapFromLess(h: seq<nat>, f: seq<nat>, d: seq<nat>, pos: seq<nat>, len: nat)
    requires Indexed(h, pos, len) && |f| >= |pos| && |d| >= |pos| && HeapFrom(h, f, d, pos, len, 1)
    ensures HeapFrom(h, f, d, pos, len, 2)
  {
  }

  /** Merging leaves the frequencies of the symbols alone, and the lengths of those that do not
      occur. */
  ghost predicate SameSymbols(g: Forest, g': Forest)
  {
    && g'.elems == g.elems <= |g.f| == |g'.f| == |g.dad| == |g'.dad| && g'.k == g.k
    && (forall x :: 0 <= x < g.elems ==> g'.f[x] == g.f[x])
    && (forall x :: 0 <= x < g.elems && g.f[x] == 0 ==> g'.dad[x] == g.dad[x])
  }

  lemma StepSameSymbols(g: Forest, pos: seq<nat>, g': Forest, pos': seq<nat>, t: nat, n: nat, m: nat)
    requires Sized(g) && t + 1 < g.k && |pos| == |g.f| == |pos'| && Step(g, pos, g', pos', t, n, m)
    requires Placed(g, pos, t)
    ensures SameSymbols(g, g')
  {
    assert Exists(g, t, n) && Exists(g, t, m);
  }

  /** The state after merging n and m. */
  lemma MergeResult(g: Forest, h: seq<nat>, pos: seq<nat>, pos1: seq<nat>, h': seq<nat>, pos': seq<nat>,
                    t: nat, n: nat, m: nat) returns (g': Forest)
    requires Merging(g, h, pos, t) && t + 1 < g.k && |pos| == |pos1| == |pos'|
    requires n < |pos| && m < |pos| && pos[n] == 1 && pos1[n] == 0 && pos1[m] == 1 && pos'[m] == 0
    requires g.elems + t < |pos'| && 1 <= pos'[g.elems + t] <= g.k - t - 1
    requires forall x :: 0 <= x < |pos| && x != n ==>
               pos1[x] == pos[x] || (1 <= pos[x] <= g.k - t && 1 <= pos1[x] <= g.k - t - 1)
    requires forall x :: 0 <= x < |pos| ==> pos1[x] != g.k - t
    requires forall x :: 0 <= x < |pos| && x != g.elems + t && x != m ==>
               pos'[x] == pos1[x] || (1 <= pos1[x] <= g.k - t - 1 && 1 <= pos'[x] <= g.k - t - 1)
    requires |g.f| == |g.high| == |pos|
    requires forall x :: 0 <= x < |pos| && 1 <= pos[x] <= g.k - t ==> Smaller(g.f, g.high, n, x)
    requires forall x :: 0 <= x < |pos| && 1 <= pos1[x] <= g.k - t - 1 ==> Smaller(g.f, g.high, m, x)
    requires |h'| == HEAP_SIZE && Indexed(h', pos', g.k - (t + 1)) && t <= 284
    requires forall p :: HEAP_SIZE - 2 * t <= p < HEAP_SIZE ==> h'[p] == h[p]
    requires h'[HEAP_SIZE - 1 - 2 * t] == n && h'[HEAP_SIZE - 2 - 2 * t] == m
    ensures |g.dad| == |g.f| && |g'.f| == |pos'|
    ensures g'.high == g.high[g.elems + t := Taller(g.high[n], g.high[m])]
    ensures g'.f == g.f[g.elems + t := g.f[n] + g.f[m]]
    ensures g'.dad == g.dad[n := g.elems + t][m := g.elems + t]
    ensures Merging(g', h', pos', t + 1)
    ensures Sum(Waiting(g'.f, pos')) == Sum(Waiting(g.f, pos))
    ensures SameSymbols(g, g')
  {
    hide Merging, Step, Placed, Sized, Waiting, AfterMerge, Exists, SameSymbols, Indexed;
    MergeSizes(g, h, pos, t);
    g' := AfterMerge(g, t, n, m);
    StepFrom(g, pos, pos1, pos', t, n, m);
    StepKeeps(g, h, pos, g', h', pos', t, n, m);
    WaitingStep(g, pos, g', pos', t, n, m);
    StepSameSymbols(g, pos, g', pos', t, n, m);
    AfterMergeIs(g, t, n, m);
  }

  lemma AfterMergeIs(g: Forest, t: nat, n: nat, m: nat)
    requires Sized(g) && t < g.k && n < |g.f| && m < |g.f|
    ensures var g', node := AfterMerge(g, t, n, m), g.elems + t;
            && g'.elems == g.elems && g'.k == g.k
            && g'.f == g.f[node := g.f[n] + g.f[m]] && g'.high == g.high[node := Taller(g.high[n], g.high[m])]
            && g'.dad == g.dad[n := node][m := node]
  {
  }

  /** Combine the two least frequent nodes of the queue. */
  method MergeOnce(s: TreeState, tree: HuffTree, node: nat, ghost g: Forest, ghost pos: seq<nat>, ghost t: nat)
      returns (ghost g': Forest, ghost pos': seq<nat>)
    requires MergeState(s, tree, g, pos, t) && t + 1 < g.k && node == g.elems + t
    modifies s`heapLen, s`heapMax, s.heap, s.depth, tree.fc, tree.dl
    ensures MergeState(s, tree, g', pos', t + 1)
    ensures SameSymbols(g, g')
  {
    hide Merging, Sized, Placed, DescOk, HeapFrom, Waiting, Indexed, SameSymbols;
    MergeSizes(g, s.heap[..], pos, t);
    ghost var h0 := s.heap[..];
    var n, m;
    ghost var pos1;
    n, m, pos1 := TakeTwo(s, tree, pos);
    PairFits(g.f, pos, n, m);
    HeightSmall(g, h0, pos, t, n);
    HeightSmall(g, h0, pos, t, m);
    pos' := MakeFather(s, tree, node, n, m, pos1);
    g' := MergeResult(g, h0, pos, pos1, s.heap[..], pos', t, n, m);
    SameSizes(g, g');
  }

  lemma SameSizes(g: Forest, g': Forest)
    requires SameSymbols(g, g')
    ensures g'.elems == g.elems && g'.k == g.k
  {
  }

  /** Repeat until one node, the root, is left. */
  method MergeAll(s: TreeState, tree: HuffTree, ghost g0: Forest, ghost pos0: seq<nat>)
      returns (ghost g: Forest, ghost pos: seq<nat>)
    requires MergeState(s, tree, g0, pos0, 0)
    modifies s`heapLen, s`heapMax, s.heap, s.depth, tree.fc, tree.dl
    ensures g.k >= 1 && MergeState(s, tree, g, pos, g.k - 1)
    ensures SameSymbols(g0, g)
  {
    hide Merging, Sized, DescOk, HeapFrom, Waiting, SameSymbols;
    MergeSizes(g0, s.heap[..], pos0, 0);
    var node := tree.desc.elems;
    ghost var t: nat := 0;
    g, pos := g0, pos0;
    SameSymbolsSelf(g0);
    while s.heapLen >= 2
      invariant MergeState(s, tree, g, pos, t) && t < g.k && g.k == g0.k
      invariant node == g.elems + t && SameSymbols(g0, g)
      decreases g.k - t
    {
      ghost var g1 := g;
      g, pos := MergeOnce(s, tree, node, g1, pos, t);
      SameSymbolsTrans(g0, g1, g);
      SameSizes(g1, g);
      MergeSizes(g, s.heap[..], pos, t + 1);
      node := node + 1;
      t := t + 1;
    }
  }

  lemma SameSymbolsSelf(g: Forest)
    requires g.elems <= |g.f| == |g.dad|
    ensures SameSymbols(g, g)
  {
  }

  lemma SameSymbolsTrans(g0: Forest, g1: Forest, g2: Forest)
    requires SameSymbols(g0, g1) && SameSymbols(g1, g2)
    ensures SameSymbols(g0, g2)
  {
  }

  // ---------- The result on the symbols ----------

  lemma TailRooms(lens: seq<nat>, m: nat, limit: nat)
    requires m <= |lens| && forall x :: m <= x < |lens| ==> lens[x] == 0
    ensures Complete(lens, limit) ==> Complete(lens[..m], limit)
  {
    var a, b := lens[..m], lens[m..];
    assert Rooms(lens, limit) == Rooms(a, limit) + Rooms(b, limit);
    SumAppend(Rooms(a, limit), Rooms(b, limit));
    SumZero(Rooms(b, limit));
  }

  lemma TailCounts(bl: seq<nat>, lens: seq<nat>, m: nat)
    requires m <= |lens| && (forall x :: m <= x < |lens| ==> lens[x] == 0) && Counts(bl, lens)
    ensures forall b :: 0 <= b <= MAX_BITS ==> bl[b] == BlCount(lens[..m], b)
  {
    assert lens == lens[..m] + lens[m..];
    forall b | 1 <= b <= MAX_BITS ensures Count(lens, b) == Count(lens[..m], b) {
      CountAppend(lens[..m], lens[m..], b);
      CountNone(lens[m..], b);
    }
  }

  lemma TailCosts(f: seq<nat>, lens: seq<nat>, desc: TreeDesc, m: nat)
    requires |f| == |lens| && m <= |lens| && forall x :: m <= x < |lens| ==> lens[x] == 0
    ensures Sum(BitCosts(f, lens, desc)) == Sum(BitCosts(f[..m], lens[..m], desc))
    ensures Sum(StaticCosts(f, lens, desc)) == Sum(StaticCosts(f[..m], lens[..m], desc))
  {
    var b, st := BitCosts(f, lens, desc), StaticCosts(f, lens, desc);
    assert b == BitCosts(f[..m], lens[..m], desc) + b[m..];
    SumAppend(BitCosts(f[..m], lens[..m], desc), b[m..]);
    SumZero(b[m..]);
    assert st == StaticCosts(f[..m], lens[..m], desc) + st[m..];
    SumAppend(StaticCosts(f[..m], lens[..m], desc), st[m..]);
    SumZero(st[m..]);
  }

  /** The forced symbols, of length 1, cost exactly what was taken off beforehand. */
  lemma {:induction false} DummyCosts(f: seq<nat>, ds: seq<nat>, lens: seq<nat>, desc: TreeDesc)
    requires Dummies(f, ds) && |lens| == |f| && DescOk(desc)
    requires forall i :: 0 <= i < |ds| ==> lens[ds[i]] == 1
    ensures Sum(BitCosts(Forced(f, ds), lens, desc)) == Sum(BitCosts(f, lens, desc)) + |ds|
    ensures Sum(StaticCosts(Forced(f, ds), lens, desc)) == Sum(StaticCosts(f, lens, desc)) + StaticBits(desc, ds)
  {
    if ds != [] {
      var last := |ds| - 1;
      var d, f1 := ds[last], Forced(f, ds[..last]);
      DummyCosts(f, ds[..last], lens, desc);
      ForcedAt(f, ds[..last], d);
      var c := if d < |desc.stree| then desc.stree[d] else 0;
      DummyCost(f1, lens, desc, d, c);
    }
  }

  lemma DummyCost(f: seq<nat>, lens: seq<nat>, desc: TreeDesc, d: nat, c: int)
    requires |f| == |lens| && DescOk(desc) && d < |f| && d <= 2 && f[d] == 0 && lens[d] == 1
    requires c == if d < |desc.stree| then desc.stree[d] else 0
    ensures Sum(BitCosts(f[d := 1], lens, desc)) == Sum(BitCosts(f, lens, desc)) + 1
    ensures Sum(StaticCosts(f[d := 1], lens, desc)) == Sum(StaticCosts(f, lens, desc)) + c
  {
    assert XBits(desc, d) == 0;
    assert BitCosts(f[d := 1], lens, desc) == BitCosts(f, lens, desc)[d := 1];
    SumUpdate(BitCosts(f, lens, desc), d, 1);
    assert StaticCosts(f[d := 1], lens, desc) == StaticCosts(f, lens, desc)[d := c];
    SumUpdate(StaticCosts(f, lens, desc), d, c);
  }

  /** A complete code of two symbols uses one bit for each. */
  lemma TwoCodes(lens: seq<nat>, limit: nat, a: nat, b: nat)
    requires Complete(lens, limit) && a < |lens| && b < |lens| && a != b && lens[a] > 0 && lens[b] > 0
    requires forall x :: 0 <= x < |lens| && x != a && x != b ==> lens[x] == 0
    ensures lens[a] == lens[b] == 1
  {
    var r := Rooms(lens, limit);
    SumUpdate(r, a, 0);
    SumUpdate(r[a := 0], b, 0);
    SumZero(r[a := 0][b := 0]);
    assert r[a] + r[b] == Pow2(limit) == 2 * Pow2(limit - 1);
    Pow2Mono(limit - lens[a], limit - 1);
    Pow2Mono(limit - lens[b], limit - 1);
  }

  lemma TwoSymbols(h: seq<nat>, pos: seq<nat>, f: seq<nat>, elems: nat)
    requires SymbolQueue(h, pos, 2, f, elems)
    ensures h[1] != h[2] && h[1] < elems && h[2] < elems && f[h[1]] > 0 && f[h[2]] > 0
    ensures forall x :: 0 <= x < elems && f[x] > 0 ==> x == h[1] || x == h[2]
  {
    forall x | 0 <= x < elems && f[x] > 0 ensures x == h[1] || x == h[2] {
      assert h[pos[x]] == x;
    }
    assert pos[h[1]] == 1 && pos[h[2]] == 2;
  }

  /** What build_tree promises for symbol frequencies f. ds are the symbols it had to force; codes
      and lens describe the code it built; opt and stat are what it added to opt_len and
      static_len, which no longer shows the forced symbols. */
  ghost predicate Built(f: seq<nat>, desc: TreeDesc, ds: seq<nat>, codes: seq<nat>, lens: seq<nat>, limited: bool,
                        opt: int, stat: int)
  {
    && |f| == desc.elems && 2 <= |lens| <= desc.elems && Dummies(f, ds)
    && (forall x :: |lens| <= x < |f| ==> Forced(f, ds)[x] == 0)
    && (forall x :: 0 <= x < |lens| ==> (lens[x] > 0 <==> Forced(f, ds)[x] > 0))
    && lens[|lens| - 1] > 0
    && Complete(lens, desc.maxLength)
    && CodesFor(codes, lens)
    && opt == Sum(BitCosts(f[..|lens|], lens, desc))
    && stat == Sum(StaticCosts(f[..|lens|], lens, desc))
    && (forall x, y :: 0 <= x < |lens| && 0 <= y < |lens| && 0 < Forced(f, ds)[x] < Forced(f, ds)[y] ==> lens[x] >= lens[y])
    && (!limited ==> OptimalCodes.Optimal(Forced(f, ds)[..|lens|], lens))
  }

  /** lens have the counts gen_bitlen arrives at from the levels of g, cut off at the limit. */
  ghost predicate Shortened(g: Forest, lens: seq<nat>, limit: nat)
    requires Tree(g)
  {
    exists bl :: Repaired(g, limit, bl) && |bl| == MAX_BITS + 1 && forall b :: 0 <= b <= MAX_BITS ==> bl[b] == BlCount(lens, b)
  }

  /** When the length limit made a difference: exactly when the Huffman tree g that was built for the
      frequencies f has a symbol below the limit, exactly when every code of least cost has a codeword
      beyond the limit, and never when the frequencies add up to less than a certain Fibonacci number.
      Otherwise every symbol's length is its level in that tree; with the limit in force the numbers of codes
      of each length come from those levels, cut off at the limit, the longest codes giving way first. */
  ghost predicate Limits(g: Forest, f: seq<nat>, lens: seq<nat>, limit: nat, limited: bool)
  {
    && Tree(g) && g.elems == |f| && g.f[..g.elems] == f
    && (limited <==> Deep(g, limit))
    && (limited <==> !Reachable(f, limit))
    && (limited ==> Shortened(g, lens, limit))
    && (Sum(f) < Fib(limit + 3) ==> !limited)
    && (!limited ==> forall j :: 0 <= j <= 2 * g.k - 2 && g.out[j] < |lens| ==> lens[g.out[j]] == Depth(g, j))
  }

  /** Codes for all places of w, of which only the first m matter, and codes for those. */
  lemma NarrowKraft(w: seq<nat>, m: nat, ls: seq<nat>, l: nat)
    requires m <= |w| && OptimalCodes.Kraft(w, ls, l) && forall x :: m <= x < |w| ==> w[x] == 0
    ensures OptimalCodes.Kraft(w[..m], ls[..m], l)
  {
    var s := OptimalCodes.Shares(w, ls, l);
    assert s == OptimalCodes.Shares(w[..m], ls[..m], l) + s[m..];
    SumAppend(OptimalCodes.Shares(w[..m], ls[..m], l), s[m..]);
    SumZero(s[m..]);
  }

  lemma OptimalWide(w: seq<nat>, m: nat, wide: seq<nat>)
    requires |wide| == |w| && m <= |w| && OptimalCodes.Optimal(w[..m], wide[..m])
    requires forall x :: m <= x < |w| ==> w[x] == 0
    ensures OptimalCodes.Optimal(w, wide)
  {
    forall ls: seq<nat>, l: nat | OptimalCodes.Kraft(w, ls, l)
      ensures OptimalCodes.Cost(w, wide) <= OptimalCodes.Cost(w, ls)
    {
      NarrowKraft(w, m, ls, l);
      WideCost(w, m, wide);
      WideCost(w, m, ls);
    }
  }

  /** A code of least cost within the limit shows that the tree is within it. */
  lemma ReachedShallow(g: Forest, f: seq<nat>, limit: nat)
    requires Tree(g) && g.elems == |f| <= |g.f| && g.f[..g.elems] == f && Reachable(f, limit)
    ensures !Deep(g, limit)
  {
    hide Tree, OptimalCodes.Kraft, OptimalCodes.Optimal, Deep;
    TreeSize(g);
    var w, m := LeafFreqs(g), g.elems;
    var lens :| LeastWithin(f, lens, limit);
    KraftSize(f, lens, limit);
    var wide := lens + seq(|w| - m, i => 0);
    assert wide[..m] == lens && w[..m] == f;
    WideKraft(w, m, lens, wide, limit);
    OptimalWide(w, m, wide);
    Shallowest(g, wide, limit);
  }

  lemma KraftSize(w: seq<nat>, lens: seq<nat>, limit: nat)
    requires OptimalCodes.Kraft(w, lens, limit)
    ensures |lens| == |w|
  {
  }

  /** The lengths of a tree within the limit are a code of least cost within it. */
  lemma ShallowReached(g: Forest, desc: TreeDesc, f: seq<nat>, len: seq<nat>, bl: seq<nat>, opt: int, stat: int)
    requires Tree(g) && Generated(g, desc, len, bl, false, opt, stat)
    requires g.elems == |f| <= |g.f| && g.f[..g.elems] == f
    ensures Reachable(f, desc.maxLength)
  {
    hide Tree, OptimalCodes.Optimal, Complete, Counts, Deep, AtDepth, BitCosts, StaticCosts, Depth, OptimalCodes.Kraft;
    TreeSize(g);
    var w, lens, m := LeafFreqs(g), LeafLens(g, len), g.elems;
    SupportBounded(g, lens, desc.maxLength);
    RoomsShares(w, lens, desc.maxLength);
    NarrowKraft(w, m, lens, desc.maxLength);
    OptimalPart(w, lens, m);
    assert w[..m] == f;
    assert LeastWithin(f, lens[..m], desc.maxLength);
  }

  lemma SupportBounded(g: Forest, lens: seq<nat>, limit: nat)
    requires Sized(g) && |lens| == |g.f| && LengthsFor(g.f, g.elems, lens, limit)
    ensures forall x :: 0 <= x < |g.f| ==> (LeafFreqs(g)[x] > 0 <==> lens[x] > 0) && lens[x] <= limit
    ensures Sum(Rooms(lens, limit)) == Pow2(limit)
  {
  }

  lemma LimitsFrom(g: Forest, desc: TreeDesc, len: seq<nat>, bl: seq<nat>, m: nat, limited: bool, opt: int, stat: int)
    requires Tree(g) && Generated(g, desc, len, bl, limited, opt, stat) && m <= g.elems <= |g.f|
    requires |bl| == MAX_BITS + 1 && m <= |len| && forall b :: 0 <= b <= MAX_BITS ==> bl[b] == BlCount(len[..m], b)
    ensures m <= |len| && Limits(g, g.f[..g.elems], len[..m], desc.maxLength, limited)
  {
    hide Tree, Counts, LeafLens, OptimalCodes.Optimal, Deep, Depth, BitCosts, StaticCosts, Fib, Repaired, BlCount;
    TreePlaces(g);
    var f := g.f[..g.elems];
    if limited {
      DeepWeight(g, desc.maxLength);
    } else {
      ShallowReached(g, desc, f, len, bl, opt, stat);
    }
    if Reachable(f, desc.maxLength) {
      ReachedShallow(g, f, desc.maxLength);
    }
  }

  // ---------- Putting build_tree together ----------

  ghost predicate OnlyTwo(f: seq<nat>, elems: nat, a: nat, b: nat)
  {
    && elems <= |f| && a != b && a < elems && b < elems && f[a] > 0 && f[b] > 0
    && forall x :: 0 <= x < elems && f[x] > 0 ==> x == a || x == b
  }

  /** The forest before the first merge. */
  lemma FirstForest(h: seq<nat>, pos: seq<nat>, f: seq<nat>, d: seq<nat>, dl: seq<nat>, elems: nat, k: nat)
      returns (g: Forest)
    requires |h| == HEAP_SIZE && |f| == |dl| == 2 * elems + 1 <= |d| && 2 <= k <= elems <= 286
    requires SymbolQueue(h, pos, k, f, elems) && AtBottom(f, d, elems)
    ensures g == Forest(f, d[..|f|], dl, [], g.at, elems, k)
    ensures Merging(g, h, pos, 0)
  {
    g := Forest(f, d[..|f|], dl, [], seq(2 * elems + 1, x => 0), elems, k);
    forall x | 0 <= x < |pos| ensures pos[x] > 0 <==> Exists(g, 0, x) {
    }
  }

  /** Forcing adds at most two to the total frequency. */
  lemma {:induction false} WaitingSum(f: seq<nat>, ds: seq<nat>, elems: nat, pos: seq<nat>, h: seq<nat>, len: nat)
    requires Dummies(f, ds) && elems <= |f| && 3 <= elems && SymbolQueue(h, pos, len, Forced(f, ds), elems)
    ensures Sum(Waiting(Forced(f, ds), pos)) == Sum(f[..elems]) + |ds|
  {
    var w, a := Waiting(Forced(f, ds), pos), Forced(f, ds)[..elems];
    assert w == a + w[elems..];
    SumAppend(a, w[elems..]);
    SumZero(w[elems..]);
    ForcedSum(f, ds, elems);
  }

  lemma {:induction false} ForcedSum(f: seq<nat>, ds: seq<nat>, elems: nat)
    requires Dummies(f, ds) && 3 <= elems <= |f|
    ensures Sum(Forced(f, ds)[..elems]) == Sum(f[..elems]) + |ds|
  {
    if ds != [] {
      var last := |ds| - 1;
      var d, f1 := ds[last], Forced(f, ds[..last]);
      ForcedSum(f, ds[..last], elems);
      ForcedAt(f, ds[..last], d);
      assert f1[d := 1][..elems] == f1[..elems][d := 1];
      SumUpdate(f1[..elems], d, 1);
    }
  }

  lemma {:induction false} ForcedPrefix(f: seq<nat>, ds: seq<nat>, elems: nat)
    requires 3 <= elems <= |f| && (Dummies(f, ds) || Dummies(f[..elems], ds))
    ensures Dummies(f, ds) && Dummies(f[..elems], ds)
    ensures Forced(f, ds)[..elems] == Forced(f[..elems], ds)
  {
    forall x | 0 <= x < elems ensures Forced(f, ds)[x] == Forced(f[..elems], ds)[x] {
      ForcedAt(f, ds, x);
      ForcedAt(f[..elems], ds, x);
    }
  }

  /** Queue, forced symbols and heap: everything before the first merge. */
  method StartMerging(s: TreeState, tree: HuffTree)
      returns (ghost g: Forest, ghost pos: seq<nat>, ghost ds: seq<nat>, ghost a: nat, ghost b: nat)
    requires s.Valid() && tree.Valid() && s.Apart(tree)
    requires Sum(tree.fc[..tree.desc.elems]) + 2 < 0x1_0000
    modifies s, s.heap, s.depth, tree`maxCode, tree.fc, tree.dl
    ensures MergeState(s, tree, g, pos, 0) && unchanged(s.blCount)
    ensures Dummies(old(tree.fc[..]), ds) && tree.fc[..] == Forced(old(tree.fc[..]), ds)
    ensures 0 <= tree.maxCode < tree.desc.elems && NoneAfter(tree.fc[..], tree.desc.elems, tree.maxCode)
    ensures tree.fc[tree.maxCode] > 0
    ensures forall x :: 0 <= x < tree.desc.elems && tree.fc[x] == 0 ==> tree.dl[x] == 0
    ensures ds != [] ==> OnlyTwo(tree.fc[..], tree.desc.elems, a, b)
    ensures s.optLen == old(s.optLen) - |ds|
    ensures s.staticLen == old(s.staticLen) - StaticBits(tree.desc, ds)
  {
    hide DescOk, SymbolQueue, AtBottom, NoneAfter, Merging, HeapFrom, Waiting, Dummies, Forced, StaticBits;
    DescLimits(tree.desc);
    ghost var f0 := tree.fc[..];
    pos := InitHeap(s, tree);
    pos, ds := ForceTwo(s, tree, pos);
    a, b := s.heap[1], s.heap[2];
    if ds != [] {
      TwoSymbols(s.heap[..], pos, tree.fc[..], tree.desc.elems);
    }
    DummiesFew(f0, ds, s.heap[..], pos, s.heapLen, tree.desc.elems);
    ForcedZero(f0, ds);
    pos := Heapify(s, tree, pos);
    g := FirstForest(s.heap[..], pos, tree.fc[..], s.depth[..], tree.dl[..], tree.desc.elems, s.heapLen);
    WaitingSum(f0, ds, tree.desc.elems, pos, s.heap[..], s.heapLen);
  }

  lemma DummiesFew(f: seq<nat>, ds: seq<nat>, h: seq<nat>, pos: seq<nat>, len: nat, elems: nat)
    requires Dummies(f, ds) && SymbolQueue(h, pos, len, Forced(f, ds), elems) && 3 <= elems
    requires ds != [] ==> len == 2
    ensures |ds| <= 2
  {
    if |ds| >= 3 {
      ForcedAt(f, ds, ds[0]);
      ForcedAt(f, ds, ds[1]);
      ForcedAt(f, ds, ds[2]);
      TwoSymbols(h, pos, Forced(f, ds), elems);
    }
  }

  lemma ForcedZero(f: seq<nat>, ds: seq<nat>)
    requires Dummies(f, ds)
    ensures forall x :: 0 <= x < |f| && Forced(f, ds)[x] == 0 ==> f[x] == 0
  {
    forall x | 0 <= x < |f| && Forced(f, ds)[x] == 0 ensures f[x] == 0 {
      ForcedAt(f, ds, x);
    }
  }

  /** List the root, which finishes the tree. */
  method ListRoot(s: TreeState, tree: HuffTree, ghost g: Forest, ghost pos: seq<nat>) returns (ghost g': Forest)
    requires g.k >= 1 && MergeState(s, tree, g, pos, g.k - 1)
    modifies s`heapMax, s.heap
    ensures OnArrays(g', s, tree) && g'.dad == g.dad == tree.dl[..] && g'.f == g.f && g'.elems == g.elems && g'.k == g.k
  {
    hide Merging, DescOk, HeapFrom, Waiting, Tree;
    MergeSizes(g, s.heap[..], pos, g.k - 1);
    OnHeapList(g, s.heap[..], pos, g.k - 1);
    LastIsRoot(g, s.heap[..], pos);
    g' := g.(out := g.out + [s.heap[1]], at := g.at[s.heap[1] := |g.out|]);
    s.heapMax := s.heapMax - 1;
    s.heap[s.heapMax] := s.heap[1];
  }

  lemma OnHeapList(g: Forest, h: seq<nat>, pos: seq<nat>, t: nat)
    requires Merging(g, h, pos, t)
    ensures |h| == HEAP_SIZE && |g.out| == 2 * t && t <= 285
    ensures forall i :: 0 <= i < 2 * t ==> h[HEAP_SIZE - 1 - i] == g.out[i]
    ensures h[1] < |g.at|
  {
    assert pos[h[1]] == 1;
  }

  // ---------- From the arrays to the symbols ----------

  /** The lengths found in tree.dl are those of the symbols that occur, 0 for the others. */
  lemma LensFromDl(g: Forest, len: seq<nat>, maxCode: nat)
    requires Tree(g) && |len| == |g.f| && maxCode < g.elems && NoneAfter(g.f, g.elems, maxCode)
    requires forall x :: 0 <= x < g.elems && g.f[x] == 0 ==> len[x] == 0
    ensures LeafLens(g, len)[..maxCode + 1] == len[..maxCode + 1]
    ensures forall x :: maxCode + 1 <= x < |len| ==> LeafLens(g, len)[x] == 0
  {
  }

  lemma OptimalPart(w: seq<nat>, lens: seq<nat>, m: nat)
    requires |w| == |lens| && m <= |w| && OptimalCodes.Optimal(w, lens)
    requires forall x :: m <= x < |w| ==> w[x] == 0
    ensures OptimalCodes.Optimal(w[..m], lens[..m])
  {
    forall ls: seq<nat>, l: nat | OptimalCodes.Kraft(w[..m], ls, l)
      ensures OptimalCodes.Cost(w[..m], lens[..m]) <= OptimalCodes.Cost(w[..m], ls)
    {
      var wide := ls + seq(|w| - m, i => 0);
      WideKraft(w, m, ls, wide, l);
      assert wide[..m] == ls;
      WideCost(w, m, wide);
      WideCost(w, m, lens);
    }
  }

  lemma WideKraft(w: seq<nat>, m: nat, ls: seq<nat>, wide: seq<nat>, l: nat)
    requires m <= |w| && OptimalCodes.Kraft(w[..m], ls, l) && (forall x :: m <= x < |w| ==> w[x] == 0)
    requires |wide| == |w| && wide[..m] == ls
    ensures OptimalCodes.Kraft(w, wide, l)
  {
    var s := OptimalCodes.Shares(w, wide, l);
    assert s == OptimalCodes.Shares(w[..m], ls, l) + s[m..];
    SumAppend(OptimalCodes.Shares(w[..m], ls, l), s[m..]);
    SumZero(s[m..]);
    forall i | 0 <= i < |w| && w[i] > 0 ensures wide[i] <= l {
      assert wide[i] == wide[..m][i] && w[i] == w[..m][i];
    }
  }

  lemma WideCost(w: seq<nat>, m: nat, ls: seq<nat>)
    requires |ls| == |w| && m <= |w| && forall x :: m <= x < |w| ==> w[x] == 0
    ensures OptimalCodes.Cost(w, ls) == OptimalCodes.Cost(w[..m], ls[..m])
  {
    var c := OptimalCodes.Weighted(w, ls);
    assert c == OptimalCodes.Weighted(w[..m], ls[..m]) + c[m..];
    SumAppend(OptimalCodes.Weighted(w[..m], ls[..m]), c[m..]);
    SumZero(c[m..]);
  }

  /** The forced symbols got codes of one bit. */
  lemma DummyLens(g: Forest, f: seq<nat>, ds: seq<nat>, a: nat, b: nat, lens: seq<nat>, limit: nat)
    requires Dummies(f, ds) && |f| == g.elems <= |g.f| && g.f[..g.elems] == Forced(f, ds)
    requires ds != [] ==> OnlyTwo(g.f, g.elems, a, b)
    requires LengthsFor(g.f, g.elems, lens, limit)
    ensures forall i :: 0 <= i < |ds| ==> lens[ds[i]] == 1
  {
    hide Complete, Dummies, Forced;
    if ds != [] {
      TwoCodes(lens, limit, a, b);
      DummiesOccur(f, ds);
      forall i | 0 <= i < |ds| ensures lens[ds[i]] == 1 {
        assert g.f[..g.elems][ds[i]] == 1;
        assert g.f[ds[i]] == 1;
      }
    }
  }

  lemma DummiesOccur(f: seq<nat>, ds: seq<nat>)
    requires Dummies(f, ds)
    ensures forall i :: 0 <= i < |ds| ==> ds[i] < |f| && Forced(f, ds)[ds[i]] == 1
  {
    forall i | 0 <= i < |ds| ensures Forced(f, ds)[ds[i]] == 1 {
      ForcedAt(f, ds, ds[i]);
    }
  }

  /** The bits counted, without those of the forced symbols. */
  lemma BuiltCosts(g: Forest, desc: TreeDesc, f: seq<nat>, ds: seq<nat>, lens: seq<nat>, m: nat)
    requires Dummies(f, ds) && DescOk(desc) && |f| == g.elems <= |g.f| == |lens| && m <= g.elems
    requires g.f[..g.elems] == Forced(f, ds)
    requires forall x :: m <= x < |lens| ==> lens[x] == 0
    requires forall i :: 0 <= i < |ds| ==> lens[ds[i]] == 1
    ensures Sum(BitCosts(g.f, lens, desc)) == Sum(BitCosts(f[..m], lens[..m], desc)) + |ds|
    ensures Sum(StaticCosts(g.f, lens, desc)) == Sum(StaticCosts(f[..m], lens[..m], desc)) + StaticBits(desc, ds)
  {
    hide BitCosts, StaticCosts, DescOk, Forced, StaticBits;
    var part := lens[..g.elems];
    TailCosts(g.f, lens, desc, g.elems);
    DummyCosts(f, ds, part, desc);
    TailCosts(f, part, desc, m);
    assert part[..m] == lens[..m];
  }

  lemma BuiltSupport(g: Forest, f: seq<nat>, ds: seq<nat>, lens: seq<nat>, m: nat, limit: nat)
    requires Dummies(f, ds) && |f| == g.elems <= |g.f| && m <= g.elems && g.f[..g.elems] == Forced(f, ds)
    requires LengthsFor(g.f, g.elems, lens, limit) && (forall x :: m <= x < |lens| ==> lens[x] == 0)
    ensures forall x :: m <= x < |f| ==> Forced(f, ds)[x] == 0
    ensures forall x :: 0 <= x < m ==> (lens[x] > 0 <==> Forced(f, ds)[x] > 0)
    ensures forall x, y :: 0 <= x < m && 0 <= y < m && 0 < Forced(f, ds)[x] < Forced(f, ds)[y] ==> lens[x] >= lens[y]
  {
    hide Complete, Forced;
    var w := Forced(f, ds);
    assert forall x :: 0 <= x < g.elems ==> w[x] == g.f[x];
  }

  /** A complete code has at least two symbols. */
  lemma TwoLengths(lens: seq<nat>, limit: nat)
    requires Complete(lens, limit) && limit > 0
    ensures |lens| >= 2
  {
    if |lens| == 1 {
      assert Rooms(lens, limit) == [Room(lens[0], limit)];
      assert Sum([Room(lens[0], limit)]) == Room(lens[0], limit);
      Pow2Mono(0, limit);
      if 0 < lens[0] <= limit {
        Pow2Mono(limit - lens[0], limit);
      }
    }
  }

  lemma BuiltOptimal(g: Forest, w: seq<nat>, lens: seq<nat>, m: nat)
    requires Sized(g) && m <= g.elems && w == g.f[..g.elems]
    requires |lens| == |g.f| && OptimalCodes.Optimal(LeafFreqs(g), lens) && forall x :: m <= x < g.elems ==> w[x] == 0
    ensures OptimalCodes.Optimal(w[..m], lens[..m])
  {
    hide OptimalCodes.Optimal;
    OptimalPart(LeafFreqs(g), lens, m);
    assert LeafFreqs(g)[..m] == w[..m];
  }

  lemma GeneratedIs(g: Forest, desc: TreeDesc, len: seq<nat>, bl: seq<nat>, limited: bool, opt: int, stat: int)
    requires Tree(g) && Generated(g, desc, len, bl, limited, opt, stat)
    ensures Sized(g) && |len| == |g.f| && LengthsFor(g.f, g.elems, LeafLens(g, len), desc.maxLength)
    ensures Complete(LeafLens(g, len), desc.maxLength) && Counts(bl, LeafLens(g, len))
    ensures opt == Sum(BitCosts(g.f, LeafLens(g, len), desc))
    ensures stat == Sum(StaticCosts(g.f, LeafLens(g, len), desc))
    ensures !limited ==> OptimalCodes.Optimal(LeafFreqs(g), LeafLens(g, len))
  {
    hide Tree, Complete, Counts, LeafLens, OptimalCodes.Optimal;
    TreeSize(g);
  }

  /** What gen_codes needs. */
  lemma ReadyForCodes(g: Forest, desc: TreeDesc, len: seq<nat>, bl: seq<nat>, maxCode: nat, limited: bool, opt: int, stat: int)
    requires Tree(g) && DescOk(desc) && desc.elems == g.elems && maxCode < g.elems && NoneAfter(g.f, g.elems, maxCode)
    requires Generated(g, desc, len, bl, limited, opt, stat)
    requires forall x :: 0 <= x < g.elems && g.f[x] == 0 ==> len[x] == 0
    ensures maxCode + 1 <= |len| && Complete(len[..maxCode + 1], desc.maxLength) && Complete(len[..maxCode + 1], MAX_BITS)
    ensures |bl| == MAX_BITS + 1 && forall b :: 0 <= b <= MAX_BITS ==> bl[b] == BlCount(len[..maxCode + 1], b)
    ensures LeafLens(g, len)[..maxCode + 1] == len[..maxCode + 1]
    ensures forall x :: maxCode + 1 <= x < |len| ==> LeafLens(g, len)[x] == 0
  {
    hide Tree, Complete, Generated, LengthsFor, DescOk, LeafLens, NoneAfter;
    GeneratedIs(g, desc, len, bl, limited, opt, stat);
    DescLimits(desc);
    LensFromDl(g, len, maxCode);
    TailRooms(LeafLens(g, len), maxCode + 1, desc.maxLength);
    TailCounts(bl, LeafLens(g, len), maxCode + 1);
    CompleteWide(len[..maxCode + 1], desc.maxLength);
  }

  /** From what gen_bitlen establishes on nodes to what build_tree promises about symbols. */
  lemma BuiltFrom(g: Forest, desc: TreeDesc, f: seq<nat>, ds: seq<nat>, a: nat, b: nat, len: seq<nat>, bl: seq<nat>,
                  maxCode: nat, codes: seq<nat>, limited: bool, opt: int, stat: int)
    requires Tree(g) && DescOk(desc) && desc.elems == g.elems == |f| && maxCode < g.elems <= |g.f|
    requires Generated(g, desc, len, bl, limited, opt, stat)
    requires NoneAfter(g.f, g.elems, maxCode) && g.f[maxCode] > 0
    requires Dummies(f, ds) && g.f[..g.elems] == Forced(f, ds)
    requires ds != [] ==> OnlyTwo(g.f, g.elems, a, b)
    requires forall x :: 0 <= x < g.elems && g.f[x] == 0 ==> len[x] == 0
    requires maxCode < |len| && CodesFor(codes, len[..maxCode + 1])
    ensures Built(f, desc, ds, codes, len[..maxCode + 1], limited, opt - |ds|, stat - StaticBits(desc, ds))
  {
    hide Tree, Complete, Generated, LengthsFor, DescOk, LeafLens, NoneAfter, OptimalCodes.Optimal, CodesFor, BitCosts, StaticCosts,
         Forced, Dummies, StaticBits, OnlyTwo, LeafFreqs, Counts;
    GeneratedIs(g, desc, len, bl, limited, opt, stat);
    DescLimits(desc);
    ReadyForCodes(g, desc, len, bl, maxCode, limited, opt, stat);
    var lens, m := LeafLens(g, len), maxCode + 1;
    TwoLengths(len[..m], desc.maxLength);
    DummyLens(g, f, ds, a, b, lens, desc.maxLength);
    DummiesOccur(f, ds);
    BuiltCosts(g, desc, f, ds, lens, m);
    BuiltSupport(g, f, ds, lens, m, desc.maxLength);
    assert Forced(f, ds)[maxCode] > 0 by {
      assert g.f[..g.elems][maxCode] == g.f[maxCode];
    }
    assert forall x :: 0 <= x < m ==> lens[x] == len[..m][x];
    if !limited {
      BuiltOptimal(g, Forced(f, ds), lens, m);
    }
  }

  /** From the frequencies to the finished tree. */
  method MakeTree(s: TreeState, tree: HuffTree)
      returns (ghost g: Forest, ghost ds: seq<nat>, ghost a: nat, ghost b: nat)
    requires s.Valid() && tree.Valid() && s.Apart(tree)
    requires Sum(tree.fc[..tree.desc.elems]) + 2 < 0x1_0000
    modifies s, s.heap, s.depth, tree`maxCode, tree.fc, tree.dl
    ensures OnArrays(g, s, tree) && g.dad == tree.dl[..] && g.elems == tree.desc.elems
    ensures 0 <= tree.maxCode < g.elems <= |g.f| && NoneAfter(g.f, g.elems, tree.maxCode) && g.f[tree.maxCode] > 0
    ensures Dummies(old(tree.fc[..tree.desc.elems]), ds)
    ensures g.f[..g.elems] == Forced(old(tree.fc[..tree.desc.elems]), ds)
    ensures ds != [] ==> OnlyTwo(g.f, g.elems, a, b)
    ensures forall x :: 0 <= x < g.elems && g.f[x] == 0 ==> !Listed(g, x) && g.dad[x] == 0
    ensures s.optLen == old(s.optLen) - |ds|
    ensures s.staticLen == old(s.staticLen) - StaticBits(tree.desc, ds)
  {
    hide DescOk, NoneAfter, Dummies, Forced, StaticBits, Tree, Merging, HeapFrom, Waiting, OnlyTwo, Listed, SameSymbols;
    DescLimits(tree.desc);
    ghost var f := tree.fc[..];
    ghost var g0, g1, pos;
    g0, pos, ds, a, b := StartMerging(s, tree);
    MergeSizes(g0, s.heap[..], pos, 0);
    g1, pos := MergeAll(s, tree, g0, pos);
    g := ListRoot(s, tree, g1, pos);
    SymbolsKept(g0, g1, g, f, ds, tree.maxCode, a, b);
    assert f[..g.elems] == old(tree.fc[..tree.desc.elems]);
  }

  /** The tree and its code lengths; opt and stat are the bits counted, forced symbols included. */
  method MakeLengths(s: TreeState, tree: HuffTree)
      returns (limited: bool, ghost g: Forest, ghost ds: seq<nat>, ghost a: nat, ghost b: nat, ghost opt: int, ghost stat: int)
    requires s.Valid() && tree.Valid() && s.Apart(tree)
    requires Sum(tree.fc[..tree.desc.elems]) + 2 < 0x1_0000
    modifies s, s.heap, s.depth, s.blCount, tree`maxCode, tree.fc, tree.dl
    ensures Tree(g) && g.elems == tree.desc.elems <= |g.f|
    ensures 0 <= tree.maxCode < g.elems && NoneAfter(g.f, g.elems, tree.maxCode) && g.f[tree.maxCode] > 0
    ensures Dummies(old(tree.fc[..tree.desc.elems]), ds)
    ensures g.f[..g.elems] == Forced(old(tree.fc[..tree.desc.elems]), ds)
    ensures ds != [] ==> OnlyTwo(g.f, g.elems, a, b)
    ensures Generated(g, tree.desc, tree.dl[..], s.blCount[..], limited, opt, stat)
    ensures forall x :: 0 <= x < g.elems && g.f[x] == 0 ==> tree.dl[x] == 0
    ensures s.optLen == old(s.optLen) - |ds| + opt
    ensures s.staticLen == old(s.staticLen) - StaticBits(tree.desc, ds) + stat
  {
    hide DescOk, NoneAfter, Dummies, Forced, StaticBits, Generated, Tree, OnlyTwo, Listed;
    g, ds, a, b := MakeTree(s, tree);
    ghost var o, st := s.optLen, s.staticLen;
    limited := GenBitlen.GenBitlen(s, tree, g);
    opt, stat := s.optLen - o, s.staticLen - st;
  }

  /** Construct one Huffman tree and assign the code bit strings and lengths; update the total bit
      lengths for the current block. ds are the symbols that had to be forced, g is the tree
      built, and limited says whether the length limit made a difference. */
  method BuildTree(s: TreeState, tree: HuffTree) returns (limited: bool, ghost ds: seq<nat>, ghost g: Forest)
    requires s.Valid() && tree.Valid() && s.Apart(tree)
    requires Sum(tree.fc[..tree.desc.elems]) + 2 < 0x1_0000
    modifies s, s.heap, s.depth, s.blCount, tree`maxCode, tree.fc, tree.dl
    ensures 1 <= tree.maxCode < tree.desc.elems
    ensures forall x :: tree.maxCode < x < tree.desc.elems ==> tree.dl[x] == 0
    ensures Built(old(tree.fc[..tree.desc.elems]), tree.desc, ds, tree.fc[..], tree.dl[..tree.maxCode + 1], limited,
                  s.optLen - old(s.optLen), s.staticLen - old(s.staticLen))
    ensures Dummies(old(tree.fc[..tree.desc.elems]), ds)
    ensures Limits(g, Forced(old(tree.fc[..tree.desc.elems]), ds), tree.dl[..tree.maxCode + 1], tree.desc.maxLength, limited)
  {
    hide DescOk, NoneAfter, Dummies, Forced, StaticBits, Generated, Tree, Complete, CodesFor, Built, OnlyTwo, BlCount, Limits;
    DescLimits(tree.desc);
    ghost var f := tree.fc[..tree.desc.elems];
    ghost var a, b, opt, stat;
    limited, g, ds, a, b, opt, stat := MakeLengths(s, tree);
    ghost var len, lens := tree.dl[..], tree.dl[..tree.maxCode + 1];
    assert len[..tree.maxCode + 1] == lens;
    ReadyForCodes(g, tree.desc, len, s.blCount[..], tree.maxCode, limited, opt, stat);
    LimitsFrom(g, tree.desc, len, s.blCount[..], tree.maxCode + 1, limited, opt, stat);
    NoneAfterIs(g.f, g.elems, tree.maxCode);
    GenCodes.GenCodes(tree.fc, tree.dl, tree.maxCode, s.blCount);
    BuiltFrom(g, tree.desc, f, ds, a, b, len, s.blCount[..], tree.maxCode, tree.fc[..], limited, opt, stat);
    BuiltSize(f, tree.desc, ds, tree.fc[..], lens, limited, opt - |ds|, stat - StaticBits(tree.desc, ds));
  }

  lemma NoneAfterIs(f: seq<nat>, elems: nat, maxCode: int)
    requires NoneAfter(f, elems, maxCode)
    ensures elems <= |f| && forall x :: 0 <= x < elems && x > maxCode ==> f[x] == 0
  {
  }

  lemma BuiltSize(f: seq<nat>, desc: TreeDesc, ds: seq<nat>, codes: seq<nat>, lens: seq<nat>, limited: bool,
                  opt: int, stat: int)
    requires Built(f, desc, ds, codes, lens, limited, opt, stat)
    ensures 2 <= |lens| <= desc.elems
  {
  }

  lemma SymbolsKept(g0: Forest, g1: Forest, g: Forest, f: seq<nat>, ds: seq<nat>, maxCode: nat, a: nat, b: nat)
    requires Tree(g) && 3 <= g0.elems == g.elems && SameSymbols(g0, g1) && maxCode < g.elems <= |f|
    requires g.f == g1.f && g.dad == g1.dad && g.elems == g1.elems && g.k == g1.k
    requires Dummies(f, ds) && g0.f == Forced(f, ds) && NoneAfter(g0.f, g0.elems, maxCode) && g0.f[maxCode] > 0
    requires ds != [] ==> OnlyTwo(g0.f, g0.elems, a, b)
    requires forall x :: 0 <= x < g0.elems && g0.f[x] == 0 ==> g0.dad[x] == 0
    ensures NoneAfter(g.f, g.elems, maxCode) && |g.f| > maxCode && g.f[maxCode] > 0
    ensures |g.f| == |f| && Dummies(f[..g.elems], ds) && g.f[..g.elems] == Forced(f[..g.elems], ds)
    ensures ds != [] ==> OnlyTwo(g.f, g.elems, a, b)
    ensures forall x :: 0 <= x < g.elems && g.f[x] == 0 ==> !Listed(g, x) && g.dad[x] == 0
  {
    ForcedPrefix(f, ds, g.elems);
    forall x | 0 <= x < g.elems && g.f[x] == 0 ensures !Listed(g, x) {
      ListedExists(g, x);
    }
  }
}
