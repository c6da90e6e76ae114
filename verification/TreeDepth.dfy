/** How deep the leaves of a finished tree lie, and how much they must weigh for that. */
module TreeDepth {
  import opened Sums
  import opened HuffmanCode
  import opened TreeOrder
  import opened TreeLengths

  /** The place of the father of the node listed at place j. */
  ghost function FatherPlace(g: Forest, j: nat): (p: nat)
    requires Tree(g) && j < 2 * g.k - 2
    ensures j < p <= 2 * g.k - 2 && g.out[p] == g.elems + j / 2
  {
    PairListed(g, j / 2);
    assert j == 2 * (j / 2) || j == 2 * (j / 2) + 1;
    g.at[g.elems + j / 2]
  }

  /** The level of the node listed at place j; the root is at level 0. */
  ghost function Depth(g: Forest, j: nat): nat
    requires Tree(g) && j <= 2 * g.k - 2
    decreases 2 * g.k - 2 - j
  {
    if j == 2 * g.k - 2 then 0 else Depth(g, FatherPlace(g, j)) + 1
  }

  /** Some symbol lies below the limit. */
  ghost predicate Deep(g: Forest, limit: nat)
    requires Tree(g)
  {
    exists j :: DeepLeaf(g, limit, j)
  }

  ghost predicate DeepLeaf(g: Forest, limit: nat, j: int)
    requires Tree(g)
  {
    0 <= j <= 2 * g.k - 2 && g.out[j] < g.elems && Depth(g, j) > limit
  }

  // ----- lengths cut off at the limit

  lemma {:induction false} CutDepth(g: Forest, len: seq<nat>, limit: nat, j: nat)
    requires Tree(g) && LensOk(g, len, limit) && j <= 2 * g.k - 2
    ensures len[g.out[j]] == if Depth(g, j) < limit then Depth(g, j) else limit
    decreases 2 * g.k - 2 - j
  {
    hide Tree;
    TreePlaces(g);
    if j < 2 * g.k - 2 {
      CutDepth(g, len, limit, FatherPlace(g, j));
      assert PairLens(g, len, limit, j / 2);
      assert j == 2 * (j / 2) || j == 2 * (j / 2) + 1;
    } else {
      RootLast(g);
    }
  }

  lemma TreePlaces(g: Forest)
    requires Tree(g)
    ensures Sized(g) && |g.out| == 2 * g.k - 1 && forall i :: 0 <= i < |g.out| ==> g.out[i] < |g.f|
  {
  }

  lemma RootLast(g: Forest)
    requires Tree(g)
    ensures g.out[2 * g.k - 2] == Root(g)
  {
  }

  /** Below every node there is a leaf, at least as deep. */
  lemma {:induction false} LeafBelow(g: Forest, j: nat) returns (l: nat)
    requires Tree(g) && j <= 2 * g.k - 2
    ensures l <= j && g.out[l] < g.elems && Depth(g, l) >= Depth(g, j)
    decreases j
  {
    l := j;
    if g.out[j] >= g.elems {
      var s := g.out[j] - g.elems;
      InnerNode(g, j);
      PairListed(g, s);
      assert FatherPlace(g, 2 * s) == j;
      l := LeafBelow(g, 2 * s);
    }
  }

  lemma InnerNode(g: Forest, j: nat)
    requires Tree(g) && j <= 2 * g.k - 2 && g.out[j] >= g.elems
    ensures g.out[j] - g.elems < g.k - 1
    ensures 2 * (g.out[j] - g.elems) < j && g.at[g.out[j]] == j
  {
    assert Exists(g, g.k - 1, g.out[j]);
    PairListed(g, g.out[j] - g.elems);
  }

  ghost predicate AtLimit(g: Forest, len: seq<nat>, limit: nat, s: int)
    requires Tree(g) && |len| == |g.f|
  {
    0 <= s < g.k - 1 && len[g.elems + s] == limit
  }

  /** Fathers at the limit are counted exactly when some leaf is cut off. */
  lemma {:induction false} OverflowAt(g: Forest, len: seq<nat>, limit: nat, t: nat)
    requires Tree(g) && |len| == |g.f| && t < g.k
    ensures Overflows(g, len, limit, t) > 0 <==> exists s :: t <= s && AtLimit(g, len, limit, s)
    decreases g.k - t
  {
    if t < g.k - 1 {
      OverflowAt(g, len, limit, t + 1);
      assert len[g.elems + t] == limit ==> AtLimit(g, len, limit, t);
    }
  }

  lemma OverflowDeep(g: Forest, len: seq<nat>, limit: nat)
    requires Tree(g) && LensOk(g, len, limit)
    ensures Overflows(g, len, limit, 0) > 0 <==> Deep(g, limit)
  {
    hide Tree, LensOk;
    LensSized(g, len, limit);
    OverflowAt(g, len, limit, 0);
    if s: int :| 0 <= s && AtLimit(g, len, limit, s) {
      LimitDeep(g, len, limit, s);
    }
    if j :| DeepLeaf(g, limit, j) {
      DeepLimit(g, len, limit, j);
    }
  }

  lemma LimitDeep(g: Forest, len: seq<nat>, limit: nat, s: nat)
    requires Tree(g) && LensOk(g, len, limit) && AtLimit(g, len, limit, s)
    ensures Deep(g, limit)
  {
    hide Tree, LensOk;
    LensSized(g, len, limit);
    CutDepth(g, len, limit, FatherPlace(g, 2 * s));
    var l := LeafBelow(g, 2 * s);
    assert DeepLeaf(g, limit, l);
  }

  lemma DeepLimit(g: Forest, len: seq<nat>, limit: nat, j: int)
    requires Tree(g) && LensOk(g, len, limit) && DeepLeaf(g, limit, j)
    ensures AtLimit(g, len, limit, j / 2)
  {
    hide Tree, LensOk;
    LensSized(g, len, limit);
    CutDepth(g, len, limit, FatherPlace(g, j));
  }

  lemma LensSized(g: Forest, len: seq<nat>, limit: nat)
    requires Tree(g) && LensOk(g, len, limit)
    ensures |len| == |g.f| == 2 * g.elems + 1 && 2 <= g.k <= g.elems && |g.out| == 2 * g.k - 1
    ensures forall i :: 0 <= i < |g.out| ==> g.out[i] < |g.f|
  {
  }

  /** The symbols have the lengths of their levels. */
  ghost predicate AtDepth(g: Forest, len: seq<nat>)
    requires Tree(g)
  {
    |len| == |g.f| && forall j :: 0 <= j <= 2 * g.k - 2 && g.out[j] < g.elems ==> len[g.out[j]] == Depth(g, j)
  }

  lemma UncutDepth(g: Forest, len: seq<nat>, limit: nat)
    requires Tree(g) && LensOk(g, len, limit) && !Deep(g, limit)
    ensures AtDepth(g, len)
  {
    hide Tree, LensOk;
    LensSized(g, len, limit);
    forall j | 0 <= j <= 2 * g.k - 2 && g.out[j] < g.elems ensures len[g.out[j]] == Depth(g, j) {
      CutDepth(g, len, limit, j);
      assert !DeepLeaf(g, limit, j);
    }
  }

  // ----- weights

  function Fib(n: nat): nat
  {
    if n < 2 then n else Fib(n - 1) + Fib(n - 2)
  }

  lemma {:induction false} FibGrows(m: nat, n: nat)
    requires 1 <= m <= n
    ensures Fib(m) <= Fib(n)
    decreases n
  {
    if m < n {
      FibGrows(m, n - 1);
    }
  }

  /** The place h levels above place j. */
  ghost function Above(g: Forest, j: nat, h: nat): (p: nat)
    requires Tree(g) && j <= 2 * g.k - 2 && h <= Depth(g, j)
    ensures j <= p <= 2 * g.k - 2 && Depth(g, p) == Depth(g, j) - h
  {
    if h == 0 then j else FatherPlace(g, Above(g, j, h - 1))
  }

  lemma Heavier(g: Forest, e: nat, s: nat)
    requires Tree(g) && s < g.k - 1 && e <= 2 * s
    ensures g.elems + s < |g.f| && g.f[g.elems + s] == g.f[g.out[2 * s]] + g.f[g.out[2 * s + 1]]
    ensures g.f[g.out[e]] <= g.f[g.out[2 * s]] <= g.f[g.out[2 * s + 1]]
  {
    assert Merged(g, s);
  }

  /** A node's brother weighs at least as much as either of the node's sons. */
  lemma BrotherHeavier(g: Forest, e: nat)
    requires Tree(g) && e < 2 * g.k - 2 && FatherPlace(g, e) < 2 * g.k - 2
    ensures var c := FatherPlace(g, e); var v := FatherPlace(g, c);
      g.f[g.out[v]] >= g.f[g.out[c]] + g.f[g.out[e]]
  {
    hide Tree;
    TreePlaces(g);
    var c := FatherPlace(g, e);
    FatherAfter(g, e);
    Heavier(g, e, c / 2);
    assert c == 2 * (c / 2) || c == 2 * (c / 2) + 1;
  }

  lemma FatherAfter(g: Forest, e: nat)
    requires Tree(g) && e < 2 * g.k - 2
    ensures FatherPlace(g, e) >= 2 * (e / 2) + 2
  {
    PairListed(g, e / 2);
  }

  lemma FatherHeavier(g: Forest, e: nat)
    requires Tree(g) && e < 2 * g.k - 2
    ensures g.f[g.out[FatherPlace(g, e)]] > g.f[g.out[e]] > 0
  {
    PairListed(g, e / 2);
    assert Merged(g, e / 2);
    assert e == 2 * (e / 2) || e == 2 * (e / 2) + 1;
    assert Exists(g, g.k - 1, g.out[2 * (e / 2)]) && Exists(g, g.k - 1, g.out[2 * (e / 2) + 1]);
  }

  lemma TwoAbove(g: Forest, j: nat, h: nat)
    requires Tree(g) && j <= 2 * g.k - 2 && 2 <= h <= Depth(g, j)
    ensures g.f[g.out[Above(g, j, h)]] >= g.f[g.out[Above(g, j, h - 1)]] + g.f[g.out[Above(g, j, h - 2)]]
  {
    hide Tree;
    TreePlaces(g);
    assert Above(g, j, h - 1) == FatherPlace(g, Above(g, j, h - 2));
    assert Depth(g, Above(g, j, h - 1)) > 0;
    BrotherHeavier(g, Above(g, j, h - 2));
  }

  lemma {:induction false} PathWeight(g: Forest, j: nat, h: nat)
    requires Tree(g) && j <= 2 * g.k - 2 && h <= Depth(g, j)
    ensures g.f[g.out[Above(g, j, h)]] >= Fib(h + 2)
  {
    hide Tree, FatherPlace;
    TreePlaces(g);
    if h == 0 {
      NodePositive(g, j);
    } else if h == 1 {
      NodePositive(g, j);
      FatherHeavier(g, j);
    } else {
      PathWeight(g, j, h - 1);
      PathWeight(g, j, h - 2);
      TwoAbove(g, j, h);
    }
  }

  lemma NodePositive(g: Forest, j: nat)
    requires Tree(g) && j <= 2 * g.k - 2
    ensures g.f[g.out[j]] >= 1
  {
    assert Exists(g, g.k - 1, g.out[j]);
  }

  /** The root weighs what the symbols weigh. */
  lemma RootWeight(g: Forest)
    requires Tree(g)
    ensures g.f[Root(g)] == Sum(g.f[..g.elems])
  {
    hide Deltas;
    var v: seq<int> := g.f;
    FrontSum(g, v, 0);
    NoDeltas(g, v, 0);
    FrontLeaves(g, v);
    var front := Front(g, v, 0);
    assert front == front[..g.elems] + front[g.elems..];
    SumAppend(front[..g.elems], front[g.elems..]);
    SumZero(front[g.elems..]);
    assert front[..g.elems] == g.f[..g.elems];
  }

  lemma {:induction false} NoDeltas(g: Forest, v: seq<int>, t: nat)
    requires Tree(g) && v == g.f && t < g.k
    ensures Deltas(g, v, t) == 0
    decreases g.k - t
  {
    if t < g.k - 1 {
      NoDeltas(g, v, t + 1);
      assert Merged(g, t);
    }
  }

  /** A tree with a symbol below the limit weighs at least a Fibonacci number. */
  lemma DeepWeight(g: Forest, limit: nat)
    requires Tree(g) && Deep(g, limit)
    ensures Sum(g.f[..g.elems]) >= Fib(limit + 3)
  {
    hide Tree;
    TreePlaces(g);
    var j :| DeepLeaf(g, limit, j);
    var d := Depth(g, j);
    PathWeight(g, j, d);
    TopPlace(g, Above(g, j, d));
    RootLast(g);
    RootWeight(g);
    FibGrows(limit + 3, d + 2);
  }

  lemma TopPlace(g: Forest, p: nat)
    requires Tree(g) && p <= 2 * g.k - 2 && Depth(g, p) == 0
    ensures p == 2 * g.k - 2
  {
    hide Tree;
  }
}
