/** The heights that break ties while the tree is built: how little they grow, and why the finished
    tree is then as shallow as a code of least cost can be. */
module TreeHeights {
  import opened Sums
  import opened HuffmanCode
  import opened TreeHeap
  import opened TreeOrder
  import opened TreeLengths
  import opened TreeDepth
  import opened OptimalCodes
  import opened LowestCodes

  // ---------- Heights while merging ----------

  /** The son of merge s that is as high as its father allows. */
  ghost function TallSon(g: Forest, s: nat): (i: nat)
    requires Sized(g) && Listing(g) && 2 * s + 1 < |g.out| && s < g.elems
    ensures i == 2 * s || i == 2 * s + 1
  {
    if g.high[g.out[2 * s]] >= g.high[g.out[2 * s + 1]] then 2 * s else 2 * s + 1
  }

  /** A node weighs at least as much as its taller son and that one's taller son together. */
  lemma TallSonWeight(g: Forest, t: nat, s: nat)
    requires Sized(g) && Listing(g) && Increasing(g) && t < g.k && 2 * t <= |g.out| && MergedTo(g, t) && s < t
    requires g.elems <= g.out[TallSon(g, s)] < g.elems + t
    ensures var s' := g.out[TallSon(g, s)] - g.elems;
      s' < s && g.f[g.elems + s] >= g.f[g.out[TallSon(g, s)]] + g.f[g.out[TallSon(g, s')]]
  {
    var i := TallSon(g, s);
    var s' := g.out[i] - g.elems;
    assert Merged(g, s) && Merged(g, s');
    assert Listed(g, g.out[i]);
    var e := if i == 2 * s then 2 * s + 1 else 2 * s;
    assert Smaller(g.f, g.high, g.out[TallSon(g, s')], g.out[e]);
  }

  /** A tree weighs at least a Fibonacci number, in terms of its height. */
  lemma {:induction false} HeightWeight(g: Forest, t: nat, x: nat)
    requires Sized(g) && Listing(g) && Increasing(g) && t < g.k && 2 * t <= |g.out| && MergedTo(g, t)
    requires Positive(g, t) && Flat(g) && (forall i :: 0 <= i < 2 * t ==> Exists(g, t, g.out[i]))
    requires x < |g.f| && Exists(g, t, x)
    ensures g.f[x] >= Fib(g.high[x] + 2)
    decreases x
  {
    hide Increasing, Listing, Flat, Positive;
    if x < g.elems {
      LeafWeight(g, t, x);
    } else {
      var s := x - g.elems;
      var c := g.out[TallSon(g, s)];
      assert Merged(g, s);
      assert Exists(g, t, c);
      HeightWeight(g, t, c);
      if c < g.elems {
        LeafWeight(g, t, c);
        PairWeight(g, t, s);
      } else {
        TallSonWeight(g, t, s);
        assert Merged(g, c - g.elems);
        assert Exists(g, t, g.out[TallSon(g, c - g.elems)]);
        HeightWeight(g, t, g.out[TallSon(g, c - g.elems)]);
      }
    }
  }

  lemma LeafWeight(g: Forest, t: nat, x: nat)
    requires Sized(g) && Positive(g, t) && Flat(g) && x < g.elems && Exists(g, t, x)
    ensures g.high[x] == 0 && g.f[x] >= 1
  {
  }

  lemma PairWeight(g: Forest, t: nat, s: nat)
    requires Sized(g) && Listing(g) && Positive(g, t) && t < g.k && 2 * t <= |g.out| && MergedTo(g, t) && s < t
    requires forall i :: 0 <= i < 2 * t ==> Exists(g, t, g.out[i])
    ensures g.f[g.elems + s] >= 2
  {
    assert Merged(g, s);
    assert Exists(g, t, g.out[2 * s]) && Exists(g, t, g.out[2 * s + 1]);
  }

  lemma FibBig()
    ensures Fib(25) > 0x1_0000
  {
    assert Fib(7) == 13 && Fib(8) == 21;
    assert Fib(9) == 34 && Fib(10) == 55;
    assert Fib(11) == 89 && Fib(12) == 144;
    assert Fib(13) == 233 && Fib(14) == 377;
    assert Fib(15) == 610 && Fib(16) == 987;
    assert Fib(17) == 1597 && Fib(18) == 2584;
    assert Fib(19) == 4181 && Fib(20) == 6765;
    assert Fib(21) == 10946 && Fib(22) == 17711;
    assert Fib(23) == 28657 && Fib(24) == 46368;
  }

  /** So a weight of 16 bits leaves the height well within 8 bits. */
  lemma HeightBound(g: Forest, t: nat, x: nat)
    requires Sized(g) && Listing(g) && Increasing(g) && t < g.k && 2 * t <= |g.out| && MergedTo(g, t)
    requires Positive(g, t) && Flat(g) && (forall i :: 0 <= i < 2 * t ==> Exists(g, t, g.out[i]))
    requires x < |g.f| && Exists(g, t, x) && g.f[x] < 0x1_0000
    ensures g.high[x] < 23
  {
    hide Fib;
    HeightWeight(g, t, x);
    FibBig();
    if g.high[x] >= 23 {
      FibGrows(25, g.high[x] + 2);
    }
  }

  // ---------- Heights in the finished tree ----------

  /** A father is higher than both sons, and just one above the taller one. */
  lemma FatherHigher(g: Forest, j: nat)
    requires Tree(g) && j < 2 * g.k - 2
    ensures g.high[g.out[FatherPlace(g, j)]] > g.high[g.out[j]]
  {
    assert Merged(g, j / 2);
    assert j == 2 * (j / 2) || j == 2 * (j / 2) + 1;
  }

  lemma {:induction false} DepthBelowHeight(g: Forest, j: nat)
    requires Tree(g) && j <= 2 * g.k - 2
    ensures g.high[g.out[j]] + Depth(g, j) <= g.high[Root(g)]
    decreases 2 * g.k - 2 - j
  {
    hide Tree;
    TreePlaces(g);
    if j < 2 * g.k - 2 {
      FatherHigher(g, j);
      DepthBelowHeight(g, FatherPlace(g, j));
    } else {
      RootLast(g);
    }
  }

  /** From every node a leaf can be reached by going to the taller son. */
  lemma {:induction false} TallestLeaf(g: Forest, j: nat) returns (l: nat)
    requires Tree(g) && j <= 2 * g.k - 2
    ensures l <= j && g.out[l] < g.elems && Depth(g, l) == Depth(g, j) + g.high[g.out[j]]
    decreases j
  {
    l := j;
    if g.out[j] >= g.elems {
      var s := g.out[j] - g.elems;
      InnerNode(g, j);
      PairListed(g, s);
      assert Merged(g, s);
      var i := TallSon(g, s);
      assert FatherPlace(g, i) == j;
      l := TallestLeaf(g, i);
    } else {
      assert Exists(g, g.k - 1, g.out[j]);
    }
  }

  /** The height of the root is the greatest level of a symbol. */
  lemma DeepHeight(g: Forest, limit: nat)
    requires Tree(g)
    ensures Root(g) < |g.high| && (Deep(g, limit) <==> g.high[Root(g)] > limit)
  {
    hide Tree;
    TreePlaces(g);
    RootLast(g);
    var l := TallestLeaf(g, 2 * g.k - 2);
    if g.high[Root(g)] > limit {
      assert DeepLeaf(g, limit, l);
    }
    if j :| DeepLeaf(g, limit, j) {
      DepthBelowHeight(g, j);
    }
  }

  // ---------- The lowest of all optimal trees ----------

  lemma RootsFirst(g: Forest, t: nat)
    requires Tree(g) && t < g.k - 1
    ensures g.out[2 * t] < |g.f| && g.out[2 * t + 1] < |g.f|
    ensures FirstTwo(Roots(g, t), g.high, g.out[2 * t], g.out[2 * t + 1])
  {
    var a, b, w := g.out[2 * t], g.out[2 * t + 1], Roots(g, t);
    PairListed(g, t);
    RootsPair(g, t);
    forall x | 0 <= x < |w| && w[x] > 0 ensures Smaller(w, g.high, a, x) && (x != a ==> Smaller(w, g.high, b, x)) {
      assert g.out[g.at[x]] == x;
      assert w[x] == g.f[x];
    }
  }

  lemma {:induction false} TreeLowFirst(g: Forest, t: nat)
    requires Tree(g) && t < g.k
    ensures LowFirst(Roots(g, t), g.high, Merges(g, t))
    decreases g.k - t
  {
    hide Tree, Roots, FirstTwo, Joined;
    TreeParts(g, t);
    if t < g.k - 1 {
      TreeLowFirst(g, t + 1);
      RootsStep(g, t);
      RootsFirst(g, t);
      assert Merges(g, t)[1..] == Merges(g, t + 1);
    }
  }

  lemma TreeParts(g: Forest, t: nat)
    requires Tree(g) && t < g.k
    ensures Sized(g) && |g.out| == 2 * g.k - 1
    ensures t < g.k - 1 ==>
              && g.out[2 * t] < |g.f| && g.out[2 * t + 1] < |g.f|
              && g.high[g.elems + t] == Taller(g.high[g.out[2 * t]], g.high[g.out[2 * t + 1]])
  {
    if t < g.k - 1 {
      assert Merged(g, t);
    }
  }

  /** All that remains is the root. */
  lemma {:induction false} RootRemains(g: Forest, t: nat)
    requires Tree(g) && t < g.k
    ensures Greedy(Roots(g, t), Merges(g, t))
    ensures Remaining(Roots(g, t), Merges(g, t)) == Roots(g, g.k - 1)
    decreases g.k - t
  {
    hide Tree, Roots, Greedy, Joined;
    TreeSize(g);
    GreedyMerges(g, t);
    if t == g.k - 1 {
      NoMergesLeft(g, t);
    } else {
      RootRemains(g, t + 1);
      RootsStep(g, t);
      assert Merges(g, t)[1..] == Merges(g, t + 1);
    }
  }

  lemma RootWaits(g: Forest)
    requires Tree(g)
    ensures Root(g) < |g.f| && Roots(g, g.k - 1)[Root(g)] > 0
  {
    assert Exists(g, g.k - 1, Root(g));
  }

  /** Every symbol's level, with no limit. */
  ghost function Levels(g: Forest): (r: seq<nat>)
    requires Tree(g)
    ensures |r| == |g.f|
  {
    seq(|g.f|, x requires 0 <= x < |g.f| => if Listed(g, x) && g.at[x] <= 2 * g.k - 2 then Depth(g, g.at[x]) else 0)
  }

  lemma LevelAt(g: Forest, j: nat)
    requires Tree(g) && j <= 2 * g.k - 2
    ensures g.out[j] < |g.f| && Levels(g)[g.out[j]] == Depth(g, j)
  {
    assert g.at[g.out[j]] == j;
  }

  lemma {:induction false} DepthBound(g: Forest, j: nat)
    requires Tree(g) && j <= 2 * g.k - 2
    ensures Depth(g, j) <= 2 * g.k - 2 - j
    decreases 2 * g.k - 2 - j
  {
    hide Tree;
    if j < 2 * g.k - 2 {
      DepthBound(g, FatherPlace(g, j));
    }
  }

  lemma LevelsOk(g: Forest)
    requires Tree(g)
    ensures LensOk(g, Levels(g), 2 * g.k)
  {
    hide Tree, Levels, Depth;
    TreePlaces(g);
    RootLast(g);
    LevelAt(g, 2 * g.k - 2);
    assert Depth(g, 2 * g.k - 2) == 0 by { DepthBound(g, 2 * g.k - 2); }
    forall s | 0 <= s < g.k - 1 ensures PairLens(g, Levels(g), 2 * g.k, s) {
      LevelsPair(g, s);
    }
  }

  lemma LevelsPair(g: Forest, s: nat)
    requires Tree(g) && s < g.k - 1
    ensures PairLens(g, Levels(g), 2 * g.k, s)
    ensures Levels(g)[g.elems + s] < 2 * g.k
  {
    hide Tree, Levels;
    TreePlaces(g);
    var p := FatherPlace(g, 2 * s);
    LevelAt(g, 2 * s);
    LevelAt(g, 2 * s + 1);
    LevelAt(g, p);
    DepthBound(g, p);
    assert FatherPlace(g, 2 * s + 1) == p;
  }

  lemma {:induction false} LevelsFit(g: Forest, t: nat)
    requires Tree(g) && t < g.k
    ensures Overflows(g, Levels(g), 2 * g.k, t) == 0
    decreases g.k - t
  {
    hide Tree, Levels;
    if t < g.k - 1 {
      LevelsFit(g, t + 1);
      LevelsPair(g, t);
    }
  }

  /** The tree costs what the merges cost, and that is the least. */
  lemma LevelsCost(g: Forest)
    requires Tree(g)
    ensures Kraft(LeafFreqs(g), LeafLens(g, Levels(g)), 2 * g.k)
    ensures Greedy(LeafFreqs(g), Merges(g, 0))
    ensures Cost(LeafFreqs(g), LeafLens(g, Levels(g))) == MergeCost(LeafFreqs(g), Merges(g, 0))
  {
    hide Tree, Levels, LensOk, Greedy, Cost;
    TreeSize(g);
    LevelsOk(g);
    LevelsFit(g, 0);
    TreeKraft(g, Levels(g), 2 * g.k);
    TreeCost(g, Levels(g), 2 * g.k);
    LevelsShares(g);
  }

  lemma LevelsShares(g: Forest)
    requires Tree(g) && LensOk(g, Levels(g), 2 * g.k)
    ensures Shares(LeafFreqs(g), LeafLens(g, Levels(g)), 2 * g.k) == Rooms(LeafLens(g, Levels(g)), 2 * g.k)
    ensures forall x :: 0 <= x < |g.f| ==> LeafLens(g, Levels(g))[x] <= 2 * g.k
  {
    forall x | 0 <= x < |g.f| && x < g.elems && g.f[x] > 0 ensures 0 < Levels(g)[x] <= 2 * g.k {
      LensBounded(g, Levels(g), 2 * g.k, x);
    }
  }

  /** The tree is as shallow as any code of least cost. */
  lemma Shallowest(g: Forest, lens: seq<nat>, limit: nat)
    requires Tree(g) && Kraft(LeafFreqs(g), lens, limit) && Optimal(LeafFreqs(g), lens)
    ensures !Deep(g, limit)
  {
    hide Tree, Kraft, Cost, Greedy, LowFirst, Levels, Deep, Remaining, LeafLens;
    TreeSize(g);
    var w := LeafFreqs(g);
    LevelsCost(g);
    RootsLeaves(g);
    TreeLowFirst(g, 0);
    RootRemains(g, 0);
    RootWaits(g);
    LeavesWithin(g, lens, limit);
    LowestHeight(w, g.high, Merges(g, 0), lens, limit, limit);
    DeepHeight(g, limit);
  }

  lemma LeavesWithin(g: Forest, lens: seq<nat>, limit: nat)
    requires Tree(g) && Kraft(LeafFreqs(g), lens, limit)
    ensures Within(LeafFreqs(g), g.high, lens, limit)
  {
  }

  /** Some code of least cost for the frequencies w has no codeword of more than limit bits. */
  ghost predicate Reachable(w: seq<nat>, limit: nat)
  {
    exists lens :: LeastWithin(w, lens, limit)
  }

  ghost predicate LeastWithin(w: seq<nat>, lens: seq<nat>, limit: nat)
  {
    Kraft(w, lens, limit) && Optimal(w, lens)
  }
}
