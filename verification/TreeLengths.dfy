/** Code lengths read off a finished tree: their Kraft sum, their cost, their number per length,
    before and after the length limit is enforced. */
module TreeLengths {
  import opened Sums
  import opened HuffmanCode
  import opened TreeOrder
  import opened OptimalCodes

  /** Values of the nodes that are neither expanded nor too late: the roots left after the first
      t merges, or the frontier when the tree is expanded from the top down to merge t. */
  ghost function Front(g: Forest, v: seq<int>, t: nat): (r: seq<int>)
    requires Tree(g) && |v| == |g.f|
    ensures |r| == |v|
  {
    seq(|v|, x requires 0 <= x < |v| => if Listed(g, x) && x < g.elems + t && g.at[x] >= 2 * t then v[x] else 0)
  }

  /** What merge s adds to the sum of a frontier. */
  ghost function Delta(g: Forest, v: seq<int>, s: nat): int
    requires Tree(g) && |v| == |g.f| && s < g.k - 1
  {
    v[g.out[2 * s]] + v[g.out[2 * s + 1]] - v[g.elems + s]
  }

  ghost function Deltas(g: Forest, v: seq<int>, t: nat): int
    requires Tree(g) && |v| == |g.f| && t < g.k
    decreases g.k - t
  {
    if t == g.k - 1 then 0 else Delta(g, v, t) + Deltas(g, v, t + 1)
  }

  lemma FrontStep(g: Forest, v: seq<int>, t: nat)
    requires Tree(g) && |v| == |g.f| && t < g.k - 1
    ensures Sum(Front(g, v, t)) == Sum(Front(g, v, t + 1)) + Delta(g, v, t)
  {
    var a, b, node := g.out[2 * t], g.out[2 * t + 1], g.elems + t;
    PairListed(g, t);
    FrontUpdate(g, v, t);
    SumUpdate3(Front(g, v, t + 1), node, 0, a, v[a], b, v[b]);
  }

  lemma FrontUpdate(g: Forest, v: seq<int>, t: nat)
    requires Tree(g) && |v| == |g.f| && t < g.k - 1
    ensures var a, b, node := g.out[2 * t], g.out[2 * t + 1], g.elems + t;
            && Front(g, v, t) == Front(g, v, t + 1)[node := 0][a := v[a]][b := v[b]]
            && Front(g, v, t + 1)[node] == v[node]
            && Front(g, v, t + 1)[a] == Front(g, v, t + 1)[b] == 0
  {
    var a, b, node := g.out[2 * t], g.out[2 * t + 1], g.elems + t;
    var f0, f1 := Front(g, v, t + 1), Front(g, v, t);
    PairListed(g, t);
    forall x | 0 <= x < |v| ensures f1[x] == f0[node := 0][a := v[a]][b := v[b]][x] {
      if x != node && x != a && x != b {
        FrontSame(g, t, x);
      }
    }
  }

  lemma PairListed(g: Forest, t: nat)
    requires Tree(g) && t < g.k - 1
    ensures var a, b, node := g.out[2 * t], g.out[2 * t + 1], g.elems + t;
            && a < node && b < node && a != b
            && g.at[a] == 2 * t && g.at[b] == 2 * t + 1
            && Listed(g, node) && g.at[node] > 2 * t + 1
            && Listed(g, a) && Listed(g, b)
  {
    assert Merged(g, t);
    assert Exists(g, g.k - 1, g.elems + t);
  }

  /** Expanding merge t changes the frontier at its three nodes only. */
  lemma FrontSame(g: Forest, t: nat, x: nat)
    requires Tree(g) && t < g.k - 1 && x < |g.f|
    requires x != g.elems + t && x != g.out[2 * t] && x != g.out[2 * t + 1]
    ensures (Listed(g, x) && x < g.elems + t && g.at[x] >= 2 * t) <==>
            (Listed(g, x) && x < g.elems + t + 1 && g.at[x] >= 2 * (t + 1))
  {
    if Listed(g, x) {
      assert g.out[g.at[x]] == x;
    }
  }

  lemma {:induction false} FrontSum(g: Forest, v: seq<int>, t: nat)
    requires Tree(g) && |v| == |g.f| && t < g.k
    ensures Sum(Front(g, v, t)) == v[Root(g)] + Deltas(g, v, t)
    decreases g.k - t
  {
    if t == g.k - 1 {
      var f := Front(g, v, t);
      FrontTop(g, v, f);
      SumUpdate(f, Root(g), 0);
      SumZero(f[Root(g) := 0]);
    } else {
      FrontStep(g, v, t);
      FrontSum(g, v, t + 1);
    }
  }

  lemma FrontTop(g: Forest, v: seq<int>, top: seq<int>)
    requires Tree(g) && |v| == |g.f| && top == Front(g, v, g.k - 1)
    ensures top[Root(g)] == v[Root(g)]
    ensures forall x :: 0 <= x < |v| && x != Root(g) ==> top[x] == 0
  {
    assert Exists(g, g.k - 1, Root(g));
    assert Listed(g, Root(g)) && g.at[Root(g)] == 2 * g.k - 2;
    forall x | 0 <= x < |v| && x != Root(g) ensures top[x] == 0 {
      OnlyRootLast(g, x);
    }
  }

  lemma OnlyRootLast(g: Forest, x: nat)
    requires Tree(g) && x < |g.f|
    ensures Listed(g, x) && g.at[x] >= 2 * (g.k - 1) ==> x == Root(g)
  {
  }

  /** The initial frontier is the leaves. */
  lemma FrontLeaves(g: Forest, v: seq<int>)
    requires Tree(g) && |v| == |g.f|
    ensures forall x :: 0 <= x < |v| ==>
              Front(g, v, 0)[x] == if x < g.elems && g.f[x] > 0 then v[x] else 0
  {
    forall x | 0 <= x < |v|
      ensures Front(g, v, 0)[x] == if x < g.elems && g.f[x] > 0 then v[x] else 0
    {
      ListedExists(g, x);
    }
  }

  // ---------- Code lengths ----------

  /** Every node is one level below its father, but never below level limit. */
  ghost predicate LensOk(g: Forest, len: seq<nat>, limit: nat)
    requires Tree(g)
  {
    && |len| == |g.f| && len[Root(g)] == 0
    && forall s :: 0 <= s < g.k - 1 ==> PairLens(g, len, limit, s)
  }

  ghost predicate PairLens(g: Forest, len: seq<nat>, limit: nat, s: nat)
    requires Tree(g) && |len| == |g.f| && s < g.k - 1
  {
    var l := if len[g.elems + s] < limit then len[g.elems + s] + 1 else limit;
    len[g.out[2 * s]] == l && len[g.out[2 * s + 1]] == l
  }

  /** How many of the merges from t on have their father at the limit. */
  ghost function Overflows(g: Forest, len: seq<nat>, limit: nat, t: nat): nat
    requires Tree(g) && |len| == |g.f| && t < g.k
    decreases g.k - t
  {
    if t == g.k - 1 then 0
    else (if len[g.elems + t] == limit then 1 else 0) + Overflows(g, len, limit, t + 1)
  }

  lemma LensBounded(g: Forest, len: seq<nat>, limit: nat, x: nat)
    requires Tree(g) && LensOk(g, len, limit) && x < |g.f| && Exists(g, g.k - 1, x)
    ensures len[x] <= limit
    ensures x != Root(g) && limit > 0 ==> len[x] > 0
  {
    assert Listed(g, x);
    var i := g.at[x];
    assert x == g.out[i];
    if i < 2 * (g.k - 1) {
      assert PairLens(g, len, limit, i / 2);
      assert i == 2 * (i / 2) || i == 2 * (i / 2) + 1;
    }
  }

  /** The code lengths of the symbols; 0 for those that do not occur and for inner nodes. */
  ghost function LeafLens(g: Forest, len: seq<nat>): (r: seq<nat>)
    requires Sized(g) && |len| == |g.f|
    ensures |r| == |len|
  {
    seq(|len|, x requires 0 <= x < |len| => if x < g.elems && g.f[x] > 0 then len[x] else 0)
  }

  /** The frequencies of the symbols. */
  ghost function LeafFreqs(g: Forest): (r: seq<nat>)
    requires Sized(g)
    ensures |r| == |g.f|
  {
    seq(|g.f|, x requires 0 <= x < |g.f| => if x < g.elems then g.f[x] else 0)
  }

  // ---------- Kraft sum, deep leaves, number of leaves ----------

  ghost function RoomV(len: seq<nat>, limit: nat): (r: seq<int>)
    ensures |r| == |len|
  {
    seq(|len|, x requires 0 <= x < |len| => if len[x] <= limit then Pow2(limit - len[x]) else 0)
  }

  ghost function AtLimitV(len: seq<nat>, limit: nat): (r: seq<int>)
    ensures |r| == |len|
  {
    seq(|len|, x requires 0 <= x < |len| => if len[x] == limit then 1 else 0)
  }

  lemma {:induction false} RoomDeltas(g: Forest, len: seq<nat>, limit: nat, t: nat)
    requires Tree(g) && LensOk(g, len, limit) && t < g.k
    ensures |len| == |g.f| && Deltas(g, RoomV(len, limit), t) == Overflows(g, len, limit, t)
    decreases g.k - t
  {
    hide Tree, LensOk, RoomV, Delta;
    TreeSize(g);
    LensSized(g, len, limit);
    if t < g.k - 1 {
      RoomDeltas(g, len, limit, t + 1);
      RoomDelta(g, len, limit, t);
    }
  }

  lemma RoomDelta(g: Forest, len: seq<nat>, limit: nat, t: nat)
    requires Tree(g) && LensOk(g, len, limit) && t < g.k - 1 && |len| == |g.f|
    ensures Delta(g, RoomV(len, limit), t) == if len[g.elems + t] == limit then 1 else 0
  {
    var node := g.elems + t;
    assert PairLens(g, len, limit, t);
    assert Exists(g, g.k - 1, node);
    LensBounded(g, len, limit, node);
    HalfRoom(limit - len[node]);
  }

  lemma HalfRoom(k: nat)
    ensures k > 0 ==> Pow2(k) == 2 * Pow2(k - 1)
    ensures Pow2(0) == 1
  {
  }

  /** The Kraft sum of the code lengths is 1 plus one unit for every father at the limit. */
  lemma TreeKraft(g: Forest, len: seq<nat>, limit: nat)
    requires Tree(g) && LensOk(g, len, limit) && limit > 0
    ensures Sum(Rooms(LeafLens(g, len), limit)) == Pow2(limit) + Overflows(g, len, limit, 0)
  {
    var v := RoomV(len, limit);
    FrontSum(g, v, 0);
    RoomDeltas(g, len, limit, 0);
    FrontLeaves(g, v);
    LeafRooms(g, len, limit);
  }

  lemma LeafRooms(g: Forest, len: seq<nat>, limit: nat)
    requires Tree(g) && LensOk(g, len, limit) && limit > 0
    ensures Front(g, RoomV(len, limit), 0) == Rooms(LeafLens(g, len), limit)
  {
    FrontLeaves(g, RoomV(len, limit));
    forall x | 0 <= x < |len|
      ensures Front(g, RoomV(len, limit), 0)[x] == Rooms(LeafLens(g, len), limit)[x]
    {
      if x < g.elems && g.f[x] > 0 {
        LensBounded(g, len, limit, x);
      }
    }
  }

  lemma {:induction false} LimitDeltas(g: Forest, len: seq<nat>, limit: nat, t: nat)
    requires Tree(g) && LensOk(g, len, limit) && t < g.k
    ensures Deltas(g, AtLimitV(len, limit), t) >= Overflows(g, len, limit, t)
    decreases g.k - t
  {
    if t < g.k - 1 {
      LimitDeltas(g, len, limit, t + 1);
      assert PairLens(g, len, limit, t);
    }
  }

  /** There are at least as many leaves at the limit as fathers. */
  lemma DeepLeaves(g: Forest, len: seq<nat>, limit: nat)
    requires Tree(g) && LensOk(g, len, limit) && limit > 0
    ensures Count(LeafLens(g, len), limit) >= Overflows(g, len, limit, 0)
  {
    var v := AtLimitV(len, limit);
    FrontSum(g, v, 0);
    LimitDeltas(g, len, limit, 0);
    FrontLeaves(g, v);
    CountIndicator(LeafLens(g, len), Front(g, v, 0), limit);
  }

  lemma {:induction false} CountIndicator(s: seq<nat>, v: seq<int>, b: nat)
    requires |s| == |v| && forall i :: 0 <= i < |s| ==> v[i] == if s[i] == b then 1 else 0
    ensures Count(s, b) == Sum(v)
  {
    if s != [] {
      CountIndicator(s[..|s| - 1], v[..|v| - 1], b);
    }
  }

  lemma {:induction false} OneDeltas(g: Forest, v: seq<int>, t: nat)
    requires Tree(g) && |v| == |g.f| && t < g.k && forall x :: 0 <= x < |v| ==> v[x] == 1
    ensures Deltas(g, v, t) == g.k - 1 - t
    decreases g.k - t
  {
    if t < g.k - 1 {
      OneDeltas(g, v, t + 1);
    }
  }

  /** The tree has k leaves. */
  lemma LeafCount(g: Forest, len: seq<nat>, limit: nat)
    requires Tree(g) && LensOk(g, len, limit) && limit > 0
    ensures |LeafLens(g, len)| - Count(LeafLens(g, len), 0) == g.k
  {
    var v := seq(|g.f|, x => 1);
    FrontSum(g, v, 0);
    OneDeltas(g, v, 0);
    LeafSplit(g, len, limit, v);
    SumOnes(v);
  }

  lemma LeafSplit(g: Forest, len: seq<nat>, limit: nat, v: seq<int>)
    requires Tree(g) && LensOk(g, len, limit) && limit > 0
    requires |v| == |g.f| && forall x :: 0 <= x < |v| ==> v[x] == 1
    ensures Sum(v) == Sum(Front(g, v, 0)) + Count(LeafLens(g, len), 0)
  {
    var lens := LeafLens(g, len);
    var z := seq(|lens|, x requires 0 <= x < |lens| => if lens[x] == 0 then 1 else 0);
    FrontLeaves(g, v);
    forall x | 0 <= x < |v| ensures v[x] == Front(g, v, 0)[x] + z[x] {
      if x < g.elems && g.f[x] > 0 {
        LensBounded(g, len, limit, x);
      }
    }
    SumSplit(v, Front(g, v, 0), z);
    CountIndicator(lens, z, 0);
  }

  lemma {:induction false} SumOnes(v: seq<int>)
    requires forall i :: 0 <= i < |v| ==> v[i] == 1
    ensures Sum(v) == |v|
  {
    if v != [] {
      SumOnes(v[..|v| - 1]);
    }
  }

  // ---------- Cost and optimality ----------

  ghost function CostV(g: Forest, len: seq<nat>): (r: seq<int>)
    requires Sized(g) && |len| == |g.f|
    ensures |r| == |len|
  {
    seq(|len|, x requires 0 <= x < |len| => g.f[x] * len[x])
  }

  lemma {:induction false} CostDeltas(g: Forest, len: seq<nat>, limit: nat, t: nat)
    requires Tree(g) && LensOk(g, len, limit) && t < g.k && Overflows(g, len, limit, t) == 0
    ensures Greedy(Roots(g, t), Merges(g, t))
    ensures Deltas(g, CostV(g, len), t) == MergeCost(Roots(g, t), Merges(g, t))
    decreases g.k - t
  {
    hide Tree, LensOk, Roots, Greedy, Delta, CostV;
    TreeSize(g);
    LensSized(g, len, limit);
    GreedyMerges(g, t);
    if t == g.k - 1 {
      NoMergesLeft(g, t);
    } else {
      CostDeltas(g, len, limit, t + 1);
      CostDelta(g, len, limit, t);
      MergeCostStep(g, t);
    }
  }

  lemma LensSized(g: Forest, len: seq<nat>, limit: nat)
    requires Tree(g) && LensOk(g, len, limit)
    ensures |len| == |g.f|
  {
  }

  lemma NoMergesLeft(g: Forest, t: nat)
    requires Tree(g) && t == g.k - 1
    ensures Merges(g, t) == [] && Greedy(Roots(g, t), []) && MergeCost(Roots(g, t), []) == 0
  {
  }

  /** A merge costs the weight of its two nodes once more. */
  lemma CostDelta(g: Forest, len: seq<nat>, limit: nat, t: nat)
    requires Tree(g) && LensOk(g, len, limit) && t < g.k - 1 && len[g.elems + t] != limit
    ensures Delta(g, CostV(g, len), t) == g.f[g.out[2 * t]] + g.f[g.out[2 * t + 1]]
  {
    var node := g.elems + t;
    assert Merged(g, t) && PairLens(g, len, limit, t);
    assert Exists(g, g.k - 1, node);
    LensBounded(g, len, limit, node);
    MergeSaving(g.f[g.out[2 * t]], g.f[g.out[2 * t + 1]], len[node]);
  }

  lemma MergeCostStep(g: Forest, t: nat)
    requires Tree(g) && t < g.k - 1
    requires Greedy(Roots(g, t), Merges(g, t)) && Greedy(Roots(g, t + 1), Merges(g, t + 1))
    ensures MergeCost(Roots(g, t), Merges(g, t)) ==
            g.f[g.out[2 * t]] + g.f[g.out[2 * t + 1]] + MergeCost(Roots(g, t + 1), Merges(g, t + 1))
  {
    hide Tree, Roots, Greedy, Joined;
    TreeSize(g);
    RootsStep(g, t);
    RootsPair(g, t);
    assert Merges(g, t)[1..] == Merges(g, t + 1);
  }

  lemma RootsPair(g: Forest, t: nat)
    requires Tree(g) && t < g.k - 1
    ensures g.out[2 * t] < |g.f| && g.out[2 * t + 1] < |g.f|
    ensures Roots(g, t)[g.out[2 * t]] == g.f[g.out[2 * t]] && Roots(g, t)[g.out[2 * t + 1]] == g.f[g.out[2 * t + 1]]
  {
    PairListed(g, t);
  }

  lemma MergeSaving(a: int, b: int, l: int)
    ensures a * (l + 1) + b * (l + 1) - (a + b) * l == a + b
  {
  }

  /** The weights in the queue after t merges. */
  ghost function Roots(g: Forest, t: nat): (r: seq<nat>)
    requires Tree(g)
    ensures |r| == |g.f|
  {
    seq(|g.f|, x requires 0 <= x < |g.f| => if Listed(g, x) && x < g.elems + t && g.at[x] >= 2 * t then g.f[x] else 0)
  }

  ghost function Merges(g: Forest, t: nat): (r: seq<Merge>)
    requires Tree(g) && t < g.k
    decreases g.k - t
  {
    if t == g.k - 1 then []
    else [Merge(g.out[2 * t], g.out[2 * t + 1], g.elems + t)] + Merges(g, t + 1)
  }

  lemma RootsStep(g: Forest, t: nat)
    requires Tree(g) && t < g.k - 1
    ensures Lightest(Roots(g, t), g.out[2 * t], g.out[2 * t + 1])
    ensures Roots(g, t)[g.elems + t] == 0
    ensures Roots(g, t + 1) == Joined(Roots(g, t), Merge(g.out[2 * t], g.out[2 * t + 1], g.elems + t))
  {
    RootsLightest(g, t);
    RootsJoined(g, t, Roots(g, t), Roots(g, t + 1));
  }

  lemma RootsJoined(g: Forest, t: nat, w: seq<nat>, w': seq<nat>)
    requires Tree(g) && t < g.k - 1 && w == Roots(g, t) && w' == Roots(g, t + 1)
    ensures w' == Joined(w, Merge(g.out[2 * t], g.out[2 * t + 1], g.elems + t))
  {
    hide Tree, Roots;
    TreeSize(g);
    var a, b, node := g.out[2 * t], g.out[2 * t + 1], g.elems + t;
    PairListed(g, t);
    RootsAtMerge(g, t, w, w');
    forall x | 0 <= x < |w| && x != node && x != a && x != b ensures w'[x] == w[x] {
      RootsSame(g, t, x);
    }
  }

  lemma RootsAtMerge(g: Forest, t: nat, w: seq<nat>, w': seq<nat>)
    requires Tree(g) && t < g.k - 1 && w == Roots(g, t) && w' == Roots(g, t + 1)
    ensures var a, b, node := g.out[2 * t], g.out[2 * t + 1], g.elems + t;
            && node < |g.f| && a < |g.f| && b < |g.f|
            && w[a] == g.f[a] && w[b] == g.f[b] && w'[node] == g.f[a] + g.f[b] && w'[a] == w'[b] == 0
  {
    PairListed(g, t);
    assert Merged(g, t);
  }

  lemma RootsSame(g: Forest, t: nat, x: nat)
    requires Tree(g) && t < g.k - 1 && x < |g.f|
    requires x != g.elems + t && x != g.out[2 * t] && x != g.out[2 * t + 1]
    ensures Roots(g, t + 1)[x] == Roots(g, t)[x]
  {
    FrontSame(g, t, x);
  }

  lemma RootsLightest(g: Forest, t: nat)
    requires Tree(g) && t < g.k - 1
    ensures Lightest(Roots(g, t), g.out[2 * t], g.out[2 * t + 1])
  {
    var a, b, w := g.out[2 * t], g.out[2 * t + 1], Roots(g, t);
    PairListed(g, t);
    assert Exists(g, g.k - 1, a) && Exists(g, g.k - 1, b);
    forall x | 0 <= x < |w| && w[x] > 0 ensures w[a] <= w[x] && (x != a ==> w[b] <= w[x]) {
      assert g.out[g.at[x]] == x;
    }
  }

  /** The merges of the tree are the ones Huffman's construction makes. */
  lemma {:induction false} GreedyMerges(g: Forest, t: nat)
    requires Tree(g) && t < g.k
    ensures Greedy(Roots(g, t), Merges(g, t))
    decreases g.k - t
  {
    hide Tree, Roots, Greedy;
    TreeSize(g);
    if t == g.k - 1 {
      NoMergesLeft(g, t);
    } else {
      GreedyMerges(g, t + 1);
      GreedyStep(g, t);
    }
  }

  lemma GreedyStep(g: Forest, t: nat)
    requires Tree(g) && t < g.k - 1 && Greedy(Roots(g, t + 1), Merges(g, t + 1))
    ensures Greedy(Roots(g, t), Merges(g, t))
  {
    hide Tree, Roots, Joined;
    TreeSize(g);
    RootsStep(g, t);
    PairListed(g, t);
    assert Merges(g, t)[1..] == Merges(g, t + 1);
  }

  /** With no father at the limit, the code lengths cost exactly what Huffman's merges cost. */
  lemma TreeCost(g: Forest, len: seq<nat>, limit: nat)
    requires Tree(g) && LensOk(g, len, limit) && limit > 0 && Overflows(g, len, limit, 0) == 0
    ensures Greedy(LeafFreqs(g), Merges(g, 0))
    ensures Cost(LeafFreqs(g), LeafLens(g, len)) == MergeCost(LeafFreqs(g), Merges(g, 0))
  {
    var v := CostV(g, len);
    FrontSum(g, v, 0);
    CostDeltas(g, len, limit, 0);
    FrontLeaves(g, v);
    GreedyMerges(g, 0);
    RootsLeaves(g);
    assert Weighted(LeafFreqs(g), LeafLens(g, len)) == Front(g, v, 0);
  }

  lemma RootsLeaves(g: Forest)
    requires Tree(g)
    ensures Roots(g, 0) == LeafFreqs(g)
  {
    forall x | 0 <= x < |g.f| ensures Roots(g, 0)[x] == LeafFreqs(g)[x] {
      if x < g.elems && g.f[x] > 0 {
        assert Exists(g, g.k - 1, x);
      }
    }
  }

  /** Without a father at the limit no prefix code costs less than the tree. */
  lemma TreeOptimal(g: Forest, len: seq<nat>, limit: nat, lens: seq<nat>, limit': nat)
    requires Tree(g) && LensOk(g, len, limit) && limit > 0 && Overflows(g, len, limit, 0) == 0
    requires Kraft(LeafFreqs(g), lens, limit')
    ensures Cost(LeafFreqs(g), LeafLens(g, len)) <= Cost(LeafFreqs(g), lens)
  {
    TreeCost(g, len, limit);
    HuffmanOptimal(LeafFreqs(g), Merges(g, 0), lens, limit');
  }
}
