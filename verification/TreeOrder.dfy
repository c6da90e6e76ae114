/** Building a Huffman tree by merging: what the father links, the frequencies and the list of
    nodes taken from the queue say while and when build_tree merges. */
module TreeOrder {
  import opened Sums
  import opened TreeHeap

  /** Frequencies, heights and father links of all nodes; the nodes in the order they left the queue
      and the place of each in that order; the number of symbols and of leaves. */
  datatype Forest =
    Forest(f: seq<nat>, high: seq<nat>, dad: seq<nat>, out: seq<nat>, at: seq<nat>, elems: nat, k: nat)

  ghost predicate Sized(g: Forest)
  {
    && |g.f| == |g.high| == |g.dad| == |g.at| == 2 * g.elems + 1
    && 2 <= g.k <= g.elems <= 286
  }

  /** The nodes that exist after t merges: leaves of non-zero frequency and t inner nodes. */
  ghost predicate Exists(g: Forest, t: nat, x: nat)
    requires Sized(g)
  {
    if x < g.elems then g.f[x] > 0 else x < g.elems + t
  }

  /** The listed nodes are distinct and at gives their places. */
  ghost predicate Listing(g: Forest)
    requires Sized(g)
  {
    forall i :: 0 <= i < |g.out| ==> g.out[i] < |g.at| && g.at[g.out[i]] == i
  }

  ghost predicate Listed(g: Forest, x: nat)
    requires Sized(g)
  {
    x < |g.at| && g.at[x] < |g.out| && g.out[g.at[x]] == x
  }

  /** Symbols are trees of height 0. */
  ghost predicate Flat(g: Forest)
    requires Sized(g)
  {
    forall x :: 0 <= x < g.elems && g.f[x] > 0 ==> g.high[x] == 0
  }

  /** Nodes were listed by increasing frequency, lower ones first among equally frequent ones. */
  ghost predicate Increasing(g: Forest)
    requires Sized(g) && Listing(g)
  {
    forall i, j :: 0 <= i < j < |g.out| ==> Smaller(g.f, g.high, g.out[i], g.out[j])
  }

  /** Merge s made node elems + s the father of the two nodes then listed. */
  ghost predicate Merged(g: Forest, s: nat)
    requires Sized(g) && Listing(g) && 2 * s + 1 < |g.out| && s < g.elems
  {
    var a, b, node := g.out[2 * s], g.out[2 * s + 1], g.elems + s;
    && a < node && b < node
    && g.f[node] == g.f[a] + g.f[b]
    && g.high[node] == Taller(g.high[a], g.high[b])
    && g.dad[a] == g.dad[b] == node
    && (Listed(g, node) ==> g.at[node] > 2 * s + 1)
  }

  ghost predicate MergedTo(g: Forest, t: nat)
    requires Sized(g) && Listing(g) && t < g.k && 2 * t <= |g.out|
  {
    forall s :: 0 <= s < t ==> Merged(g, s)
  }

  ghost predicate Positive(g: Forest, t: nat)
    requires Sized(g)
  {
    forall x :: 0 <= x < |g.f| && Exists(g, t, x) ==> g.f[x] > 0
  }

  // ---------- The queue ----------

  /** A node exists when it is in the queue or listed; those in the queue are not listed. */
  ghost predicate Placed(g: Forest, pos: seq<nat>, t: nat)
    requires Sized(g) && |pos| == |g.f|
  {
    && (forall x :: 0 <= x < |pos| && pos[x] == 0 && Exists(g, t, x) ==> Listed(g, x))
    && (forall x :: 0 <= x < |pos| && pos[x] > 0 ==> Exists(g, t, x) && pos[x] <= g.k - t)
    && (forall i :: 0 <= i < |g.out| ==> g.out[i] < |pos| && pos[g.out[i]] == 0 && Exists(g, t, g.out[i]))
  }

  /** Nothing left in the queue comes before a listed node. */
  ghost predicate QueueAbove(g: Forest, pos: seq<nat>)
    requires Sized(g) && |pos| == |g.f| && Listing(g)
  {
    forall i, x :: 0 <= i < |g.out| && 0 <= x < |pos| && pos[x] > 0 ==> Smaller(g.f, g.high, g.out[i], x)
  }

  /** The state after t merges. */
  ghost predicate Merging(g: Forest, h: seq<nat>, pos: seq<nat>, t: nat)
  {
    && Sized(g) && t < g.k && |pos| == |g.f| && |g.out| == 2 * t && |h| == HEAP_SIZE
    && Indexed(h, pos, g.k - t)
    && (forall i :: 0 <= i < 2 * t ==> h[HEAP_SIZE - 1 - i] == g.out[i])
    && Listing(g) && Increasing(g) && MergedTo(g, t) && Positive(g, t) && Flat(g)
    && Placed(g, pos, t) && QueueAbove(g, pos)
  }

  /** What one merge does: nodes n and m leave the queue for the list, their father enters it. */
  ghost predicate Step(g: Forest, pos: seq<nat>, g': Forest, pos': seq<nat>, t: nat, n: nat, m: nat)
    requires Sized(g) && t + 1 < g.k && |pos| == |g.f| == |pos'|
  {
    var node := g.elems + t;
    && Sized(g') && g'.elems == g.elems && g'.k == g.k
    && n < |pos| && m < |pos| && n != m && n != node && m != node
    && pos[n] > 0 && pos[m] > 0 && pos[node] == 0
    && g'.out == g.out + [n, m]
    && g'.at == g.at[n := |g.out|][m := |g.out| + 1]
    && g'.f == g.f[node := g.f[n] + g.f[m]]
    && g'.high == g.high[node := Taller(g.high[n], g.high[m])]
    && g'.dad == g.dad[n := node][m := node]
    && (forall x :: 0 <= x < |pos| ==> (pos'[x] > 0 <==> (pos[x] > 0 && x != n && x != m) || x == node))
    && (forall x :: 0 <= x < |pos| ==> pos'[x] <= g.k - (t + 1))
    // n is the first node of the queue by frequency and height, m the next one
    && (forall x :: 0 <= x < |pos| && pos[x] > 0 ==>
          Smaller(g.f, g.high, n, x) && (x != n ==> Smaller(g.f, g.high, m, x)))
  }

  lemma StepListing(g: Forest, pos: seq<nat>, g': Forest, pos': seq<nat>, t: nat, n: nat, m: nat)
    requires Sized(g) && t + 1 < g.k && |pos| == |g.f| == |pos'| && Step(g, pos, g', pos', t, n, m)
    requires Listing(g) && Placed(g, pos, t)
    ensures Listing(g')
  {
  }

  /** Everything listed comes before what is listed next. */
  lemma StepBelow(g: Forest, pos: seq<nat>, g': Forest, pos': seq<nat>, t: nat, n: nat, m: nat)
    requires Sized(g) && t + 1 < g.k && |pos| == |g.f| == |pos'| && Step(g, pos, g', pos', t, n, m)
    requires Listing(g) && Placed(g, pos, t) && QueueAbove(g, pos)
    ensures forall i :: 0 <= i < |g.out| ==>
              && g'.f[g.out[i]] == g.f[g.out[i]] && g'.high[g.out[i]] == g.high[g.out[i]]
              && Smaller(g'.f, g'.high, g.out[i], n)
    ensures Smaller(g'.f, g'.high, n, m) && Smaller(g.f, g.high, n, m) && g'.f[n] == g.f[n] && g'.f[m] == g.f[m]
  {
  }

  lemma StepIncreasing(g: Forest, pos: seq<nat>, g': Forest, pos': seq<nat>, t: nat, n: nat, m: nat)
    requires Sized(g) && t + 1 < g.k && |pos| == |g.f| == |pos'| && Step(g, pos, g', pos', t, n, m)
    requires Listing(g) && Placed(g, pos, t) && Listing(g') && Increasing(g) && QueueAbove(g, pos)
    ensures Increasing(g')
  {
    StepBelow(g, pos, g', pos', t, n, m);
    IncreasingAppend(g, g', n, m);
  }

  lemma IncreasingAppend(g: Forest, g': Forest, n: nat, m: nat)
    requires Sized(g) && Sized(g') && |g'.f| == |g.f| && Listing(g) && Listing(g') && Increasing(g)
    requires g'.out == g.out + [n, m] && n < |g.f| && m < |g.f| && |g'.high| == |g.high| == |g.f|
    requires forall i :: 0 <= i < |g.out| ==>
               && g'.f[g.out[i]] == g.f[g.out[i]] && g'.high[g.out[i]] == g.high[g.out[i]]
               && Smaller(g'.f, g'.high, g.out[i], n)
    requires Smaller(g'.f, g'.high, n, m)
    ensures Increasing(g')
  {
  }

  lemma StepAbove(g: Forest, pos: seq<nat>, g': Forest, pos': seq<nat>, t: nat, n: nat, m: nat)
    requires Sized(g) && t + 1 < g.k && |pos| == |g.f| == |pos'| && Step(g, pos, g', pos', t, n, m)
    requires Listing(g) && Placed(g, pos, t) && Listing(g') && QueueAbove(g, pos) && Positive(g, t)
    ensures QueueAbove(g', pos')
  {
    StepBelow(g, pos, g', pos', t, n, m);
    assert Exists(g, t, n);
    assert forall x :: 0 <= x < |pos| && pos'[x] > 0 ==> Smaller(g'.f, g'.high, m, x);
  }

  lemma StepExists(g: Forest, pos: seq<nat>, g': Forest, pos': seq<nat>, t: nat, n: nat, m: nat)
    requires Sized(g) && t + 1 < g.k && |pos| == |g.f| == |pos'| && Step(g, pos, g', pos', t, n, m)
    requires Placed(g, pos, t) && Positive(g, t)
    ensures forall x :: 0 <= x < |pos| ==> (Exists(g', t + 1, x) <==> Exists(g, t, x) || x == g.elems + t)
    ensures Positive(g', t + 1)
    ensures Flat(g) ==> Flat(g')
  {
    assert Exists(g, t, n) && Exists(g, t, m);
  }

  lemma StepPlaced(g: Forest, pos: seq<nat>, g': Forest, pos': seq<nat>, t: nat, n: nat, m: nat)
    requires Sized(g) && t + 1 < g.k && |pos| == |g.f| == |pos'| && Step(g, pos, g', pos', t, n, m)
    requires Listing(g) && Placed(g, pos, t)
    requires forall x :: 0 <= x < |pos| ==> (Exists(g', t + 1, x) <==> Exists(g, t, x) || x == g.elems + t)
    ensures Placed(g', pos', t + 1)
  {
    assert forall x :: Listed(g, x) && x != n && x != m ==> Listed(g', x);
    assert Listed(g', n) && Listed(g', m);
  }

  lemma StepMergedBefore(g: Forest, pos: seq<nat>, g': Forest, pos': seq<nat>, t: nat, n: nat, m: nat, s: nat)
    requires Sized(g) && t + 1 < g.k && |pos| == |g.f| == |pos'| && Step(g, pos, g', pos', t, n, m)
    requires Listing(g) && Placed(g, pos, t) && Listing(g') && |g.out| == 2 * t && s < t
    requires Merged(g, s)
    ensures Merged(g', s)
  {
    StepListed(g, pos, g', pos', t, n, m, 2 * s);
    StepListed(g, pos, g', pos', t, n, m, 2 * s + 1);
    StepFather(g, pos, g', pos', t, n, m, s);
    MergedSame(g, g', s);
  }

  lemma StepFather(g: Forest, pos: seq<nat>, g': Forest, pos': seq<nat>, t: nat, n: nat, m: nat, s: nat)
    requires Sized(g) && t + 1 < g.k && |pos| == |g.f| == |pos'| && Step(g, pos, g', pos', t, n, m)
    requires |g.out| == 2 * t && s < t
    ensures g'.f[g.elems + s] == g.f[g.elems + s] && g'.high[g.elems + s] == g.high[g.elems + s]
    ensures Listed(g', g.elems + s) ==> Listed(g, g.elems + s) || g'.at[g.elems + s] >= 2 * t
    ensures g'.at[g.elems + s] == g.at[g.elems + s] || g'.at[g.elems + s] >= 2 * t
  {
  }

  lemma MergedSame(g: Forest, g': Forest, s: nat)
    requires Sized(g) && Sized(g') && g'.elems == g.elems && s < g.elems
    requires Listing(g) && Listing(g') && 2 * s + 1 < |g.out| <= |g'.out|
    requires forall i :: 2 * s <= i <= 2 * s + 1 ==>
               && g'.out[i] == g.out[i]
               && g'.f[g.out[i]] == g.f[g.out[i]] && g'.dad[g.out[i]] == g.dad[g.out[i]]
               && g'.high[g.out[i]] == g.high[g.out[i]]
    requires g'.f[g.elems + s] == g.f[g.elems + s] && g'.high[g.elems + s] == g.high[g.elems + s]
    requires Listed(g', g.elems + s) ==> Listed(g, g.elems + s) || g'.at[g.elems + s] >= |g.out|
    requires g'.at[g.elems + s] == g.at[g.elems + s] || g'.at[g.elems + s] >= |g.out|
    requires Merged(g, s)
    ensures Merged(g', s)
  {
  }

  /** What was listed before stays as it was. */
  lemma StepListed(g: Forest, pos: seq<nat>, g': Forest, pos': seq<nat>, t: nat, n: nat, m: nat, i: nat)
    requires Sized(g) && t + 1 < g.k && |pos| == |g.f| == |pos'| && Step(g, pos, g', pos', t, n, m)
    requires Listing(g) && Placed(g, pos, t) && i < |g.out|
    ensures g'.out[i] == g.out[i] < |g.f|
    ensures g'.f[g.out[i]] == g.f[g.out[i]] && g'.dad[g.out[i]] == g.dad[g.out[i]]
    ensures g'.high[g.out[i]] == g.high[g.out[i]]
  {
  }

  lemma StepMergedNow(g: Forest, pos: seq<nat>, g': Forest, pos': seq<nat>, t: nat, n: nat, m: nat)
    requires Sized(g) && t + 1 < g.k && |pos| == |g.f| == |pos'| && Step(g, pos, g', pos', t, n, m)
    requires Listing(g) && Placed(g, pos, t) && Listing(g') && |g.out| == 2 * t
    ensures Merged(g', t)
  {
    assert Exists(g, t, n) && Exists(g, t, m);
    assert g'.out[2 * t] == n && g'.out[2 * t + 1] == m;
    assert !Exists(g, t, g.elems + t);
  }

  lemma StepMergedTo(g: Forest, pos: seq<nat>, g': Forest, pos': seq<nat>, t: nat, n: nat, m: nat)
    requires Sized(g) && t + 1 < g.k && |pos| == |g.f| == |pos'| && Step(g, pos, g', pos', t, n, m)
    requires Listing(g) && Placed(g, pos, t) && Listing(g') && |g.out| == 2 * t && MergedTo(g, t)
    ensures MergedTo(g', t + 1)
  {
    forall s | 0 <= s < t + 1 ensures Merged(g', s) {
      if s < t {
        assert Merged(g, s);
        StepMergedBefore(g, pos, g', pos', t, n, m, s);
      } else {
        StepMergedNow(g, pos, g', pos', t, n, m);
      }
    }
  }

  lemma StepOnHeap(g: Forest, h: seq<nat>, g': Forest, h': seq<nat>, t: nat, n: nat, m: nat)
    requires |h| == |h'| == HEAP_SIZE && |g.out| == 2 * t && t <= 284 && g'.out == g.out + [n, m]
    requires forall i :: 0 <= i < 2 * t ==> h[HEAP_SIZE - 1 - i] == g.out[i]
    requires forall p :: HEAP_SIZE - 2 * t <= p < HEAP_SIZE ==> h'[p] == h[p]
    requires h'[HEAP_SIZE - 1 - 2 * t] == n && h'[HEAP_SIZE - 2 - 2 * t] == m
    ensures forall i :: 0 <= i < 2 * (t + 1) ==> h'[HEAP_SIZE - 1 - i] == g'.out[i]
  {
  }

  /** Merging the two first nodes of the queue keeps the state consistent. */
  lemma StepKeeps(g: Forest, h: seq<nat>, pos: seq<nat>, g': Forest, h': seq<nat>, pos': seq<nat>,
                  t: nat, n: nat, m: nat)
    requires Merging(g, h, pos, t) && t + 1 < g.k && |pos'| == |pos| && Step(g, pos, g', pos', t, n, m)
    requires |h'| == HEAP_SIZE && Indexed(h', pos', g.k - (t + 1))
    requires forall p :: HEAP_SIZE - 2 * t <= p < HEAP_SIZE ==> h'[p] == h[p]
    requires h'[HEAP_SIZE - 1 - 2 * t] == n && h'[HEAP_SIZE - 2 - 2 * t] == m
    ensures Merging(g', h', pos', t + 1)
  {
    StepListing(g, pos, g', pos', t, n, m);
    assert Increasing(g') by { StepIncreasing(g, pos, g', pos', t, n, m); }
    assert QueueAbove(g', pos') by { StepAbove(g, pos, g', pos', t, n, m); }
    assert Positive(g', t + 1) && Flat(g') by { StepExists(g, pos, g', pos', t, n, m); }
    assert Placed(g', pos', t + 1) by {
      StepExists(g, pos, g', pos', t, n, m);
      StepPlaced(g, pos, g', pos', t, n, m);
    }
    assert MergedTo(g', t + 1) by { StepMergedTo(g, pos, g', pos', t, n, m); }
    StepOnHeap(g, h, g', h', t, n, m);
  }

  /** The finished tree: all nodes are listed, the root last. */
  ghost predicate Tree(g: Forest)
  {
    && Sized(g) && |g.out| == 2 * g.k - 1
    && Listing(g) && Increasing(g) && MergedTo(g, g.k - 1) && Positive(g, g.k - 1) && Flat(g)
    && (forall x :: 0 <= x < |g.f| && Exists(g, g.k - 1, x) ==> Listed(g, x))
    && (forall i :: 0 <= i < |g.out| ==> Exists(g, g.k - 1, g.out[i]))
    && g.out[2 * g.k - 2] == Root(g)
  }

  function Root(g: Forest): nat
    requires g.k >= 2
  {
    g.elems + g.k - 2
  }

  lemma TreeSize(g: Forest)
    requires Tree(g)
    ensures Sized(g) && |g.out| == 2 * g.k - 1 && g.out[2 * g.k - 2] == Root(g) < |g.f|
  {
  }

  lemma ListedExists(g: Forest, x: nat)
    requires Tree(g) && x < |g.f|
    ensures Listed(g, x) <==> Exists(g, g.k - 1, x)
  {
    if Listed(g, x) {
      assert Exists(g, g.k - 1, g.out[g.at[x]]);
    }
  }

  /** When one node is left in the queue it is the root, and listing it finishes the tree. */
  lemma LastIsRoot(g: Forest, h: seq<nat>, pos: seq<nat>)
    requires g.k >= 1 && Merging(g, h, pos, g.k - 1)
    ensures h[1] == Root(g)
    ensures Tree(g.(out := g.out + [h[1]], at := g.at[h[1] := |g.out|]))
  {
    var r := Root(g);
    RootInQueue(g, h, pos);
    var g' := g.(out := g.out + [r], at := g.at[r := |g.out|]);
    RootListed(g, g', pos, r);
    assert MergedTo(g', g.k - 1) by { RootMergedTo(g, g', r); }
    assert Increasing(g') by { RootIncreasing(g, g', pos, r); }
  }

  lemma RootInQueue(g: Forest, h: seq<nat>, pos: seq<nat>)
    requires Sized(g) && |pos| == |g.f| && |g.out| == 2 * g.k - 2 && Listing(g)
    requires Indexed(h, pos, 1) && Placed(g, pos, g.k - 1) && MergedTo(g, g.k - 1)
    ensures pos[Root(g)] == 1 && h[1] == Root(g)
    ensures forall x :: 0 <= x < |pos| && pos[x] > 0 ==> x == Root(g)
  {
    var r := Root(g);
    assert Exists(g, g.k - 1, r);
    assert Merged(g, g.k - 2);
    assert pos[r] == 1;
  }

  lemma RootListed(g: Forest, g': Forest, pos: seq<nat>, r: nat)
    requires Sized(g) && |pos| == |g.f| && |g.out| == 2 * g.k - 2 && Listing(g)
    requires Placed(g, pos, g.k - 1) && r == Root(g) && pos[r] > 0
    requires forall x :: 0 <= x < |pos| && pos[x] > 0 ==> x == r
    requires g' == g.(out := g.out + [r], at := g.at[r := |g.out|])
    ensures Listing(g')
    ensures forall x :: 0 <= x < |g.f| && Exists(g', g.k - 1, x) ==> Listed(g', x)
    ensures forall i :: 0 <= i < |g'.out| ==> Exists(g', g.k - 1, g'.out[i])
  {
    forall x | 0 <= x < |g.f| && Exists(g', g.k - 1, x) ensures Listed(g', x) {
      assert Exists(g, g.k - 1, x);
      assert x != r ==> Listed(g, x);
    }
    forall i | 0 <= i < |g'.out| ensures Exists(g', g.k - 1, g'.out[i]) {
      assert i < |g.out| ==> Exists(g, g.k - 1, g.out[i]);
    }
  }

  lemma RootMergedTo(g: Forest, g': Forest, r: nat)
    requires Sized(g) && Listing(g) && |g.out| == 2 * g.k - 2 && MergedTo(g, g.k - 1)
    requires r < |g.f| && g' == g.(out := g.out + [r], at := g.at[r := |g.out|]) && Listing(g')
    ensures MergedTo(g', g.k - 1)
  {
    forall s | 0 <= s < g.k - 1 ensures Merged(g', s) {
      assert Merged(g, s);
      assert g'.out[2 * s] == g.out[2 * s] && g'.out[2 * s + 1] == g.out[2 * s + 1];
    }
  }

  lemma RootIncreasing(g: Forest, g': Forest, pos: seq<nat>, r: nat)
    requires Sized(g) && Listing(g) && |pos| == |g.f| && Increasing(g) && QueueAbove(g, pos)
    requires r < |g.f| && pos[r] > 0 && g' == g.(out := g.out + [r], at := g.at[r := |g.out|]) && Listing(g')
    ensures Increasing(g')
  {
  }
}
