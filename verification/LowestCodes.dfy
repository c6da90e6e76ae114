/** Why equally light trees are merged lowest first: of all codes of least cost, the one Huffman's
    construction then makes has the shortest longest codeword. Independently of any tree: the height
    of a weight says how far the symbols it stands for lie below it. */
module LowestCodes {
  import opened Sums
  import opened TreeHeap
  import opened OptimalCodes

  /** i comes before every other weight present, j before every other one but i. */
  ghost predicate FirstTwo(w: seq<nat>, h: seq<nat>, i: nat, j: nat)
    requires |h| == |w| && i < |w| && j < |w|
  {
    forall x :: 0 <= x < |w| && w[x] > 0 ==> Smaller(w, h, i, x) && (x != i ==> Smaller(w, h, j, x))
  }

  /** Every merge takes the lowest of equally light weights, and h says how high what it makes is. */
  ghost predicate LowFirst(w: seq<nat>, h: seq<nat>, merges: seq<Merge>)
    decreases |merges|
  {
    && |h| == |w|
    && (merges == [] ||
        var m := merges[0];
        && m.i < |w| && m.j < |w| && m.k < |w|
        && FirstTwo(w, h, m.i, m.j) && h[m.k] == Taller(h[m.i], h[m.j])
        && LowFirst(Joined(w, m), h, merges[1..]))
  }

  /** The weights left after all merges. */
  ghost function Remaining(w: seq<nat>, merges: seq<Merge>): (r: seq<nat>)
    requires Greedy(w, merges)
    ensures |r| == |w|
    decreases |merges|
  {
    if merges == [] then w else Remaining(Joined(w, merges[0]), merges[1..])
  }

  /** With codewords of these lengths no symbol has more than b bits. */
  ghost predicate Within(w: seq<nat>, h: seq<nat>, lens: seq<nat>, b: nat)
  {
    |w| == |h| == |lens| && forall x :: 0 <= x < |w| && w[x] > 0 ==> lens[x] + h[x] <= b
  }

  /** In a code of least cost, the earlier of two weights can always have the longer codeword. */
  lemma SwapWithin(w: seq<nat>, h: seq<nat>, merges: seq<Merge>, lens: seq<nat>, i: nat, p: nat, limit: nat, b: nat)
    requires Kraft(w, lens, limit) && Greedy(w, merges) && Cost(w, lens) <= MergeCost(w, merges)
    requires Within(w, h, lens, b) && i < |w| && p < |w| && w[i] > 0 && w[p] > 0
    requires Smaller(w, h, i, p) && lens[i] <= lens[p]
    ensures Kraft(w, Swap(lens, i, p), limit) && Cost(w, Swap(lens, i, p)) <= MergeCost(w, merges)
    ensures Within(w, h, Swap(lens, i, p), b)
  {
    hide Kraft, Cost, Greedy, MergeCost;
    SwapLengths(w, lens, i, p, limit);
    HuffmanOptimal(w, merges, Swap(lens, i, p), limit);
    if lens[i] < lens[p] && w[i] < w[p] {
      SwapSaves(w, lens, i, p);
    }
  }

  /** Without raising the cost or anyone's number of bits beyond b, the first two weights share the
      deepest level. */
  lemma FirstDeepest(w: seq<nat>, h: seq<nat>, merges: seq<Merge>, lens: seq<nat>, limit: nat, b: nat)
      returns (ls: seq<nat>, l: nat)
    requires Kraft(w, lens, limit) && Greedy(w, merges) && Cost(w, lens) <= MergeCost(w, merges)
    requires merges != [] && LowFirst(w, h, merges) && Within(w, h, lens, b)
    ensures l > 0 && Kraft(w, ls, l) && Cost(w, ls) <= MergeCost(w, merges) && Within(w, h, ls, b)
    ensures ls[merges[0].i] == ls[merges[0].j] == l
  {
    hide Cost, MergeCost;
    var i, j := merges[0].i, merges[0].j;
    var p, q;
    ls, p, q := TwoDeepest(w, lens, limit, i, j);
    l := ls[p];
    if i == q { p, q := q, p; }
    if i != p {
      SwapWithin(w, h, merges, ls, i, p, l, b);
      ls := Swap(ls, i, p);
    }
    if j != q {
      SwapWithin(w, h, merges, ls, j, q, l, b);
      ls := Swap(ls, j, q);
    }
  }

  lemma JoinedWithin(w: seq<nat>, h: seq<nat>, ls: seq<nat>, l: nat, b: nat, m: Merge)
    requires Within(w, h, ls, b) && m.i < |w| && m.j < |w| && m.k < |w| && w[m.i] > 0 && w[m.j] > 0
    requires ls[m.i] == ls[m.j] == l > 0 && h[m.k] == Taller(h[m.i], h[m.j])
    ensures Within(Joined(w, m), h, ls[m.k := l - 1], b)
  {
  }

  /** If some code of least cost has no codeword of more than b bits, what remains of the merges is
      no higher than b. */
  lemma {:induction false} LowestHeight(w: seq<nat>, h: seq<nat>, merges: seq<Merge>, lens: seq<nat>, limit: nat, b: nat)
    requires Kraft(w, lens, limit) && Greedy(w, merges) && LowFirst(w, h, merges)
    requires Cost(w, lens) <= MergeCost(w, merges) && Within(w, h, lens, b)
    ensures forall x :: 0 <= x < |w| && Remaining(w, merges)[x] > 0 ==> h[x] <= b
    decreases |merges|
  {
    hide Cost;
    if merges != [] {
      var m := merges[0];
      var ls, l := FirstDeepest(w, h, merges, lens, limit, b);
      MergeSiblings(w, ls, l, m);
      JoinedWithin(w, h, ls, l, b, m);
      LowestHeight(Joined(w, m), h, merges[1..], ls[m.k := l - 1], l, b);
    }
  }
}
