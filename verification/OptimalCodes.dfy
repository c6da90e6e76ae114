/** Huffman's theorem, independently of any tree: repeatedly merging the two smallest weights
    costs no more than any binary prefix code. Weights are vectors in which 0 means "absent". */
module OptimalCodes {
  import opened Sums

  /** Weight times code length, symbol by symbol. */
  function Weighted(w: seq<nat>, lens: seq<nat>): (r: seq<int>)
    requires |w| == |lens|
    ensures |r| == |w|
  {
    seq(|w|, i requires 0 <= i < |w| => w[i] * lens[i])
  }

  function Cost(w: seq<nat>, lens: seq<nat>): int
    requires |w| == |lens|
  {
    Sum(Weighted(w, lens))
  }

  /** The part of the 2^limit strings of length limit taken by a present symbol of length len. */
  function Share(weight: nat, len: nat, limit: nat): nat
  {
    if weight == 0 || len > limit then 0 else Pow2(limit - len)
  }

  function Shares(w: seq<nat>, lens: seq<nat>, limit: nat): (r: seq<int>)
    requires |w| == |lens|
    ensures |r| == |w|
  {
    seq(|w|, i requires 0 <= i < |w| => Share(w[i], lens[i], limit))
  }

  /** The Kraft inequality for the symbols present in w. */
  ghost predicate Kraft(w: seq<nat>, lens: seq<nat>, limit: nat)
  {
    && |w| == |lens|
    && (forall i :: 0 <= i < |w| && w[i] > 0 ==> lens[i] <= limit)
    && Sum(Shares(w, lens, limit)) <= Pow2(limit)
  }

  /** No lengths within the Kraft inequality cost less. */
  ghost predicate Optimal(w: seq<nat>, lens: seq<nat>)
    requires |w| == |lens|
  {
    forall ls: seq<nat>, limit: nat :: Kraft(w, ls, limit) ==> Cost(w, lens) <= Cost(w, ls)
  }

  // ---------- Prefix codes satisfy the Kraft inequality ----------

  ghost predicate PrefixCode(w: seq<nat>, words: seq<seq<bool>>)
  {
    && |w| == |words|
    && forall i, j :: 0 <= i < |w| && 0 <= j < |w| && i != j && w[i] > 0 && w[j] > 0 ==> !(words[i] <= words[j])
  }

  function Lengths(words: seq<seq<bool>>): (r: seq<nat>)
    ensures |r| == |words|
  {
    seq(|words|, i requires 0 <= i < |words| => |words[i]|)
  }

  /** The symbols of w whose word starts with bit b. */
  function Starting(w: seq<nat>, words: seq<seq<bool>>, b: bool): (r: seq<nat>)
    requires |w| == |words|
    ensures |r| == |w|
  {
    seq(|w|, i requires 0 <= i < |w| => if words[i] != [] && words[i][0] == b then w[i] else 0)
  }

  function Tails(words: seq<seq<bool>>): (r: seq<seq<bool>>)
    ensures |r| == |words|
  {
    seq(|words|, i requires 0 <= i < |words| => if words[i] == [] then [] else words[i][1..])
  }

  lemma {:induction false} PrefixCodeKraft(w: seq<nat>, words: seq<seq<bool>>, limit: nat)
    requires PrefixCode(w, words)
    requires forall i :: 0 <= i < |w| && w[i] > 0 ==> |words[i]| <= limit
    ensures Kraft(w, Lengths(words), limit)
    decreases limit
  {
    if i :| 0 <= i < |w| && w[i] > 0 && words[i] == [] {
      OnlyEmptyWord(w, words, limit, i);
    } else if limit == 0 {
      assert forall i :: 0 <= i < |w| ==> Shares(w, Lengths(words), 0)[i] == 0;
      SumZero(Shares(w, Lengths(words), 0));
    } else {
      var tails := Tails(words);
      forall b: bool ensures Kraft(Starting(w, words, b), Lengths(tails), limit - 1) {
        TailsPrefixCode(w, words, b);
        PrefixCodeKraft(Starting(w, words, b), tails, limit - 1);
      }
      SharesByFirstBit(w, words, limit);
    }
  }

  lemma SharesByFirstBit(w: seq<nat>, words: seq<seq<bool>>, limit: nat)
    requires |w| == |words| && limit > 0
    requires forall i :: 0 <= i < |w| && w[i] > 0 ==> words[i] != []
    ensures Sum(Shares(w, Lengths(words), limit)) ==
            Sum(Shares(Starting(w, words, false), Lengths(Tails(words)), limit - 1)) +
            Sum(Shares(Starting(w, words, true), Lengths(Tails(words)), limit - 1))
  {
    SumSplit(Shares(w, Lengths(words), limit),
             Shares(Starting(w, words, false), Lengths(Tails(words)), limit - 1),
             Shares(Starting(w, words, true), Lengths(Tails(words)), limit - 1));
  }

  lemma OnlyEmptyWord(w: seq<nat>, words: seq<seq<bool>>, limit: nat, i: nat)
    requires PrefixCode(w, words) && i < |w| && w[i] > 0 && words[i] == []
    ensures Sum(Shares(w, Lengths(words), limit)) == Pow2(limit)
  {
    var s := Shares(w, Lengths(words), limit);
    forall k | 0 <= k < |w| && k != i ensures s[k] == 0 {
      assert words[i] <= words[k];
    }
    SumUpdate(s, i, 0);
    SumZero(s[i := 0]);
  }

  lemma TailsPrefixCode(w: seq<nat>, words: seq<seq<bool>>, b: bool)
    requires PrefixCode(w, words)
    ensures PrefixCode(Starting(w, words, b), Tails(words))
  {
    var v, tails := Starting(w, words, b), Tails(words);
    forall i, j | 0 <= i < |v| && 0 <= j < |v| && i != j && v[i] > 0 && v[j] > 0
      ensures !(tails[i] <= tails[j])
    {
      assert words[i] == [b] + tails[i] && words[j] == [b] + tails[j];
    }
  }

  // ---------- Changing the limit ----------

  lemma {:induction false} SharesShift(w: seq<nat>, lens: seq<nat>, low: nat, high: nat)
    requires |w| == |lens| && low <= high
    requires forall i :: 0 <= i < |w| && w[i] > 0 ==> lens[i] <= low
    ensures Sum(Shares(w, lens, high)) == Shl(Sum(Shares(w, lens, low)), high - low)
  {
    if w == [] {
      ShlOne(high - low);
    } else {
      var last := |w| - 1;
      var w', lens' := w[..last], lens[..last];
      SharesShift(w', lens', low, high);
      SharesLast(w, lens, low);
      SharesLast(w, lens, high);
      var k := high - low;
      ShlSum(Sum(Shares(w', lens', low)), Share(w[last], lens[last], low), k);
      if w[last] > 0 {
        ShlPow2(low - lens[last], k);
      } else {
        ShlOne(k);
      }
    }
  }

  lemma SharesLast(w: seq<nat>, lens: seq<nat>, limit: nat)
    requires |w| == |lens| > 0
    ensures Sum(Shares(w, lens, limit)) ==
            Sum(Shares(w[..|w| - 1], lens[..|w| - 1], limit)) + Share(w[|w| - 1], lens[|w| - 1], limit)
  {
    assert Shares(w, lens, limit)[..|w| - 1] == Shares(w[..|w| - 1], lens[..|w| - 1], limit);
  }

  /** The Kraft inequality does not depend on the limit chosen. */
  lemma KraftLimit(w: seq<nat>, lens: seq<nat>, low: nat, high: nat)
    requires |w| == |lens| && low <= high
    requires forall i :: 0 <= i < |w| && w[i] > 0 ==> lens[i] <= low
    ensures Kraft(w, lens, low) <==> Kraft(w, lens, high)
  {
    SharesShift(w, lens, low, high);
    ShlPow2(low, high - low);
    ShlOrder(Sum(Shares(w, lens, low)), Pow2(low), high - low);
  }

  // ---------- Changing one length ----------

  lemma CostChange(w: seq<nat>, lens: seq<nat>, i: nat, l: nat)
    requires |w| == |lens| && i < |w|
    ensures Cost(w, lens[i := l]) == Cost(w, lens) + w[i] * l - w[i] * lens[i]
  {
    assert Weighted(w, lens[i := l]) == Weighted(w, lens)[i := w[i] * l];
    SumUpdate(Weighted(w, lens), i, w[i] * l);
  }

  lemma SharesChange(w: seq<nat>, lens: seq<nat>, i: nat, l: nat, limit: nat)
    requires |w| == |lens| && i < |w|
    ensures Sum(Shares(w, lens[i := l], limit)) ==
            Sum(Shares(w, lens, limit)) - Share(w[i], lens[i], limit) + Share(w[i], l, limit)
  {
    assert Shares(w, lens[i := l], limit) == Shares(w, lens, limit)[i := Share(w[i], l, limit)];
    SumUpdate(Shares(w, lens, limit), i, Share(w[i], l, limit));
  }

  function Swap(lens: seq<nat>, i: nat, j: nat): (r: seq<nat>)
    requires i < |lens| && j < |lens|
    ensures |r| == |lens|
  {
    lens[i := lens[j]][j := lens[i]]
  }

  /** Exchanging lengths so that the lighter symbol gets the longer code never costs. */
  lemma SwapLengths(w: seq<nat>, lens: seq<nat>, i: nat, j: nat, limit: nat)
    requires Kraft(w, lens, limit) && i < |w| && j < |w| && w[i] > 0 && w[j] > 0
    requires w[i] <= w[j] && lens[i] <= lens[j]
    ensures Kraft(w, Swap(lens, i, j), limit)
    ensures Cost(w, Swap(lens, i, j)) <= Cost(w, lens)
  {
    var mid := lens[i := lens[j]];
    SharesChange(w, lens, i, lens[j], limit);
    SharesChange(w, mid, j, lens[i], limit);
    CostChange(w, lens, i, lens[j]);
    CostChange(w, mid, j, lens[i]);
    SwapArithmetic(w[i], w[j], lens[i], lens[j]);
  }

  /** It saves bits when the symbol is rarer and its code is shorter. */
  lemma SwapSaves(w: seq<nat>, lens: seq<nat>, i: nat, j: nat)
    requires |w| == |lens| && i < |w| && j < |w| && w[i] < w[j] && lens[i] < lens[j]
    ensures Cost(w, Swap(lens, i, j)) < Cost(w, lens)
  {
    var mid := lens[i := lens[j]];
    CostChange(w, lens, i, lens[j]);
    CostChange(w, mid, j, lens[i]);
    SwapStrict(w[i], w[j], lens[i], lens[j]);
  }

  lemma SwapStrict(a: int, b: int, x: int, y: int)
    requires a < b && x < y
    ensures a * y + b * x < a * x + b * y
  {
    assert (b - a) * (y - x) > 0;
  }

  lemma SwapArithmetic(a: int, b: int, x: int, y: int)
    requires a <= b && x <= y
    ensures a * y + b * x <= a * x + b * y
  {
    assert (b - a) * (y - x) >= 0;
  }

  // ---------- Two deepest symbols ----------

  lemma {:induction false} Deepest(w: seq<nat>, lens: seq<nat>) returns (p: nat)
    requires |w| == |lens|
    requires exists i :: 0 <= i < |w| && w[i] > 0
    ensures p < |w| && w[p] > 0
    ensures forall i :: 0 <= i < |w| && w[i] > 0 ==> lens[i] <= lens[p]
  {
    var last := |w| - 1;
    if exists i :: 0 <= i < last && w[i] > 0 {
      assert forall i :: 0 <= i < last ==> w[..last][i] == w[i] && lens[..last][i] == lens[i];
      p := Deepest(w[..last], lens[..last]);
      if w[last] > 0 && lens[last] > lens[p] {
        p := last;
      }
    } else {
      p := last;
    }
  }

  lemma {:induction false} SumEven(s: seq<int>)
    requires forall i :: 0 <= i < |s| ==> s[i] % 2 == 0
    ensures Sum(s) % 2 == 0
  {
    if s != [] {
      SumEven(s[..|s| - 1]);
    }
  }

  /** A symbol alone at the deepest level leaves its sibling free: it can move up. */
  lemma LoneDeepest(w: seq<nat>, lens: seq<nat>, p: nat)
    requires p < |w| && w[p] > 0 && lens != []  && |lens| == |w| && Kraft(w, lens, lens[p]) && lens[p] > 0
    requires forall i :: 0 <= i < |w| && w[i] > 0 && i != p ==> lens[i] < lens[p]
    ensures Kraft(w, lens[p := lens[p] - 1], lens[p])
  {
    var m := lens[p];
    var s := Shares(w, lens, m);
    SumUpdate(s, p, 0);
    assert s[p] == 1;
    var others := s[p := 0];
    forall i | 0 <= i < |others| ensures others[i] % 2 == 0 {
      if i != p && w[i] > 0 {
        assert Pow2(m - lens[i]) == 2 * Pow2(m - lens[i] - 1);
      }
    }
    SumEven(others);
    assert Pow2(m) == 2 * Pow2(m - 1);
    SharesChange(w, lens, p, m - 1, m);
    assert Pow2(1) == 2;
  }

  /** Two symbols cannot both have the empty codeword. */
  lemma DeepestPositive(w: seq<nat>, lens: seq<nat>, i: nat, j: nat, limit: nat)
    requires Kraft(w, lens, limit) && i < |w| && j < |w| && i != j && w[i] > 0 && w[j] > 0
    ensures lens[i] > 0 || lens[j] > 0
  {
    SumTwoMembers(Shares(w, lens, limit), i, j);
  }

  /** Without raising the cost, two symbols share the deepest level. */
  lemma {:induction false} TwoDeepest(w: seq<nat>, lens: seq<nat>, limit: nat, a: nat, b: nat)
      returns (ls: seq<nat>, p: nat, q: nat)
    requires Kraft(w, lens, limit) && a < |w| && b < |w| && a != b && w[a] > 0 && w[b] > 0
    ensures |ls| == |w| && p < |w| && q < |w| && p != q && w[p] > 0 && w[q] > 0
    ensures Kraft(w, ls, ls[p]) && Cost(w, ls) <= Cost(w, lens)
    ensures ls[p] == ls[q] > 0
    ensures forall i :: 0 <= i < |w| && w[i] > 0 ==> ls[i] <= ls[p]
    ensures forall i :: 0 <= i < |w| ==> ls[i] <= lens[i]
    decreases Measure(w, lens)
  {
    p := Deepest(w, lens);
    KraftLimit(w, lens, lens[p], limit);
    DeepestPositive(w, lens, a, b, limit);
    if k :| 0 <= k < |w| && w[k] > 0 && k != p && lens[k] == lens[p] {
      ls, q := lens, k;
    } else {
      LoneDeepest(w, lens, p);
      CostChange(w, lens, p, lens[p] - 1);
      LowerOne(w, lens, p);
      ls, p, q := TwoDeepest(w, lens[p := lens[p] - 1], lens[p], a, b);
    }
  }

  function Measure(w: seq<nat>, lens: seq<nat>): nat
    requires |w| == |lens|
  {
    var c := Cost(w, lens);
    if c < 0 then 0 else c
  }

  lemma CostNonNegative(w: seq<nat>, lens: seq<nat>)
    requires |w| == |lens|
    ensures Cost(w, lens) >= 0
  {
    var z := seq(|w|, i => 0);
    SumZero(z);
    SumMono(z, Weighted(w, lens));
  }

  lemma LowerOne(w: seq<nat>, lens: seq<nat>, p: nat)
    requires |w| == |lens| && p < |w| && w[p] > 0 && lens[p] > 0
    ensures Measure(w, lens[p := lens[p] - 1]) < Measure(w, lens)
    ensures Cost(w, lens[p := lens[p] - 1]) <= Cost(w, lens)
  {
    CostChange(w, lens, p, lens[p] - 1);
    assert w[p] * (lens[p] - 1) == w[p] * lens[p] - w[p];
    CostNonNegative(w, lens[p := lens[p] - 1]);
  }

  // ---------- Merging the two smallest weights ----------

  ghost predicate Lightest(w: seq<nat>, i: nat, j: nat)
  {
    && i < |w| && j < |w| && i != j && w[i] > 0 && w[j] > 0
    && (forall k :: 0 <= k < |w| && w[k] > 0 ==> w[i] <= w[k])
    && (forall k :: 0 <= k < |w| && w[k] > 0 && k != i ==> w[j] <= w[k])
  }

  /** Replace the symbols at i and j by one symbol at k, of their joint weight. */
  datatype Merge = Merge(i: nat, j: nat, k: nat)

  function Joined(w: seq<nat>, m: Merge): (r: seq<nat>)
    requires m.i < |w| && m.j < |w| && m.k < |w|
    ensures |r| == |w|
  {
    w[m.i := 0][m.j := 0][m.k := w[m.i] + w[m.j]]
  }

  /** Huffman's construction: every merge takes the two lightest symbols left. */
  ghost predicate Greedy(w: seq<nat>, merges: seq<Merge>)
    decreases |merges|
  {
    merges == [] ||
    var m := merges[0];
    && Lightest(w, m.i, m.j) && m.k < |w| && w[m.k] == 0
    && Greedy(Joined(w, m), merges[1..])
  }

  /** The total weight of all merged pairs. */
  ghost function MergeCost(w: seq<nat>, merges: seq<Merge>): nat
    requires Greedy(w, merges)
    decreases |merges|
  {
    if merges == [] then 0
    else w[merges[0].i] + w[merges[0].j] + MergeCost(Joined(w, merges[0]), merges[1..])
  }

  /** Without raising the cost, the two lightest symbols share the deepest level. */
  lemma LightestDeepest(w: seq<nat>, lens: seq<nat>, limit: nat, i: nat, j: nat) returns (ls: seq<nat>, m: nat)
    requires Kraft(w, lens, limit) && Lightest(w, i, j)
    ensures m > 0 && Kraft(w, ls, m) && Cost(w, ls) <= Cost(w, lens)
    ensures ls[i] == ls[j] == m
  {
    var p, q;
    ls, p, q := TwoDeepest(w, lens, limit, i, j);
    m := ls[p];
    if i == q { p, q := q, p; }
    if i != p {
      SwapLengths(w, ls, i, p, m);
      ls := Swap(ls, i, p);
    }
    if j != q {
      SwapLengths(w, ls, j, q, m);
      ls := Swap(ls, j, q);
    }
  }

  /** Merging two sibling symbols saves exactly their joint weight and keeps the Kraft sum. */
  lemma MergeSiblings(w: seq<nat>, lens: seq<nat>, l: nat, m: Merge)
    requires Kraft(w, lens, l) && Lightest(w, m.i, m.j) && m.k < |w| && w[m.k] == 0
    requires lens[m.i] == lens[m.j] == l > 0
    ensures Kraft(Joined(w, m), lens[m.k := l - 1], l)
    ensures Cost(Joined(w, m), lens[m.k := l - 1]) == Cost(w, lens) - w[m.i] - w[m.j]
  {
    MergeShares(w, lens, l, m);
    MergeWeighted(w, lens, l, m);
  }

  lemma MergeShares(w: seq<nat>, lens: seq<nat>, l: nat, m: Merge)
    requires Kraft(w, lens, l) && Lightest(w, m.i, m.j) && m.k < |w| && w[m.k] == 0
    requires lens[m.i] == lens[m.j] == l > 0
    ensures Sum(Shares(Joined(w, m), lens[m.k := l - 1], l)) == Sum(Shares(w, lens, l))
  {
    var s := Shares(w, lens, l);
    assert Pow2(1) == 2;
    assert Shares(Joined(w, m), lens[m.k := l - 1], l) == s[m.i := 0][m.j := 0][m.k := 2];
    SumUpdate3(s, m.i, 0, m.j, 0, m.k, 2);
  }

  lemma MergeWeighted(w: seq<nat>, lens: seq<nat>, l: nat, m: Merge)
    requires |w| == |lens| && Lightest(w, m.i, m.j) && m.k < |w| && w[m.k] == 0
    requires lens[m.i] == lens[m.j] == l > 0
    ensures Cost(Joined(w, m), lens[m.k := l - 1]) == Cost(w, lens) - w[m.i] - w[m.j]
  {
    var c, x := Weighted(w, lens), (w[m.i] + w[m.j]) * (l - 1);
    assert Weighted(Joined(w, m), lens[m.k := l - 1]) == c[m.i := 0][m.j := 0][m.k := x];
    SumUpdate3(c, m.i, 0, m.j, 0, m.k, x);
    SplitProduct(w[m.i], w[m.j], l);
  }

  lemma SplitProduct(a: int, b: int, l: int)
    ensures (a + b) * (l - 1) == a * l + b * l - a - b
  {
  }

  /** Huffman's theorem: no assignment of lengths within the Kraft inequality costs less than
      the merged weights. */
  lemma {:induction false} HuffmanOptimal(w: seq<nat>, merges: seq<Merge>, lens: seq<nat>, limit: nat)
    requires Kraft(w, lens, limit) && Greedy(w, merges)
    ensures MergeCost(w, merges) <= Cost(w, lens)
    decreases |merges|
  {
    if merges == [] {
      CostNonNegative(w, lens);
    } else {
      var m := merges[0];
      var ls, l := LightestDeepest(w, lens, limit, m.i, m.j);
      MergeSiblings(w, ls, l, m);
      HuffmanOptimal(Joined(w, m), merges[1..], ls[m.k := l - 1], l);
    }
  }

  /** In particular no binary prefix code costs less. */
  lemma HuffmanOptimalPrefixCode(w: seq<nat>, merges: seq<Merge>, words: seq<seq<bool>>)
    requires PrefixCode(w, words) && Greedy(w, merges)
    ensures MergeCost(w, merges) <= Cost(w, Lengths(words))
  {
    var limit := LongestWord(words);
    PrefixCodeKraft(w, words, limit);
    HuffmanOptimal(w, merges, Lengths(words), limit);
  }

  lemma {:induction false} LongestWord(words: seq<seq<bool>>) returns (limit: nat)
    ensures forall i :: 0 <= i < |words| ==> |words[i]| <= limit
  {
    if words == [] {
      limit := 0;
    } else {
      var last := |words| - 1;
      limit := LongestWord(words[..last]);
      assert forall i :: 0 <= i < last ==> words[..last][i] == words[i];
      limit := if limit < |words[last]| then |words[last]| else limit;
    }
  }
}
