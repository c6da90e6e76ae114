/** Where scan_tree and send_tree cut the runs of equal code lengths, stated without following their
    loops: every repeat symbol takes what is left of its run, up to the maximum section 3.2.7 of
    RFC 1951 allows it, and no length is sent by itself where a repeat symbol would do. */
module RunCuts {
  import opened HuffmanCode
  import opened Inflate
  import opened BitLengths
  import opened CodeLengths

  /** How many equal lengths there are from place p on. */
  function RunRest(lens: seq<nat>, p: nat): (r: nat)
    requires p < |lens|
    ensures 1 <= r <= |lens| - p
    decreases |lens| - p
  {
    if p + 1 < |lens| && lens[p + 1] == lens[p] then 1 + RunRest(lens, p + 1) else 1
  }

  ghost predicate Repeating(lens: seq<nat>, p: nat)
    requires p < |lens|
  {
    p > 0 && lens[p - 1] == lens[p]
  }

  /** How many lengths symbol c stands for. */
  function Covers(c: ClCode): (k: nat)
    ensures k >= 1
  {
    if c.sym == REP_3_6 || c.sym == REPZ_3_10 then 3 + c.extra
    else if c.sym == REPZ_11_138 then 11 + c.extra
    else 1
  }

  /** c is the symbol for the lengths from place p on. */
  ghost predicate CutAt(lens: seq<nat>, p: nat, c: ClCode)
    requires p < |lens|
  {
    var cur, left := lens[p], RunRest(lens, p);
    if c.sym == REP_3_6 then
      cur != 0 && Repeating(lens, p) && left >= 3 && Covers(c) == if left < 6 then left else 6
    else if c.sym == REPZ_3_10 then
      cur == 0 && 3 <= left <= 10 && Covers(c) == left
    else if c.sym == REPZ_11_138 then
      cur == 0 && left >= 11 && Covers(c) == if left < 138 then left else 138
    else
      c == ClCode(cur, 0) && (cur == 0 || Repeating(lens, p) ==> left < 3)
  }

  /** cs are the symbols for the lengths from place p to the end. */
  ghost predicate Cuts(lens: seq<nat>, p: nat, cs: seq<ClCode>)
    decreases |cs|
  {
    if cs == [] then p == |lens|
    else p < |lens| && CutAt(lens, p, cs[0]) && Cuts(lens, p + Covers(cs[0]), cs[1..])
  }

  /** At every place there is one symbol only. */
  lemma CutUnique(lens: seq<nat>, p: nat, c: ClCode, d: ClCode)
    requires Lengths(lens) && p < |lens| && CutAt(lens, p, c) && CutAt(lens, p, d)
    ensures c == d
  {
  }

  lemma {:induction false} CutsUnique(lens: seq<nat>, p: nat, a: seq<ClCode>, b: seq<ClCode>)
    requires Lengths(lens) && Cuts(lens, p, a) && Cuts(lens, p, b)
    ensures a == b
    decreases |a|
  {
    if a != [] && b != [] {
      CutUnique(lens, p, a[0], b[0]);
      CutsUnique(lens, p + Covers(a[0]), a[1..], b[1..]);
      assert a == [a[0]] + a[1..] && b == [b[0]] + b[1..];
    }
  }

  lemma {:induction false} RunRestIs(lens: seq<nat>, p: nat, n: nat)
    requires p <= n < |lens| && forall i :: p <= i < n ==> lens[i] == lens[n]
    ensures RunRest(lens, p) == n - p + RunRest(lens, n)
    decreases n - p
  {
    if p < n {
      RunRestIs(lens, p + 1, n);
    }
  }

  /** Lengths sent by themselves: the end of a run, too short to repeat. */
  lemma {:induction false} LitsCut(lens: seq<nat>, p: nat, count: nat, cs: seq<ClCode>)
    requires Lengths(lens) && count >= 1 && p < |lens| && RunRest(lens, p) == count
    requires count < if lens[p] == 0 || Repeating(lens, p) then 3 else 4
    requires Cuts(lens, p + count, cs)
    ensures Cuts(lens, p, Lits(lens[p], count) + cs)
    decreases count
  {
    var all := Lits(lens[p], count) + cs;
    assert all[0] == ClCode(lens[p], 0);
    if count == 1 {
      assert all[1..] == cs;
    } else {
      LitsCut(lens, p + 1, count - 1, cs);
      assert all[1..] == Lits(lens[p + 1], count - 1) + cs;
    }
  }

  /** The symbols for a run that ends because the length changes or the maximum is reached. */
  lemma RunCut(lens: seq<nat>, p: nat, prev: int, count: nat, cs: seq<ClCode>)
    requires Lengths(lens) && p < |lens| && 1 <= count <= RunLimits(prev, lens[p]).0
    requires (prev == -1 <==> p == 0) && (p > 0 ==> prev == lens[p - 1])
    requires RunRest(lens, p) == count || (RunRest(lens, p) > count == RunLimits(prev, lens[p]).0)
    requires Cuts(lens, p + count, cs)
    ensures Cuts(lens, p, RunCodes(prev, lens[p], count) + cs)
  {
    hide Lits;
    var cur, run := lens[p], RunCodes(prev, lens[p], count);
    if count < RunLimits(prev, cur).1 {
      LitsCut(lens, p, count, cs);
    } else if cur != 0 && cur != prev {
      assert (run + cs)[1..] == [ClCode(REP_3_6, count - 4)] + cs;
      assert ([ClCode(REP_3_6, count - 4)] + cs)[1..] == cs;
    } else {
      assert (run + cs)[1..] == cs;
    }
  }

  lemma {:induction false} RleCuts(lens: seq<nat>, n: nat, prev: int, count: nat)
    requires Lengths(lens) && InRun(lens, n, prev, count)
    ensures Cuts(lens, n - count, Rle(lens, n, prev, count))
    decreases |lens| - n
  {
    hide RunCodes, Cuts;
    if n >= |lens| {
      NothingCut(lens);
    } else if count + 1 < RunLimits(prev, lens[n]).0 && lens[n] == NextLen(lens, n + 1) {
      RleCuts(lens, n + 1, prev, count + 1);
    } else {
      var p := n - count;
      RleCuts(lens, n + 1, lens[n], 0);
      RunRestIs(lens, p, n);
      assert lens[p] == lens[n];
      RunCut(lens, p, prev, count + 1, Rle(lens, n + 1, lens[n], 0));
    }
  }

  lemma NothingCut(lens: seq<nat>)
    ensures Cuts(lens, |lens|, [])
  {
  }

  /** The symbols sent for a tree are exactly those the rule gives. */
  lemma TreeCodesCut(lens: seq<nat>, cs: seq<ClCode>)
    requires Lengths(lens)
    ensures Cuts(lens, 0, cs) <==> cs == TreeCodes(lens)
  {
    RleCuts(lens, 0, -1, 0);
    if Cuts(lens, 0, cs) {
      CutsUnique(lens, 0, cs, TreeCodes(lens));
    }
  }
}
