/** scan_tree and send_tree: the run-length code of RFC 1951 section 3.2.7 for code lengths. */
module CodeLengths {
  import opened Sums
  import opened Bits
  import opened HuffmanCode
  import opened CanonicalCodes
  import opened Inflate
  import opened GenCodes
  import opened StaticTables
  import opened BitLengths
  import opened BitWriter
  import opened Tallies

  const REP_3_6: nat := 16
  const REPZ_3_10: nat := 17
  const REPZ_11_138: nat := 18

  /** A symbol of the code length alphabet and the value of its extra bits. */
  datatype ClCode = ClCode(sym: nat, extra: nat)

  function ClExtra(sym: nat): nat
  {
    if sym == REP_3_6 then 2 else if sym == REPZ_3_10 then 3 else if sym == REPZ_11_138 then 7 else 0
  }

  ghost predicate ClOk(c: ClCode)
  {
    c.sym < BL_CODES && c.extra < Pow2(ClExtra(c.sym))
  }

  ghost predicate AllClOk(cs: seq<ClCode>)
  {
    forall i :: 0 <= i < |cs| ==> ClOk(cs[i])
  }

  // ---------- Meaning: section 3.2.7 ----------

  /** The lengths after one more symbol. */
  function Expand1(acc: seq<nat>, c: ClCode): seq<nat>
  {
    if c.sym == REP_3_6 then if acc == [] then [] else acc + Repeat(acc[|acc| - 1], 3 + c.extra)
    else if c.sym == REPZ_3_10 then acc + Repeat(0, 3 + c.extra)
    else if c.sym == REPZ_11_138 then acc + Repeat(0, 11 + c.extra)
    else acc + [c.sym]
  }

  function Expand(acc: seq<nat>, cs: seq<ClCode>): seq<nat>
    decreases |cs|
  {
    if cs == [] then acc else Expand(Expand1(acc, cs[0]), cs[1..])
  }

  /** No repetition without a length to repeat. */
  ghost predicate Sound(acc: seq<nat>, cs: seq<ClCode>)
    decreases |cs|
  {
    cs != [] ==> (acc == [] ==> cs[0].sym != REP_3_6) && Sound(Expand1(acc, cs[0]), cs[1..])
  }

  lemma {:induction false} ExpandAppend(acc: seq<nat>, a: seq<ClCode>, b: seq<ClCode>)
    ensures Expand(acc, a + b) == Expand(Expand(acc, a), b)
    ensures Sound(acc, a + b) <==> Sound(acc, a) && Sound(Expand(acc, a), b)
    decreases |a|
  {
    hide Expand1;
    if a == [] {
      assert a + b == b;
    } else {
      assert (a + b)[0] == a[0] && (a + b)[1..] == a[1..] + b;
      ExpandAppend(Expand1(acc, a[0]), a[1..], b);
    }
  }

  lemma {:induction false} ExpandGrows(acc: seq<nat>, cs: seq<ClCode>)
    requires Sound(acc, cs)
    ensures |Expand(acc, cs)| >= |acc| + |cs|
    decreases |cs|
  {
    if cs != [] {
      ExpandGrows(Expand1(acc, cs[0]), cs[1..]);
    }
  }

  /** The bits of the symbols under code lengths cl. */
  function ClBits(cl: seq<nat>, cs: seq<ClCode>): seq<bool>
  {
    if cs == [] then [] else ClBits1(cl, cs[0]) + ClBits(cl, cs[1..])
  }

  function ClBits1(cl: seq<nat>, c: ClCode): (b: seq<bool>)
    ensures c.sym < |cl| ==> |b| == cl[c.sym] + ClExtra(c.sym)
  {
    if c.sym < |cl| then Codeword(cl, c.sym) + ValueBits(c.extra, ClExtra(c.sym)) else []
  }

  lemma {:induction false} ClBitsAppend(cl: seq<nat>, a: seq<ClCode>, b: seq<ClCode>)
    ensures ClBits(cl, a + b) == ClBits(cl, a) + ClBits(cl, b)
    decreases |a|
  {
    hide ClBits1;
    if a == [] {
      assert a + b == b;
    } else {
      assert (a + b)[0] == a[0] && (a + b)[1..] == a[1..] + b;
      ClBitsAppend(cl, a[1..], b);
      ConcatAssoc(ClBits1(cl, a[0]), ClBits(cl, a[1..]), ClBits(cl, b));
    }
  }

  lemma ReadsValue(v: nat, n: nat, rest: seq<bool>)
    requires v < Pow2(n)
    ensures ReadBits(ValueBits(v, n) + rest, n) == Ok(v, rest)
  {
    hide ValueBits, BitsValue;
    ValueRoundTrip(v, n);
    assert (ValueBits(v, n) + rest)[..n] == ValueBits(v, n);
    assert (ValueBits(v, n) + rest)[n..] == rest;
  }

  /** The codes used are in the code. */
  ghost predicate Used(cl: seq<nat>, cs: seq<ClCode>)
  {
    forall i :: 0 <= i < |cs| ==> cs[i].sym < |cl| && cl[cs[i].sym] > 0
  }

  /** The decoder undoes the run-length code. */
  lemma {:induction false} ClDecodes(cl: seq<nat>, cs: seq<ClCode>, rest: seq<bool>, acc: seq<nat>, n: nat)
    requires Decodable(cl, 7) && AllClOk(cs) && Used(cl, cs) && Sound(acc, cs)
    requires |Expand(acc, cs)| == n
    ensures ReadCodeLengths(cl, ClBits(cl, cs) + rest, n, acc) == Ok(Expand(acc, cs), rest)
    decreases |cs|
  {
    hide Decodable, ReadSymbol, ReadBits, ClBits1;
    if cs == [] {
      assert [] + rest == rest;
      assert ReadCodeLengths(cl, rest, n, acc) == Ok(acc, rest);
    } else {
      var c, acc' := cs[0], Expand1(acc, cs[0]);
      var rest' := ClBits(cl, cs[1..]) + rest;
      ExpandGrows(acc, cs);
      ClDecodes(cl, cs[1..], rest, acc', n);
      ReadsOne(cl, c, rest', acc, n);
      ConcatAssoc(ClBits1(cl, c), ClBits(cl, cs[1..]), rest);
    }
  }

  lemma ReadsOne(cl: seq<nat>, c: ClCode, rest: seq<bool>, acc: seq<nat>, n: nat)
    requires Decodable(cl, 7) && ClOk(c) && c.sym < |cl| && cl[c.sym] > 0 && |acc| < n
    requires acc == [] ==> c.sym != REP_3_6
    ensures ReadCodeLengths(cl, ClBits1(cl, c) + rest, n, acc) == ReadCodeLengths(cl, rest, n, Expand1(acc, c))
  {
    hide Decodable, ReadSymbol, ReadBits, Codeword, ValueBits, Pow2;
    var extra := ValueBits(c.extra, ClExtra(c.sym));
    ReadsSymbol(cl, c.sym, extra + rest, 7);
    ReadsValue(c.extra, ClExtra(c.sym), rest);
    ConcatAssoc(Codeword(cl, c.sym), extra, rest);
    if ClExtra(c.sym) == 0 {
      NoExtra(c, rest);
    }
  }

  lemma NoExtra(c: ClCode, rest: seq<bool>)
    requires ClOk(c) && ClExtra(c.sym) == 0
    ensures ValueBits(c.extra, ClExtra(c.sym)) + rest == rest
  {
  }

  // ---------- The runs that scan_tree and send_tree find ----------

  /** max_count and min_count for a run of cur after length prev. */
  function RunLimits(prev: int, cur: nat): (nat, nat)
  {
    if cur == 0 then (138, 3) else if cur == prev then (6, 3) else (7, 4)
  }

  function Lits(cur: nat, count: nat): (r: seq<ClCode>)
    ensures |r| == count
  {
    seq(count, i => ClCode(cur, 0))
  }

  /** The symbols for a finished run. */
  function RunCodes(prev: int, cur: nat, count: nat): seq<ClCode>
  {
    if count < RunLimits(prev, cur).1 then Lits(cur, count)
    else if cur != 0 then
      if cur != prev then [ClCode(cur, 0), ClCode(REP_3_6, Less(count, 4))] else [ClCode(REP_3_6, Less(count, 3))]
    else if count <= 10 then [ClCode(REPZ_3_10, Less(count, 3))]
    else [ClCode(REPZ_11_138, Less(count, 11))]
  }

  function Less(a: nat, b: nat): nat
  {
    if a < b then 0 else a - b
  }

  /** The length after position n; 0xffff guards the end. */
  function NextLen(lens: seq<nat>, n: nat): nat
  {
    if n < |lens| then lens[n] else 0xffff
  }

  /** All symbols from position n on, count lengths of the current run being behind. */
  function Rle(lens: seq<nat>, n: nat, prev: int, count: nat): seq<ClCode>
    decreases |lens| - n
  {
    if n >= |lens| then []
    else if count + 1 < RunLimits(prev, lens[n]).0 && lens[n] == NextLen(lens, n + 1) then Rle(lens, n + 1, prev, count + 1)
    else RunCodes(prev, lens[n], count + 1) + Rle(lens, n + 1, lens[n], 0)
  }

  /** Where the loop is in its current run. */
  ghost predicate InRun(lens: seq<nat>, n: nat, prev: int, count: nat)
  {
    && n <= |lens| && count <= n
    && (prev == -1 <==> n - count == 0) && (n - count > 0 ==> prev == lens[n - count - 1])
    && (count > 0 ==> n < |lens| && count < RunLimits(prev, lens[n]).0 && forall i :: n - count <= i < n ==> lens[i] == lens[n])
  }

  ghost predicate Lengths(lens: seq<nat>)
  {
    forall i :: 0 <= i < |lens| ==> lens[i] <= MAX_BITS
  }

  lemma {:induction false} LitsExpand(acc: seq<nat>, cur: nat, count: nat)
    requires cur <= MAX_BITS
    ensures Sound(acc, Lits(cur, count)) && Expand(acc, Lits(cur, count)) == acc + Repeat(cur, count)
    ensures AllClOk(Lits(cur, count))
    decreases count
  {
    if count == 0 {
      assert acc + Repeat(cur, 0) == acc;
    } else {
      LitsExpand(acc + [cur], cur, count - 1);
      assert Lits(cur, count)[1..] == Lits(cur, count - 1);
      assert acc + [cur] + Repeat(cur, count - 1) == acc + Repeat(cur, count);
    }
  }

  /** A run's symbols stand for the run. */
  lemma RunExpands(acc: seq<nat>, prev: int, cur: nat, count: nat)
    requires cur <= MAX_BITS && 1 <= count <= RunLimits(prev, cur).0
    requires cur == prev ==> acc != [] && acc[|acc| - 1] == cur
    ensures Sound(acc, RunCodes(prev, cur, count))
    ensures Expand(acc, RunCodes(prev, cur, count)) == acc + Repeat(cur, count)
    ensures AllClOk(RunCodes(prev, cur, count)) && |RunCodes(prev, cur, count)| <= count
  {
    hide Expand, Sound, Repeat, ClOk, Lits;
    if count < RunLimits(prev, cur).1 {
      LitsExpand(acc, cur, count);
    } else if cur != 0 {
      if cur != prev {
        LitRepExpands(acc, cur, count);
      } else {
        RepExpands(acc, cur, count);
      }
    } else {
      ZerosExpand(acc, count);
    }
  }

  lemma RepExpands(acc: seq<nat>, cur: nat, count: nat)
    requires acc != [] && acc[|acc| - 1] == cur && 3 <= count <= 6
    ensures var c := ClCode(REP_3_6, Less(count, 3));
            ClOk(c) && Sound(acc, [c]) && Expand(acc, [c]) == acc + Repeat(cur, count)
  {
    hide Expand, Sound, Repeat;
    ExpandOne(acc, ClCode(REP_3_6, count - 3));
  }

  lemma LitRepExpands(acc: seq<nat>, cur: nat, count: nat)
    requires cur <= MAX_BITS && 4 <= count <= 7
    ensures var c, d := ClCode(cur, 0), ClCode(REP_3_6, Less(count, 4));
            ClOk(c) && ClOk(d) && Sound(acc, [c, d]) && Expand(acc, [c, d]) == acc + Repeat(cur, count)
  {
    hide Expand, Sound, Repeat;
    var c, d := ClCode(cur, 0), ClCode(REP_3_6, count - 4);
    RepExpands(acc + [cur], cur, count - 1);
    ExpandOne(acc, c);
    ExpandAppend(acc, [c], [d]);
    assert [c] + [d] == [c, d];
    RepeatFirst(acc, cur, count);
  }

  lemma ZerosExpand(acc: seq<nat>, count: nat)
    requires 3 <= count <= 138
    ensures var c := if count <= 10 then ClCode(REPZ_3_10, Less(count, 3)) else ClCode(REPZ_11_138, Less(count, 11));
            ClOk(c) && Sound(acc, [c]) && Expand(acc, [c]) == acc + Repeat(0, count)
  {
    Pow2Values();
    hide Expand, Sound, Repeat, Pow2;
    ExpandOne(acc, if count <= 10 then ClCode(REPZ_3_10, count - 3) else ClCode(REPZ_11_138, count - 11));
  }

  lemma RepeatFirst(acc: seq<nat>, cur: nat, count: nat)
    requires count > 0
    ensures acc + [cur] + Repeat(cur, count - 1) == acc + Repeat(cur, count)
  {
  }

  lemma ExpandOne(acc: seq<nat>, c: ClCode)
    ensures Expand(acc, [c]) == Expand1(acc, c)
    ensures Sound(acc, [c]) <==> (acc == [] ==> c.sym != REP_3_6)
  {
    assert [c][1..] == [];
    NothingExpands(Expand1(acc, c));
  }

  /** The symbols from n on stand for the lengths of the current run and all after it. */
  lemma {:induction false} RleExpands(lens: seq<nat>, n: nat, prev: int, count: nat, before: seq<nat>)
    requires Lengths(lens) && InRun(lens, n, prev, count)
    ensures var acc := before + lens[..n - count];
            Sound(acc, Rle(lens, n, prev, count)) && Expand(acc, Rle(lens, n, prev, count)) == before + lens
    ensures AllClOk(Rle(lens, n, prev, count)) && |Rle(lens, n, prev, count)| <= |lens| - n + count
    decreases |lens| - n
  {
    hide RunCodes, Expand, Sound, Repeat, ClOk;
    var acc := before + lens[..n - count];
    if n >= |lens| {
      assert acc == before + lens;
      NothingExpands(acc);
    } else if count + 1 < RunLimits(prev, lens[n]).0 && lens[n] == NextLen(lens, n + 1) {
      RleExpands(lens, n + 1, prev, count + 1, before);
    } else {
      var cur := lens[n];
      RunExpands(acc, prev, cur, count + 1);
      RunIs(lens, n, count, before);
      RleExpands(lens, n + 1, cur, 0, before);
      ExpandAppend(acc, RunCodes(prev, cur, count + 1), Rle(lens, n + 1, cur, 0));
    }
  }

  lemma NothingExpands(acc: seq<nat>)
    ensures Expand(acc, []) == acc && Sound(acc, [])
  {
  }

  lemma RunIs(lens: seq<nat>, n: nat, count: nat, before: seq<nat>)
    requires count <= n < |lens| && forall i :: n - count <= i < n ==> lens[i] == lens[n]
    ensures before + lens[..n - count] + Repeat(lens[n], count + 1) == before + lens[..n + 1]
  {
  }

  /** All symbols for one tree. */
  function TreeCodes(lens: seq<nat>): seq<ClCode>
  {
    Rle(lens, 0, -1, 0)
  }

  /** What send_tree emits for a tree expands to exactly its code lengths, whatever precedes. */
  lemma TreeCodesExpand(lens: seq<nat>, before: seq<nat>)
    requires Lengths(lens)
    ensures Sound(before, TreeCodes(lens)) && Expand(before, TreeCodes(lens)) == before + lens
    ensures AllClOk(TreeCodes(lens)) && |TreeCodes(lens)| <= |lens|
  {
    RleExpands(lens, 0, -1, 0, before);
    assert before + lens[..0] == before;
  }

  // ---------- scan_tree ----------

  function Syms(cs: seq<ClCode>): (r: seq<nat>)
    ensures |r| == |cs|
  {
    seq(|cs|, i requires 0 <= i < |cs| => cs[i].sym)
  }

  lemma SymsWithin(cs: seq<ClCode>)
    requires AllClOk(cs)
    ensures Within(Syms(cs), BL_CODES)
  {
    forall i | 0 <= i < |cs| ensures Syms(cs)[i] < BL_CODES {
      assert ClOk(cs[i]);
    }
  }

  lemma SymsAppend(a: seq<ClCode>, b: seq<ClCode>)
    ensures Syms(a + b) == Syms(a) + Syms(b)
  {
  }

  lemma {:induction false} TallyRepeat(f: seq<nat>, x: nat, count: nat)
    requires x < |f|
    ensures Within(Repeat(x, count), |f|) && Tally(f, Repeat(x, count)) == f[x := f[x] + count]
  {
    if count > 0 {
      TallyRepeat(f, x, count - 1);
      assert Repeat(x, count)[..count - 1] == Repeat(x, count - 1);
    }
  }

  /** The loop variables at the head of the loop of scan_tree and send_tree: done are the symbols
      found so far. */
  ghost predicate Scanning(lens: seq<nat>, n: nat, prevlen: int, count: nat, nextlen: nat, maxCount: nat, minCount: nat,
                           done: seq<ClCode>)
  {
    && Lengths(lens) && InRun(lens, n, prevlen, count) && nextlen == NextLen(lens, n)
    && (maxCount, minCount) == RunLimits(prevlen, nextlen)
    && done + Rle(lens, n, prevlen, count) == TreeCodes(lens) && |done| <= n - count
  }

  lemma ScanStart(lens: seq<nat>)
    requires Lengths(lens) && lens != []
    ensures Scanning(lens, 0, -1, 0, lens[0], RunLimits(-1, lens[0]).0, RunLimits(-1, lens[0]).1, [])
  {
    assert [] + Rle(lens, 0, -1, 0) == TreeCodes(lens);
  }

  lemma ScanOn(lens: seq<nat>, n: nat, prev: int, count: nat, next: nat, maxc: nat, minc: nat, done: seq<ClCode>)
    requires Scanning(lens, n, prev, count, next, maxc, minc, done) && n < |lens|
    requires count + 1 < maxc && next == NextLen(lens, n + 1)
    ensures Scanning(lens, n + 1, prev, count + 1, next, maxc, minc, done)
  {
  }

  /** The end of a run of count + 1. */
  lemma ScanRun(lens: seq<nat>, n: nat, prev: int, count: nat, cur: nat, maxc: nat, minc: nat, done: seq<ClCode>, next: nat)
    requires Scanning(lens, n, prev, count, cur, maxc, minc, done) && n < |lens|
    requires next == NextLen(lens, n + 1) && !(count + 1 < maxc && cur == next)
    ensures cur <= MAX_BITS && 1 <= count + 1 <= maxc && minc == RunLimits(prev, cur).1
    ensures Scanning(lens, n + 1, cur, 0, next, RunLimits(cur, next).0, RunLimits(cur, next).1,
                     done + RunCodes(prev, cur, count + 1))
    ensures AllClOk(RunCodes(prev, cur, count + 1))
  {
    hide RunCodes, ClOk, Expand, Sound;
    assert done + (RunCodes(prev, cur, count + 1) + Rle(lens, n + 1, cur, 0)) ==
           (done + RunCodes(prev, cur, count + 1)) + Rle(lens, n + 1, cur, 0);
    RunExpands([cur], prev, cur, count + 1);
  }

  lemma ScanEnd(lens: seq<nat>, n: nat, prev: int, count: nat, next: nat, maxc: nat, minc: nat, done: seq<ClCode>)
    requires Scanning(lens, n, prev, count, next, maxc, minc, done) && n == |lens|
    ensures done == TreeCodes(lens)
  {
    assert done + [] == done;
  }

  /** The updates scan_tree makes for a run. */
  function Rescored(f: seq<nat>, prev: int, cur: nat, count: nat, minCount: nat): (r: seq<nat>)
    requires |f| >= BL_CODES && cur <= MAX_BITS
    ensures |r| == |f|
  {
    if count < minCount then f[cur := f[cur] + count]
    else if cur != 0 then
      if cur != prev then f[cur := f[cur] + 1][REP_3_6 := f[REP_3_6] + 1] else f[REP_3_6 := f[REP_3_6] + 1]
    else if count <= 10 then f[REPZ_3_10 := f[REPZ_3_10] + 1]
    else f[REPZ_11_138 := f[REPZ_11_138] + 1]
  }

  /** Counting the symbols of a run does to the frequencies what scan_tree does. */
  lemma ScanTally(f: seq<nat>, prev: int, cur: nat, count: nat)
    requires |f| >= BL_CODES && cur <= MAX_BITS
    ensures Within(Syms(RunCodes(prev, cur, count)), |f|)
    ensures Tally(f, Syms(RunCodes(prev, cur, count))) == Rescored(f, prev, cur, count, RunLimits(prev, cur).1)
  {
    hide Tally, Syms, RunCodes, Within, Repeat, RunLimits, Rescored;
    RunSyms(prev, cur, count);
    RunTally(f, prev, cur, count, RunLimits(prev, cur).1, Syms(RunCodes(prev, cur, count)));
  }

  lemma RunTally(f: seq<nat>, prev: int, cur: nat, count: nat, minCount: nat, s: seq<nat>)
    requires |f| >= BL_CODES && cur <= MAX_BITS
    requires count < minCount ==> s == Repeat(cur, count)
    requires count >= minCount && cur != 0 && cur != prev ==> s == [cur] + [REP_3_6]
    requires count >= minCount && cur != 0 && cur == prev ==> s == [REP_3_6]
    requires count >= minCount && cur == 0 && count <= 10 ==> s == [REPZ_3_10]
    requires count >= minCount && cur == 0 && count > 10 ==> s == [REPZ_11_138]
    ensures Within(s, |f|) && Tally(f, s) == Rescored(f, prev, cur, count, minCount)
  {
    hide Tally, Within, Repeat, Rescored;
    RescoredIs(f, prev, cur, count, minCount);
    if count < minCount {
      TallyRepeat(f, cur, count);
    } else if cur != 0 {
      if cur != prev {
        TallyPair(f, cur, REP_3_6);
      } else {
        TallyOne(f, REP_3_6);
      }
    } else if count <= 10 {
      TallyOne(f, REPZ_3_10);
    } else {
      TallyOne(f, REPZ_11_138);
    }
  }

  lemma RescoredIs(f: seq<nat>, prev: int, cur: nat, count: nat, minCount: nat)
    requires |f| >= BL_CODES && cur <= MAX_BITS
    ensures var r := Rescored(f, prev, cur, count, minCount);
            && (count < minCount ==> r == f[cur := f[cur] + count])
            && (count >= minCount && cur != 0 && cur != prev ==> r == f[cur := f[cur] + 1][REP_3_6 := f[REP_3_6] + 1])
            && (count >= minCount && cur != 0 && cur == prev ==> r == f[REP_3_6 := f[REP_3_6] + 1])
            && (count >= minCount && cur == 0 && count <= 10 ==> r == f[REPZ_3_10 := f[REPZ_3_10] + 1])
            && (count >= minCount && cur == 0 && count > 10 ==> r == f[REPZ_11_138 := f[REPZ_11_138] + 1])
  {
  }

  lemma TallyPair(f: seq<nat>, x: nat, y: nat)
    requires x < |f| && y < |f| && x != y
    ensures Within([x] + [y], |f|) && Tally(f, [x] + [y]) == f[x := f[x] + 1][y := f[y] + 1]
  {
    hide Tally, Within;
    TallyOne(f, x);
    TallyNext(f, [x], y);
    var g := f[x := f[x] + 1];
    assert Tally(f, [x]) == g;
    assert g[y] == f[y];
  }

  lemma RunSyms(prev: int, cur: nat, count: nat)
    ensures var s, m := Syms(RunCodes(prev, cur, count)), RunLimits(prev, cur).1;
            && (count < m ==> s == Repeat(cur, count))
            && (count >= m && cur != 0 && cur != prev ==> s == [cur] + [REP_3_6])
            && (count >= m && cur != 0 && cur == prev ==> s == [REP_3_6])
            && (count >= m && cur == 0 && count <= 10 ==> s == [REPZ_3_10])
            && (count >= m && cur == 0 && count > 10 ==> s == [REPZ_11_138])
  {
  }

  lemma TallyOne(f: seq<nat>, x: nat)
    requires x < |f|
    ensures Within([x], |f|) && Tally(f, [x]) == f[x := f[x] + 1]
  {
    hide Tally;
    TallyNone(f);
    TallyNext(f, [], x);
    assert [] + [x] == [x];
  }

  lemma TallyNone(f: seq<nat>)
    ensures Tally(f, []) == f
  {
  }

  /** Scanning on top of the frequencies f0. */
  ghost predicate Counted(f: seq<nat>, f0: seq<nat>, done: seq<ClCode>)
  {
    && |f0| >= BL_CODES && AllClOk(done) && Within(Syms(done), |f0|)
    && f == Tally(f0, Syms(done))
  }

  lemma CountMore(f: seq<nat>, f0: seq<nat>, done: seq<ClCode>, run: seq<ClCode>, f': seq<nat>)
    requires Counted(f, f0, done) && AllClOk(run) && Within(Syms(run), |f0|) && f' == Tally(f, Syms(run))
    ensures Counted(f', f0, done + run)
  {
    hide Tally, ClOk;
    SymsAppend(done, run);
    TallyAppend(f0, Syms(done), Syms(run));
  }

  /** Frequencies stay within 16 bits. */
  lemma CountBound(f: seq<nat>, f0: seq<nat>, done: seq<ClCode>, x: nat)
    requires Counted(f, f0, done) && x < |f0|
    ensures |f| == |f0| && f[x] <= f0[x] + |done|
  {
    hide Tally, ClOk;
    TallyPositive(f0, Syms(done), x);
  }

  lemma CountStart(f0: seq<nat>)
    requires |f0| >= BL_CODES
    ensures Counted(f0, f0, [])
  {
  }

  /** One run counted by scan_tree. */
  lemma ScanStep(f: seq<nat>, f0: seq<nat>, lens: seq<nat>, n: nat, prev: int, count: nat, cur: nat, maxc: nat, minc: nat,
                 done: seq<ClCode>, next: nat)
    requires Counted(f, f0, done) && Scanning(lens, n, prev, count, cur, maxc, minc, done) && n < |lens|
    requires next == NextLen(lens, n + 1) && !(count + 1 < maxc && cur == next)
    ensures cur <= MAX_BITS && |f| == |f0| >= BL_CODES
    ensures f[cur] + count + 1 <= f0[cur] + |lens|
    ensures forall x :: 0 <= x < BL_CODES ==> f[x] <= f0[x] + n - count
    ensures Counted(Rescored(f, prev, cur, count + 1, minc), f0, done + RunCodes(prev, cur, count + 1))
    ensures Scanning(lens, n + 1, cur, 0, next, RunLimits(cur, next).0, RunLimits(cur, next).1,
                     done + RunCodes(prev, cur, count + 1))
  {
    hide Counted, RunCodes, ClOk, Expand, Sound, Tally, Rle, TreeCodes, Lengths, Rescored;
    CountSize(f, f0, done);
    ScanRun(lens, n, prev, count, cur, maxc, minc, done, next);
    forall x | 0 <= x < BL_CODES ensures f[x] <= f0[x] + n - count {
      CountBound(f, f0, done, x);
    }
    ScanTally(f, prev, cur, count + 1);
    CountMore(f, f0, done, RunCodes(prev, cur, count + 1), Tally(f, Syms(RunCodes(prev, cur, count + 1))));
  }

  lemma CountSize(f: seq<nat>, f0: seq<nat>, done: seq<ClCode>)
    requires Counted(f, f0, done)
    ensures |f| == |f0| >= BL_CODES
  {
  }

  /** The frequency updates at the end of a run. */
  method CountRun(blTree: HuffTree, prevlen: int, curlen: nat, count: nat, minCount: nat)
    requires blTree.Valid() && blTree.desc.elems == BL_CODES && curlen <= MAX_BITS
    requires blTree.fc[curlen] + count < 0x1_0000
    requires forall x :: 0 <= x < BL_CODES ==> blTree.fc[x] + 1 < 0x1_0000
    modifies blTree.fc
    ensures blTree.fc[..] == Rescored(old(blTree.fc[..]), prevlen, curlen, count, minCount)
  {
    hide DescOk;
    if count < minCount {
      blTree.fc[curlen] := (blTree.fc[curlen] + count) % 0x1_0000;
    } else if curlen != 0 {
      if curlen != prevlen {
        blTree.fc[curlen] := (blTree.fc[curlen] + 1) % 0x1_0000;
      }
      blTree.fc[REP_3_6] := (blTree.fc[REP_3_6] + 1) % 0x1_0000;
    } else if count <= 10 {
      blTree.fc[REPZ_3_10] := (blTree.fc[REPZ_3_10] + 1) % 0x1_0000;
    } else {
      blTree.fc[REPZ_11_138] := (blTree.fc[REPZ_11_138] + 1) % 0x1_0000;
    }
  }

  /** Count the symbols of the code length alphabet needed for one tree, into the bit length tree. */
  method ScanTree(tree: HuffTree, blTree: HuffTree, maxCode: nat)
    requires tree.Valid() && blTree.Valid() && tree.dl != blTree.fc && tree.dl != tree.fc
    requires maxCode < 2 * tree.desc.elems && blTree.desc.elems == BL_CODES
    requires Lengths(tree.dl[..maxCode + 1])
    requires forall x :: 0 <= x < BL_CODES ==> blTree.fc[x] + maxCode + 1 < 0x1_0000
    modifies tree.dl, blTree.fc
    ensures tree.dl[maxCode + 1] == 0xffff
    ensures forall x :: 0 <= x < tree.dl.Length && x != maxCode + 1 ==> tree.dl[x] == old(tree.dl[x])
    ensures Counted(blTree.fc[..], old(blTree.fc[..]), TreeCodes(old(tree.dl[..maxCode + 1])))
  {
    hide Counted, RunCodes, ClOk, Expand, Sound, Tally, Rle, TreeCodes, Lengths, InRun, Scanning, DescOk, Rescored;
    ghost var lens, f0 := tree.dl[..maxCode + 1], blTree.fc[..];
    var prevlen: int, nextlen, count := -1, tree.dl[0], 0;
    var maxCount, minCount := 7, 4;
    if nextlen == 0 {
      maxCount, minCount := 138, 3;
    }
    tree.dl[maxCode + 1] := 0xffff;
    ghost var done := [];
    ScanStart(lens);
    CountStart(f0);
    var n := 0;
    while n <= maxCode
      invariant 0 <= n <= maxCode + 1 && tree.dl[..maxCode + 1] == lens && tree.dl[maxCode + 1] == 0xffff
      invariant forall x :: 0 <= x < tree.dl.Length && x != maxCode + 1 ==> tree.dl[x] == old(tree.dl[x])
      invariant Scanning(lens, n, prevlen, count, nextlen, maxCount, minCount, done)
      invariant Counted(blTree.fc[..], f0, done)
    {
      var curlen := nextlen;
      nextlen := tree.dl[n + 1];
      assert nextlen == NextLen(lens, n + 1);
      count := count + 1;
      if count < maxCount && curlen == nextlen {
        ScanOn(lens, n, prevlen, count - 1, curlen, maxCount, minCount, done);
        n := n + 1;
        continue;
      }
      ghost var f := blTree.fc[..];
      ScanStep(f, f0, lens, n, prevlen, count - 1, curlen, maxCount, minCount, done, nextlen);
      CountRun(blTree, prevlen, curlen, count, minCount);
      done := done + RunCodes(prevlen, curlen, count);
      count := 0;
      prevlen := curlen;
      if nextlen == 0 {
        maxCount, minCount := 138, 3;
      } else if curlen == nextlen {
        maxCount, minCount := 6, 3;
      } else {
        maxCount, minCount := 7, 4;
      }
      n := n + 1;
    }
    ScanEnd(lens, n, prevlen, count, nextlen, maxCount, minCount, done);
  }

  // ---------- send_tree ----------

  /** Whatever the code has, the arrays send. */
  ghost predicate SendsAll(fc: seq<nat>, dl: seq<nat>, lens: seq<nat>)
  {
    forall x :: 0 <= x < |lens| && lens[x] > 0 ==> Sends(fc, dl, lens, x)
  }

  /** send_code. */
  method SendCode(out: Output, c: nat, fc: seq<nat>, dl: seq<nat>, ghost lens: seq<nat>)
    requires out.Valid() && Sends(fc, dl, lens, c)
    modifies out`biBuf, out`biValid, out`pending, out`sent
    ensures out.Valid() && out.sent == old(out.sent) + Codeword(lens, c)
  {
    hide Codeword, ValueBits, Pow2;
    out.SendBits(fc[c], dl[c]);
  }

  /** A symbol of the code length alphabet with its extra bits. */
  method SendClCode(out: Output, blTree: HuffTree, c: nat, extra: nat, ghost cl: seq<nat>)
    requires out.Valid() && c < |cl| && cl[c] > 0 && SendsAll(blTree.fc[..], blTree.dl[..], cl) && ClOk(ClCode(c, extra))
    modifies out`biBuf, out`biValid, out`pending, out`sent
    ensures out.Valid() && out.sent == old(out.sent) + ClBits(cl, [ClCode(c, extra)])
  {
    hide Codeword, ValueBits, Pow2, Sends, ClBits;
    SendCode(out, c, blTree.fc[..], blTree.dl[..], cl);
    if ClExtra(c) > 0 {
      out.SendBits(extra, ClExtra(c));
    }
    ClBitsOne(cl, ClCode(c, extra));
    ConcatAssoc(old(out.sent), Codeword(cl, c), ValueBits(extra, ClExtra(c)));
  }

  lemma ClBitsOne(cl: seq<nat>, c: ClCode)
    requires c.sym < |cl|
    ensures ClBits(cl, [c]) == Codeword(cl, c.sym) + ValueBits(c.extra, ClExtra(c.sym))
  {
    hide Codeword;
    assert [c][1..] == [];
    assert ClBits(cl, [c][1..]) == [];
  }

  lemma ClBitsPair(cl: seq<nat>, sent: seq<bool>, c: ClCode, d: ClCode)
    ensures sent + ClBits(cl, [c]) + ClBits(cl, [d]) == sent + ClBits(cl, [c, d])
  {
    hide ClBits;
    ClBitsAppend(cl, [c], [d]);
    assert [c] + [d] == [c, d];
    ConcatAssoc(sent, ClBits(cl, [c]), ClBits(cl, [d]));
  }

  lemma LitsMore(cl: seq<nat>, sent: seq<bool>, cur: nat, k: nat)
    ensures sent + ClBits(cl, Lits(cur, k)) + ClBits(cl, [ClCode(cur, 0)]) == sent + ClBits(cl, Lits(cur, k + 1))
    ensures sent + ClBits(cl, Lits(cur, 0)) == sent
  {
    hide ClBits;
    ClBitsAppend(cl, Lits(cur, k), [ClCode(cur, 0)]);
    assert Lits(cur, k) + [ClCode(cur, 0)] == Lits(cur, k + 1);
    ConcatAssoc(sent, ClBits(cl, Lits(cur, k)), ClBits(cl, [ClCode(cur, 0)]));
    ClBitsNone(cl, Lits(cur, 0));
  }

  lemma ClBitsNone(cl: seq<nat>, cs: seq<ClCode>)
    requires cs == []
    ensures ClBits(cl, cs) == []
  {
  }

  /** What send_tree sends for a finished run. */
  method SendRun(out: Output, blTree: HuffTree, prevlen: int, curlen: nat, count0: nat, minCount: nat, ghost cl: seq<nat>)
    requires out.Valid() && SendsAll(blTree.fc[..], blTree.dl[..], cl) && count0 > 0
    requires curlen <= MAX_BITS && 1 <= count0 <= RunLimits(prevlen, curlen).0 && minCount == RunLimits(prevlen, curlen).1
    requires AllClOk(RunCodes(prevlen, curlen, count0)) && Used(cl, RunCodes(prevlen, curlen, count0))
    modifies out`biBuf, out`biValid, out`pending, out`sent
    ensures out.Valid() && out.sent == old(out.sent) + ClBits(cl, RunCodes(prevlen, curlen, count0))
  {
    hide ClBits, ClOk, SendsAll;
    ghost var cs := RunCodes(prevlen, curlen, count0);
    ghost var sent0 := out.sent;
    assert ClOk(cs[0]) && cs[0].sym < |cl| && cl[cs[0].sym] > 0;
    var count := count0;
    if count < minCount {
      LitsMore(cl, sent0, curlen, 0);
      while count != 0
        invariant count <= count0 && out.Valid()
        invariant out.sent == sent0 + ClBits(cl, Lits(curlen, count0 - count))
      {
        SendClCode(out, blTree, curlen, 0, cl);
        LitsMore(cl, sent0, curlen, count0 - count);
        count := count - 1;
      }
    } else if curlen != 0 {
      if curlen != prevlen {
        assert ClOk(cs[1]) && cs[1].sym < |cl| && cl[cs[1].sym] > 0;
        SendClCode(out, blTree, curlen, 0, cl);
        count := count - 1;
        SendClCode(out, blTree, REP_3_6, count - 3, cl);
        ClBitsPair(cl, sent0, cs[0], cs[1]);
      } else {
        SendClCode(out, blTree, REP_3_6, count - 3, cl);
      }
    } else if count <= 10 {
      SendClCode(out, blTree, REPZ_3_10, count - 3, cl);
    } else {
      SendClCode(out, blTree, REPZ_11_138, count - 11, cl);
    }
  }

  lemma UsedPart(cl: seq<nat>, lens: seq<nat>, n: nat, prev: int, count: nat, cur: nat, maxc: nat, minc: nat, done: seq<ClCode>,
                 next: nat)
    requires Used(cl, TreeCodes(lens)) && Scanning(lens, n, prev, count, cur, maxc, minc, done) && n < |lens|
    requires next == NextLen(lens, n + 1) && !(count + 1 < maxc && cur == next)
    ensures Used(cl, RunCodes(prev, cur, count + 1)) && Used(cl, done)
  {
    hide RunCodes, Lengths, TreeCodes;
    var run, all := RunCodes(prev, cur, count + 1), TreeCodes(lens);
    forall i | 0 <= i < |run| ensures run[i].sym < |cl| && cl[run[i].sym] > 0 {
      assert run[i] == all[|done| + i];
    }
    forall i | 0 <= i < |done| ensures done[i].sym < |cl| && cl[done[i].sym] > 0 {
      assert done[i] == all[i];
    }
  }

  /** One run sent. */
  lemma SentRun(cl: seq<nat>, sent: seq<bool>, done: seq<ClCode>, run: seq<ClCode>)
    requires Used(cl, done) && Used(cl, run)
    ensures Used(cl, done + run)
    ensures sent + ClBits(cl, done) + ClBits(cl, run) == sent + ClBits(cl, done + run)
  {
    hide ClBits;
    ClBitsAppend(cl, done, run);
    ConcatAssoc(sent, ClBits(cl, done), ClBits(cl, run));
  }

  /** Send one tree in compressed form, with the codes in the bit length tree. */
  method SendTree(out: Output, tree: HuffTree, blTree: HuffTree, maxCode: nat, ghost cl: seq<nat>)
    requires out.Valid() && tree.Valid() && maxCode < 2 * tree.desc.elems && tree.dl[maxCode + 1] == 0xffff
    requires Lengths(tree.dl[..maxCode + 1])
    requires SendsAll(blTree.fc[..], blTree.dl[..], cl) && Used(cl, TreeCodes(tree.dl[..maxCode + 1]))
    modifies out`biBuf, out`biValid, out`pending, out`sent
    ensures out.Valid() && out.sent == old(out.sent) + ClBits(cl, TreeCodes(tree.dl[..maxCode + 1]))
  {
    hide RunCodes, ClOk, Expand, Sound, Rle, TreeCodes, Lengths, InRun, Scanning, DescOk, SendsAll, ClBits, Used;
    ghost var lens, sent0 := tree.dl[..maxCode + 1], out.sent;
    var prevlen: int, nextlen, count := -1, tree.dl[0], 0;
    var maxCount, minCount := 7, 4;
    if nextlen == 0 {
      maxCount, minCount := 138, 3;
    }
    ghost var done := [];
    ScanStart(lens);
    NothingSent(cl, sent0, done);
    var n := 0;
    while n <= maxCode
      invariant 0 <= n <= maxCode + 1 && out.Valid()
      invariant Scanning(lens, n, prevlen, count, nextlen, maxCount, minCount, done)
      invariant Used(cl, done) && out.sent == sent0 + ClBits(cl, done)
    {
      var curlen := nextlen;
      nextlen := tree.dl[n + 1];
      assert nextlen == NextLen(lens, n + 1);
      count := count + 1;
      if count < maxCount && curlen == nextlen {
        ScanOn(lens, n, prevlen, count - 1, curlen, maxCount, minCount, done);
        n := n + 1;
        continue;
      }
      UsedPart(cl, lens, n, prevlen, count - 1, curlen, maxCount, minCount, done, nextlen);
      ScanRun(lens, n, prevlen, count - 1, curlen, maxCount, minCount, done, nextlen);
      RunLimit(lens, n, prevlen, count - 1, curlen, maxCount, minCount, done);
      SendRun(out, blTree, prevlen, curlen, count, minCount, cl);
      SentRun(cl, sent0, done, RunCodes(prevlen, curlen, count));
      done := done + RunCodes(prevlen, curlen, count);
      count := 0;
      prevlen := curlen;
      if nextlen == 0 {
        maxCount, minCount := 138, 3;
      } else if curlen == nextlen {
        maxCount, minCount := 6, 3;
      } else {
        maxCount, minCount := 7, 4;
      }
      n := n + 1;
    }
    ScanEnd(lens, n, prevlen, count, nextlen, maxCount, minCount, done);
  }

  lemma RunLimit(lens: seq<nat>, n: nat, prev: int, count: nat, next: nat, maxc: nat, minc: nat, done: seq<ClCode>)
    requires Scanning(lens, n, prev, count, next, maxc, minc, done)
    ensures (maxc, minc) == RunLimits(prev, next)
  {
  }

  lemma NothingSent(cl: seq<nat>, sent: seq<bool>, done: seq<ClCode>)
    requires done == []
    ensures Used(cl, done) && sent + ClBits(cl, done) == sent
  {
  }
}
