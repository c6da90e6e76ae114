/** longest_match: the optimised search along a hash chain finds what brute force finds. */
module LongestMatch {
  import opened Sums
  import opened Bits
  import opened RollingHash
  import opened StaticTables
  import opened HashChains

  // ---------- Brute force ----------

  /** The bytes at offset i from positions a and b are equal. */
  predicate Same(w: seq<byte>, a: nat, b: nat, i: nat)
  {
    a + i < |w| && b + i < |w| && w[a + i] == w[b + i]
  }

  /** The first len bytes from positions a and b are equal. */
  ghost predicate Repeats(w: seq<byte>, a: nat, b: nat, len: nat)
  {
    forall i: nat :: i < len ==> Same(w, a, b, i)
  }

  /** How many bytes are equal at positions a and b, at most n. */
  function Common(w: seq<byte>, a: nat, b: nat, n: nat): (k: nat)
    requires a + n <= |w| && b + n <= |w|
    ensures k <= n
    decreases n
  {
    if n == 0 || w[a] != w[b] then 0 else 1 + Common(w, a + 1, b + 1, n - 1)
  }

  /** The length of the match of the strings at a and b. */
  function MatchLen(w: seq<byte>, a: nat, b: nat): (k: nat)
    requires a + MAX_MATCH <= |w| && b + MAX_MATCH <= |w|
    ensures k <= MAX_MATCH
  {
    Common(w, a, b, MAX_MATCH)
  }

  lemma {:induction false} CommonIs(w: seq<byte>, a: nat, b: nat, n: nat, k: nat)
    requires a + n <= |w| && b + n <= |w| && k <= n
    requires forall i: nat :: i < k ==> Same(w, a, b, i)
    ensures k == n || !Same(w, a, b, k) ==> Common(w, a, b, n) == k
    decreases n
  {
    if k > 0 {
      var a', b' := a + 1, b + 1;
      assert Same(w, a, b, 0);
      forall i: nat | i < k - 1 ensures Same(w, a', b', i) {
        assert Same(w, a, b, i + 1);
      }
      CommonIs(w, a + 1, b + 1, n - 1, k - 1);
    }
  }

  /** A difference bounds the common part. */
  lemma {:induction false} CommonBelow(w: seq<byte>, a: nat, b: nat, n: nat, k: nat)
    requires a + n <= |w| && b + n <= |w| && k < n && !Same(w, a, b, k)
    ensures Common(w, a, b, n) <= k
    decreases n
  {
    if k > 0 && w[a] == w[b] {
      CommonBelow(w, a + 1, b + 1, n - 1, k - 1);
    }
  }

  lemma {:induction false} CommonEqual(w: seq<byte>, a: nat, b: nat, n: nat)
    requires a + n <= |w| && b + n <= |w|
    ensures forall i: nat :: i < Common(w, a, b, n) ==> Same(w, a, b, i)
    decreases n
  {
    if n > 0 && w[a] == w[b] {
      CommonEqual(w, a + 1, b + 1, n - 1);
      forall i: nat | i < Common(w, a, b, n) ensures Same(w, a, b, i) {
        assert i > 0 ==> Same(w, a + 1, b + 1, i - 1);
      }
    }
  }

  ghost predicate InWindow(w: seq<byte>, ps: seq<nat>)
  {
    forall i :: 0 <= i < |ps| ==> ps[i] + MAX_MATCH <= |w|
  }

  /** The best match among the given positions, or best if none is longer. */
  function BestLen(w: seq<byte>, ps: seq<nat>, b: nat, best: nat): nat
    requires InWindow(w, ps) && b + MAX_MATCH <= |w|
  {
    if ps == [] then best
    else
      var init := BestLen(w, ps[..|ps| - 1], b, best);
      var len := MatchLen(w, ps[|ps| - 1], b);
      if len > init then len else init
  }

  lemma BestNext(w: seq<byte>, ps: seq<nat>, p: nat, b: nat, best: nat)
    requires InWindow(w, ps) && p + MAX_MATCH <= |w| && b + MAX_MATCH <= |w|
    ensures InWindow(w, ps + [p])
    ensures var init, len := BestLen(w, ps, b, best), MatchLen(w, p, b);
            BestLen(w, ps + [p], b, best) == if len > init then len else init
  {
    assert (ps + [p])[..|ps|] == ps;
  }

  // ---------- The comparison loop ----------

  /** Compare from offset 3 on, eight bytes between two checks of the bound; returns the offset at
      which it stops: the first difference, or 258. */
  method Compare(window: array<byte>, scan: nat, cand: nat) returns (len: nat)
    requires scan + MAX_MATCH < window.Length && cand + MAX_MATCH < window.Length
    ensures 3 <= len <= MAX_MATCH
    ensures forall i: nat :: 3 <= i < len ==> Same(window[..], cand, scan, i)
    ensures len < MAX_MATCH ==> !Same(window[..], cand, scan, len)
  {
    ghost var w := window[..];
    var offset, equal := 2, true;
    ghost var rounds := 0;
    while equal && offset < MAX_MATCH
      invariant 2 <= offset <= MAX_MATCH && 0 <= rounds && (equal ==> offset == 2 + 8 * rounds)
      invariant forall i: nat :: 3 <= i < offset ==> Same(w, cand, scan, i)
      invariant offset >= 3 ==> Same(w, cand, scan, offset) == equal
      invariant !equal ==> offset >= 3
      decreases MAX_MATCH - offset, equal
    {
      ghost var start := offset;
      var step := 0;
      while equal && step < 8
        invariant 0 <= step <= 8 && start <= offset <= start + step && (equal ==> offset == start + step)
        invariant step > 0 ==> offset > start
        invariant forall i: nat :: 3 <= i < offset ==> Same(w, cand, scan, i)
        invariant offset >= 3 ==> Same(w, cand, scan, offset) == equal
        invariant !equal ==> offset >= 3
        decreases 8 - step, equal
      {
        offset := offset + 1;
        equal := window[scan + offset] == window[cand + offset];
        step := step + 1;
      }
      rounds := rounds + 1;
    }
    len := offset;
  }

  // ---------- The search ----------

  /** The parameters of a search: the string at scan, a chain of at most chain entries, a limit below
      which (or at which) entries are too old, the length good enough to stop at, and the match to improve
      on, of length best at start. */
  datatype Search = Search(scan: nat, limit: nat, chain: nat, nice: nat, best: nat, start: int)

  /** The last of the entries ps improves on those before it and is good enough to stop at. */
  ghost predicate GoodEnough(w: seq<byte>, q: Search, ps: seq<nat>)
  {
    && |ps| > 0 && InWindow(w, ps) && q.scan + MAX_MATCH <= |w|
    && MatchLen(w, ps[|ps| - 1], q.scan) > BestLen(w, ps[..|ps| - 1], q.scan, q.best)
    && MatchLen(w, ps[|ps| - 1], q.scan) >= q.nice
  }

  /** ps are the entries of the chain from cur on that a search visits: following the links, all
      but the first beyond the limit, at most chain of them, none after one that is good enough. */
  ghost predicate Walk(w: seq<byte>, prev: seq<Pos>, wBits: nat, q: Search, cur: nat, ps: seq<nat>)
  {
    && 0 < |ps| <= q.chain && ps[0] == cur
    && forall i :: 0 < i < |ps| ==> q.limit < ps[i] && LinkedTo(prev, wBits, ps[i - 1], ps[i]) && !GoodEnough(w, q, ps[..i])
  }

  ghost predicate LinkedTo(prev: seq<Pos>, wBits: nat, p: nat, next: nat)
  {
    Slot(p, wBits) < |prev| && prev[Slot(p, wBits)] == next
  }

  /** Why a search may end: the chain ends, enough entries were visited, or the match is good enough. */
  ghost predicate Ends(w: seq<byte>, prev: seq<Pos>, wBits: nat, q: Search, ps: seq<nat>)
  {
    |ps| > 0 && (|ps| == q.chain || ChainEnds(prev, wBits, q.limit, ps[|ps| - 1]) || GoodEnough(w, q, ps))
  }

  /** No entry beyond the limit follows p. */
  ghost predicate ChainEnds(prev: seq<Pos>, wBits: nat, limit: nat, p: nat)
  {
    Slot(p, wBits) < |prev| && prev[Slot(p, wBits)] <= limit
  }

  lemma {:induction false} SameWalk(w: seq<byte>, prev: seq<Pos>, wBits: nat, q: Search, cur: nat, ps: seq<nat>, ps': seq<nat>, n: nat)
    requires Walk(w, prev, wBits, q, cur, ps) && Walk(w, prev, wBits, q, cur, ps') && n <= |ps| && n <= |ps'|
    ensures ps[..n] == ps'[..n]
  {
    hide GoodEnough, Slot;
    if n > 1 {
      SameWalk(w, prev, wBits, q, cur, ps, ps', n - 1);
      assert ps[n - 2] == ps[..n - 1][n - 2] && ps'[n - 2] == ps'[..n - 1][n - 2];
      assert LinkedTo(prev, wBits, ps[n - 2], ps[n - 1]) && LinkedTo(prev, wBits, ps'[n - 2], ps'[n - 1]);
      assert ps[..n] == ps[..n - 1] + [ps[n - 1]] && ps'[..n] == ps'[..n - 1] + [ps'[n - 1]];
    }
  }

  lemma NotEnded(w: seq<byte>, prev: seq<Pos>, wBits: nat, q: Search, cur: nat, ps: seq<nat>, ps': seq<nat>)
    requires Walk(w, prev, wBits, q, cur, ps) && Walk(w, prev, wBits, q, cur, ps')
    ensures |ps| < |ps'| ==> !Ends(w, prev, wBits, q, ps)
  {
    hide GoodEnough, Slot;
    if |ps'| > |ps| {
      var n := |ps|;
      SameWalk(w, prev, wBits, q, cur, ps, ps', n);
      assert ps[..n] == ps && ps'[n - 1] == ps'[..n][n - 1];
      assert LinkedTo(prev, wBits, ps'[n - 1], ps'[n]);
    }
  }

  /** The entries visited are determined by the window, the links and the parameters of the search. */
  lemma WalkUnique(w: seq<byte>, prev: seq<Pos>, wBits: nat, q: Search, cur: nat, ps: seq<nat>, ps': seq<nat>)
    requires Walk(w, prev, wBits, q, cur, ps) && Ends(w, prev, wBits, q, ps)
    requires Walk(w, prev, wBits, q, cur, ps') && Ends(w, prev, wBits, q, ps')
    ensures ps == ps'
  {
    hide GoodEnough, Slot, Walk, Ends;
    NotEnded(w, prev, wBits, q, cur, ps, ps');
    NotEnded(w, prev, wBits, q, cur, ps', ps);
    SameWalk(w, prev, wBits, q, cur, ps, ps', |ps|);
  }

  /** configuration_table: the parameters of a compression level. */
  datatype Config = Config(goodLength: nat, maxLazy: nat, niceLength: nat, maxChain: nat)

  /** MAX_DIST(s). */
  function MaxDist(wBits: nat): int
  {
    Pow2(wBits) - MIN_LOOKAHEAD
  }

  /** An entry of the chain of the string at scan, within the distance limit. */
  ghost predicate OnChain(w: seq<byte>, z: HashSize, wBits: nat, ins: set<nat>, scan: nat, p: nat)
  {
    && scan + 3 <= |w| && p in ins && 0 < p < scan && scan - p <= MaxDist(wBits)
    && HashAt(w, z, p) == HashAt(w, z, scan)
  }

  /** The next entry is on the chain too, and older. */
  lemma ChainNext(w: seq<byte>, head: seq<Pos>, prev: seq<Pos>, wBits: nat, z: HashSize, ins: set<nat>, valid: nat, scan: nat, p: nat)
    requires Chains(w, head, prev, wBits, z, ins, scan + 1, valid) && OnChain(w, z, wBits, ins, scan, p)
    ensures Slot(p, wBits) < |prev|
    ensures var x := prev[Slot(p, wBits)]; x == NIL || (x < p && (scan - x <= MaxDist(wBits) ==> OnChain(w, z, wBits, ins, scan, x)))
  {
    hide UpdateHash, Hash3, Slot, SizeOk;
    assert Linked(w, prev, wBits, z, ins, p);
  }

  lemma SafeNext(w: seq<byte>, head: seq<Pos>, prev: seq<Pos>, wBits: nat, z: HashSize, ins: set<nat>, next: nat, valid: nat, p: nat)
    requires Chains(w, head, prev, wBits, z, ins, next, valid)
    ensures Slot(p, wBits) < |prev| && (prev[Slot(p, wBits)] == 0 || prev[Slot(p, wBits)] < next)
  {
    hide UpdateHash, Hash3, SizeOk, Slot;
    SlotBelow(p, wBits);
  }

  /** A failed probe rules an improvement out. */
  lemma ProbeFails(w: seq<byte>, p: nat, scan: nat, best: nat)
    requires p + MAX_MATCH <= |w| && scan + MAX_MATCH <= |w| && 1 <= best <= MAX_MATCH
    requires !Same(w, p, scan, best) || !Same(w, p, scan, best - 1) || !Same(w, p, scan, 0) || !Same(w, p, scan, 1)
    ensures MatchLen(w, p, scan) <= best
  {
    hide Same;
    if best < MAX_MATCH && !Same(w, p, scan, best) {
      CommonBelow(w, p, scan, MAX_MATCH, best);
    } else if !Same(w, p, scan, best - 1) {
      CommonBelow(w, p, scan, MAX_MATCH, best - 1);
    } else if !Same(w, p, scan, 0) {
      CommonBelow(w, p, scan, MAX_MATCH, 0);
    } else if !Same(w, p, scan, 1) {
      CommonBelow(w, p, scan, MAX_MATCH, 1);
    }
  }

  /** Two equal bytes and equal hashes: the third byte need not be compared. */
  lemma ProbesPass(w: seq<byte>, z: HashSize, wBits: nat, ins: set<nat>, scan: nat, p: nat, len: nat)
    requires SizeOk(z) && OnChain(w, z, wBits, ins, scan, p) && scan + MAX_MATCH < |w|
    requires Same(w, p, scan, 0) && Same(w, p, scan, 1) && 3 <= len <= MAX_MATCH
    requires forall i: nat :: 3 <= i < len ==> Same(w, p, scan, i)
    requires len < MAX_MATCH ==> !Same(w, p, scan, len)
    ensures MatchLen(w, p, scan) == len
  {
    ThirdByte(z, w[scan], w[scan + 1], w[p + 2], w[scan + 2]);
    hide UpdateHash, Hash3;
    assert Same(w, p, scan, 2);
    forall i: nat | i < len ensures Same(w, p, scan, i) {
    }
    CommonIs(w, p, scan, MAX_MATCH, len);
  }

  /** start is the first of the entries ps whose match is the longest, and before the first that improves
      on the match to begin with it is that one's. */
  ghost predicate FirstBest(w: seq<byte>, q: Search, ps: seq<nat>, start: int)
    requires InWindow(w, ps) && q.scan + MAX_MATCH <= |w|
  {
    var best := BestLen(w, ps, q.scan, q.best);
    if best == q.best then start == q.start
    else exists i :: FirstAt(w, q, ps, start, best, i)
  }

  ghost predicate FirstAt(w: seq<byte>, q: Search, ps: seq<nat>, start: int, best: nat, i: int)
    requires InWindow(w, ps) && q.scan + MAX_MATCH <= |w|
  {
    && 0 <= i < |ps| && ps[i] == start && MatchLen(w, ps[i], q.scan) == best
    && forall j :: 0 <= j < i ==> MatchLen(w, ps[j], q.scan) < best
  }

  lemma FirstBestNext(w: seq<byte>, q: Search, ps: seq<nat>, start: int, p: nat)
    requires InWindow(w, ps) && q.scan + MAX_MATCH <= |w| && p + MAX_MATCH <= |w| && FirstBest(w, q, ps, start)
    ensures InWindow(w, ps + [p])
    ensures FirstBest(w, q, ps + [p], if MatchLen(w, p, q.scan) > BestLen(w, ps, q.scan, q.best) then p else start)
  {
    hide MatchLen, BestLen;
    BestNext(w, ps, p, q.scan, q.best);
    var all, len, best := ps + [p], MatchLen(w, p, q.scan), BestLen(w, ps, q.scan, q.best);
    BestAbove(w, ps, q.scan, q.best);
    if len > best {
      assert FirstAt(w, q, all, p, len, |ps|);
    } else if best != q.best {
      var i :| FirstAt(w, q, ps, start, best, i);
      assert FirstAt(w, q, all, start, best, i);
    }
  }

  lemma {:induction false} BestAbove(w: seq<byte>, ps: seq<nat>, b: nat, best: nat)
    requires InWindow(w, ps) && b + MAX_MATCH <= |w|
    ensures BestLen(w, ps, b, best) >= best
    ensures forall i :: 0 <= i < |ps| ==> MatchLen(w, ps[i], b) <= BestLen(w, ps, b, best)
  {
    hide MatchLen;
    if ps != [] {
      BestAbove(w, ps[..|ps| - 1], b, best);
    }
  }

  /** What the search has found after visiting ps: the longest match so far, and where. */
  ghost predicate Found(w: seq<byte>, z: HashSize, wBits: nat, ins: set<nat>, q: Search, ps: seq<nat>, best: nat, start: int)
  {
    && InWindow(w, ps) && q.scan + MAX_MATCH <= |w|
    && best == BestLen(w, ps, q.scan, q.best) && best >= q.best && FirstBest(w, q, ps, start)
    && (best > q.best ==> start >= 0 && OnChain(w, z, wBits, ins, q.scan, start) && start + MAX_MATCH <= |w|
                          && MatchLen(w, start, q.scan) == best)
  }

  lemma FoundNext(w: seq<byte>, z: HashSize, wBits: nat, ins: set<nat>, q: Search, ps: seq<nat>, best: nat, start: int, p: nat)
    requires Found(w, z, wBits, ins, q, ps, best, start) && OnChain(w, z, wBits, ins, q.scan, p) && p + MAX_MATCH <= |w|
    ensures var len := MatchLen(w, p, q.scan);
            if len > best then Found(w, z, wBits, ins, q, ps + [p], len, p) else Found(w, z, wBits, ins, q, ps + [p], best, start)
  {
    hide MatchLen, OnChain, BestLen, FirstBest;
    BestNext(w, ps, p, q.scan, q.best);
    FirstBestNext(w, q, ps, start, p);
  }

  /** The bytes at matchStart repeat the first len bytes at scan, at a legal distance. */
  ghost predicate MatchAt(w: seq<byte>, wBits: nat, start: int, scan: nat, len: nat)
  {
    && 0 < start < scan && scan - start <= MaxDist(wBits)
    && Repeats(w, start, scan, len)
  }

  lemma FoundMatch(w: seq<byte>, z: HashSize, wBits: nat, ins: set<nat>, q: Search, ps: seq<nat>, best: nat, start: int, len: nat)
    requires Found(w, z, wBits, ins, q, ps, best, start) && q.best < len <= best
    ensures MatchAt(w, wBits, start, q.scan, len)
  {
    CommonEqual(w, start, q.scan, MAX_MATCH);
  }

  lemma WalkNext(w: seq<byte>, prev: seq<Pos>, wBits: nat, q: Search, cur: nat, ps: seq<nat>, p: nat)
    requires Walk(w, prev, wBits, q, cur, ps) && |ps| < q.chain && p > q.limit && LinkedTo(prev, wBits, ps[|ps| - 1], p)
    requires !GoodEnough(w, q, ps)
    ensures Walk(w, prev, wBits, q, cur, ps + [p])
  {
    hide GoodEnough, LinkedTo;
    var all := ps + [p];
    forall i | 0 < i < |all| ensures q.limit < all[i] && LinkedTo(prev, wBits, all[i - 1], all[i]) && !GoodEnough(w, q, all[..i]) {
      assert all[..i] == ps[..i];
      assert i == |ps| ==> ps[..i] == ps;
    }
  }

  lemma FoundStart(w: seq<byte>, z: HashSize, wBits: nat, ins: set<nat>, q: Search)
    requires q.scan + MAX_MATCH <= |w|
    ensures Found(w, z, wBits, ins, q, [], q.best, q.start)
  {
  }

  lemma WalkStep(w: seq<byte>, prev: seq<Pos>, wBits: nat, q: Search, cur0: nat, ps: seq<nat>, cur: nat)
    requires |ps| < q.chain && (ps == [] ==> cur == cur0)
    requires ps != [] ==> Walk(w, prev, wBits, q, cur0, ps) && q.limit < cur && LinkedTo(prev, wBits, ps[|ps| - 1], cur)
    requires ps != [] ==> !GoodEnough(w, q, ps)
    ensures Walk(w, prev, wBits, q, cur0, ps + [cur])
  {
    if ps != [] {
      WalkNext(w, prev, wBits, q, cur0, ps, cur);
    }
  }

  /** Visiting the entry at cur, of which the probe said len. */
  lemma Visit(w: seq<byte>, head: seq<Pos>, prev: seq<Pos>, wBits: nat, z: HashSize, ins: set<nat>, valid: nat, q: Search,
              ps: seq<nat>, best: nat, start: int, cur: nat, len: nat)
    requires Chains(w, head, prev, wBits, z, ins, q.scan + 1, valid) && OnChain(w, z, wBits, ins, q.scan, cur)
    requires Found(w, z, wBits, ins, q, ps, best, start) && q.scan + MAX_MATCH < |w| && 1 <= best <= MAX_MATCH && len <= MAX_MATCH
    requires q.limit == if q.scan > MaxDist(wBits) then q.scan - MaxDist(wBits) else NIL
    requires len == 0 ==> !Same(w, cur, q.scan, best) || !Same(w, cur, q.scan, best - 1) ||
                          !Same(w, cur, q.scan, 0) || !Same(w, cur, q.scan, 1)
    requires len > 0 ==> 3 <= len && Same(w, cur, q.scan, 0) && Same(w, cur, q.scan, 1)
    requires len > 0 ==> forall i: nat :: 3 <= i < len ==> Same(w, cur, q.scan, i)
    requires 0 < len < MAX_MATCH ==> !Same(w, cur, q.scan, len)
    ensures if len > best then Found(w, z, wBits, ins, q, ps + [cur], len, cur) else Found(w, z, wBits, ins, q, ps + [cur], best, start)
    ensures InWindow(w, ps + [cur]) && Slot(cur, wBits) < |prev|
    ensures LinkedTo(prev, wBits, cur, prev[Slot(cur, wBits)])
    ensures prev[Slot(cur, wBits)] > q.limit ==> OnChain(w, z, wBits, ins, q.scan, prev[Slot(cur, wBits)])
    ensures GoodEnough(w, q, ps + [cur]) <==> len > best && len >= q.nice
    ensures prev[Slot(cur, wBits)] <= q.limit || |ps| + 1 == q.chain || (len > best && len >= q.nice) ==>
              Ends(w, prev, wBits, q, ps + [cur])
  {
    hide Slot, Chains, Same, BestLen, MatchLen, UpdateHash, Hash3, SizeOk;
    assert (ps + [cur])[..|ps|] == ps;
    ChainZ(w, head, prev, wBits, z, ins, q.scan + 1, valid);
    ChainNext(w, head, prev, wBits, z, ins, valid, q.scan, cur);
    if len == 0 {
      ProbeFails(w, cur, q.scan, best);
    } else {
      ProbesPass(w, z, wBits, ins, q.scan, cur, len);
    }
    FoundNext(w, z, wBits, ins, q, ps, best, start, cur);
  }

  lemma ChainZ(w: seq<byte>, head: seq<Pos>, prev: seq<Pos>, wBits: nat, z: HashSize, ins: set<nat>, next: nat, valid: nat)
    requires Chains(w, head, prev, wBits, z, ins, next, valid)
    ensures SizeOk(z)
  {
  }

  lemma SearchMaxDist(scan: nat, wBits: nat)
    requires scan + MIN_LOOKAHEAD <= 2 * Pow2(wBits) && 9 <= wBits
    ensures MaxDist(wBits) > 0
  {
    Pow2Mono(9, wBits);
    Pow2Values();
  }

  /** The search as the state sets it up. */
  ghost predicate SearchOk(q: Search, wBits: nat, strstart: nat, lookahead: nat, prevLength: nat, cfg: Config)
  {
    && q.scan == strstart && q.best == prevLength
    && q.limit == (if strstart > MaxDist(wBits) then strstart - MaxDist(wBits) else NIL)
    && q.chain == (if prevLength >= cfg.goodLength then cfg.maxChain / 4 else cfg.maxChain)
    && q.nice == (if cfg.niceLength > lookahead then lookahead else cfg.niceLength)
  }

  /** Brute force over the entries visited: the result is the longest match among them, cut to the
      lookahead, and matchStart is the first place where it is, unless no entry improves on the match to begin
      with. */
  ghost predicate Exact(w: seq<byte>, prev: seq<Pos>, wBits: nat, q: Search, cur: nat, ps: seq<nat>, lookahead: nat,
                        len: nat, start: int)
  {
    && InWindow(w, ps) && q.scan + MAX_MATCH <= |w| && Walk(w, prev, wBits, q, cur, ps) && Ends(w, prev, wBits, q, ps)
    && len == (if BestLen(w, ps, q.scan, q.best) <= lookahead then BestLen(w, ps, q.scan, q.best) else lookahead)
    && (len > q.best ==> MatchAt(w, wBits, start, q.scan, len)) && FirstBest(w, q, ps, start)
  }

  lemma FoundExact(w: seq<byte>, prev: seq<Pos>, wBits: nat, z: HashSize, ins: set<nat>, q: Search, cur: nat, ps: seq<nat>,
                   lookahead: nat, best: nat, len: nat, start: int)
    requires Found(w, z, wBits, ins, q, ps, best, start) && Walk(w, prev, wBits, q, cur, ps)
    requires InWindow(w, ps) && q.scan + MAX_MATCH <= |w| && Ends(w, prev, wBits, q, ps)
    requires len == if best <= lookahead then best else lookahead
    ensures Exact(w, prev, wBits, q, cur, ps, lookahead, len, start)
  {
    hide Walk, Ends, OnChain, MatchLen, BestLen, MatchAt, GoodEnough, FirstBest;
    if len > q.best {
      FoundMatch(w, z, wBits, ins, q, ps, best, start, len);
    }
  }

  /** cur is the last string inserted before scan that has the hash of the one at scan. */
  ghost predicate NewestLink(w: seq<byte>, z: HashSize, ins: set<nat>, scan: nat, cur: nat)
  {
    scan + 3 <= |w| && Link(w, z, ins, cur, HashAt(w, z, scan), scan)
  }

  /** Brute force over all strings inserted within the limit, whatever their hash: none matches further. */
  ghost predicate Complete(w: seq<byte>, ins: set<nat>, q: Search, lookahead: nat, len: nat)
  {
    q.scan + MAX_MATCH <= |w| &&
    forall y :: y in ins && q.limit < y < q.scan && MatchLen(w, y, q.scan) >= MIN_MATCH ==> MatchLen(w, y, q.scan) <= len || len == lookahead
  }

  lemma {:induction false} WalkOnChain(w: seq<byte>, head: seq<Pos>, prev: seq<Pos>, wBits: nat, z: HashSize, ins: set<nat>, valid: nat,
                                       q: Search, cur: nat, ps: seq<nat>, k: nat)
    requires Chains(w, head, prev, wBits, z, ins, q.scan + 1, valid) && Walk(w, prev, wBits, q, cur, ps) && k < |ps|
    requires OnChain(w, z, wBits, ins, q.scan, cur) && q.limit == if q.scan > MaxDist(wBits) then q.scan - MaxDist(wBits) else NIL
    ensures OnChain(w, z, wBits, ins, q.scan, ps[k])
  {
    hide GoodEnough, Slot, Chains, OnChain, Pow2;
    if k > 0 {
      WalkOnChain(w, head, prev, wBits, z, ins, valid, q, cur, ps, k - 1);
      ChainNext(w, head, prev, wBits, z, ins, valid, q.scan, ps[k - 1]);
      assert LinkedTo(prev, wBits, ps[k - 1], ps[k]);
    }
  }

  /** Between two entries of a chain nothing is left out. */
  lemma NoneSkipped(w: seq<byte>, head: seq<Pos>, prev: seq<Pos>, wBits: nat, z: HashSize, ins: set<nat>, valid: nat, scan: nat, p: nat,
                    y: nat)
    requires Chains(w, head, prev, wBits, z, ins, scan + 1, valid) && OnChain(w, z, wBits, ins, scan, p)
    requires y in ins && y < p && y + 3 <= |w| && HashAt(w, z, y) == HashAt(w, z, scan)
    ensures Slot(p, wBits) < |prev| && y <= prev[Slot(p, wBits)]
  {
    hide HashAt, Slot, SizeOk;
    assert Linked(w, prev, wBits, z, ins, p);
    assert NoneBetween(w, z, ins, prev[Slot(p, wBits)], p, HashAt(w, z, p));
  }

  lemma {:induction false} VisitedOrBelow(w: seq<byte>, head: seq<Pos>, prev: seq<Pos>, wBits: nat, z: HashSize, ins: set<nat>, valid: nat,
                                          q: Search, cur: nat, ps: seq<nat>, y: nat, k: nat)
    requires Chains(w, head, prev, wBits, z, ins, q.scan + 1, valid) && Walk(w, prev, wBits, q, cur, ps) && k < |ps|
    requires OnChain(w, z, wBits, ins, q.scan, cur) && q.limit == if q.scan > MaxDist(wBits) then q.scan - MaxDist(wBits) else NIL
    requires NewestLink(w, z, ins, q.scan, cur)
    requires y in ins && y < q.scan && y + 3 <= |w| && HashAt(w, z, y) == HashAt(w, z, q.scan)
    ensures y in ps[..k + 1] || y < ps[k]
  {
    hide GoodEnough, Slot, Chains, OnChain, HashAt, Pow2;
    if k > 0 {
      VisitedOrBelow(w, head, prev, wBits, z, ins, valid, q, cur, ps, y, k - 1);
      assert ps[..k + 1] == ps[..k] + [ps[k]];
      if y < ps[k - 1] {
        WalkOnChain(w, head, prev, wBits, z, ins, valid, q, cur, ps, k - 1);
        NoneSkipped(w, head, prev, wBits, z, ins, valid, q.scan, ps[k - 1], y);
        assert LinkedTo(prev, wBits, ps[k - 1], ps[k]);
      }
    } else {
      assert ps[0] == cur && NoneBetween(w, z, ins, cur, q.scan, HashAt(w, z, q.scan));
    }
  }

  /** A walk to the end of the chain visits every string inserted beyond the limit that has the hash. */
  lemma AllVisited(w: seq<byte>, head: seq<Pos>, prev: seq<Pos>, wBits: nat, z: HashSize, ins: set<nat>, valid: nat,
                   q: Search, cur: nat, ps: seq<nat>, y: nat)
    requires Chains(w, head, prev, wBits, z, ins, q.scan + 1, valid) && Walk(w, prev, wBits, q, cur, ps)
    requires OnChain(w, z, wBits, ins, q.scan, cur) && q.limit == if q.scan > MaxDist(wBits) then q.scan - MaxDist(wBits) else NIL
    requires NewestLink(w, z, ins, q.scan, cur) && ChainEnds(prev, wBits, q.limit, ps[|ps| - 1])
    requires y in ins && q.limit < y < q.scan && y + 3 <= |w| && HashAt(w, z, y) == HashAt(w, z, q.scan)
    ensures y in ps
  {
    hide GoodEnough, Slot, Chains, OnChain, HashAt, Pow2, NewestLink;
    var last := |ps| - 1;
    VisitedOrBelow(w, head, prev, wBits, z, ins, valid, q, cur, ps, y, last);
    if y < ps[last] {
      WalkOnChain(w, head, prev, wBits, z, ins, valid, q, cur, ps, last);
      NoneSkipped(w, head, prev, wBits, z, ins, valid, q.scan, ps[last], y);
    }
  }

  lemma {:induction false} BestOf(w: seq<byte>, ps: seq<nat>, b: nat, best: nat, y: nat)
    requires InWindow(w, ps) && b + MAX_MATCH <= |w| && y in ps
    ensures y + MAX_MATCH <= |w| && MatchLen(w, y, b) <= BestLen(w, ps, b, best)
  {
    hide MatchLen;
    var last := |ps| - 1;
    if y != ps[last] {
      assert y in ps[..last];
      BestOf(w, ps[..last], b, best, y);
    }
  }

  lemma SameHash(w: seq<byte>, z: HashSize, y: nat, scan: nat)
    requires y + MAX_MATCH <= |w| && scan + MAX_MATCH <= |w| && MatchLen(w, y, scan) >= MIN_MATCH
    ensures HashAt(w, z, y) == HashAt(w, z, scan)
  {
    hide Hash3;
    CommonEqual(w, y, scan, MAX_MATCH);
    assert Same(w, y, scan, 0) && Same(w, y, scan, 1) && Same(w, y, scan, 2);
  }

  /** No string inserted after the one found matches as far. */
  ghost predicate Nearest(w: seq<byte>, ins: set<nat>, q: Search, ps: seq<nat>, start: int)
  {
    && InWindow(w, ps) && q.scan + MAX_MATCH <= |w|
    && (BestLen(w, ps, q.scan, q.best) != q.best ==>
          && 0 <= start < q.scan
          && forall y :: y in ins && start < y < q.scan && MatchLen(w, y, q.scan) >= MIN_MATCH ==>
               MatchLen(w, y, q.scan) < MatchLen(w, start, q.scan))
  }

  lemma StartNearest(w: seq<byte>, head: seq<Pos>, prev: seq<Pos>, wBits: nat, z: HashSize, ins: set<nat>, valid: nat,
                     q: Search, cur: nat, ps: seq<nat>, lookahead: nat, len: nat, start: int)
    requires Chains(w, head, prev, wBits, z, ins, q.scan + 1, valid) && Exact(w, prev, wBits, q, cur, ps, lookahead, len, start)
    requires OnChain(w, z, wBits, ins, q.scan, cur) && q.limit == if q.scan > MaxDist(wBits) then q.scan - MaxDist(wBits) else NIL
    requires NewestLink(w, z, ins, q.scan, cur)
    ensures Nearest(w, ins, q, ps, start)
  {
    hide Slot, Chains, HashAt, Pow2, NewestLink, MatchLen, BestLen, MatchAt, Walk, Ends;
    var best := BestLen(w, ps, q.scan, q.best);
    if best != q.best {
      var i: nat :| FirstAt(w, q, ps, start, best, i);
      WalkOnChain(w, head, prev, wBits, z, ins, valid, q, cur, ps, i);
      forall y | y in ins && start < y < q.scan && MatchLen(w, y, q.scan) >= MIN_MATCH
        ensures MatchLen(w, y, q.scan) < MatchLen(w, start, q.scan)
      {
        SameHash(w, z, y, q.scan);
        VisitedOrBelow(w, head, prev, wBits, z, ins, valid, q, cur, ps, y, i);
        var j :| 0 <= j < i + 1 && ps[..i + 1][j] == y;
        assert ps[j] == y;
      }
    }
  }

  /** If neither the chain limit nor a nice match ended the search, it is brute force over all strings. */
  lemma SearchComplete(w: seq<byte>, head: seq<Pos>, prev: seq<Pos>, wBits: nat, z: HashSize, ins: set<nat>, valid: nat,
                       q: Search, cur: nat, ps: seq<nat>, lookahead: nat, len: nat, start: int, niceLength: nat)
    requires Chains(w, head, prev, wBits, z, ins, q.scan + 1, valid) && Exact(w, prev, wBits, q, cur, ps, lookahead, len, start)
    requires OnChain(w, z, wBits, ins, q.scan, cur) && q.limit == if q.scan > MaxDist(wBits) then q.scan - MaxDist(wBits) else NIL
    requires NewestLink(w, z, ins, q.scan, cur) && q.nice == if niceLength > lookahead then lookahead else niceLength
    ensures |ps| < q.chain && len < niceLength ==> Complete(w, ins, q, lookahead, len)
  {
    hide Slot, Chains, OnChain, HashAt, Pow2, NewestLink, MatchLen, BestLen, MatchAt, Walk;
    forall y | |ps| < q.chain && len < niceLength && y in ins && q.limit < y < q.scan && MatchLen(w, y, q.scan) >= MIN_MATCH
      ensures MatchLen(w, y, q.scan) <= len || len == lookahead
    {
      SameHash(w, z, y, q.scan);
      if GoodEnough(w, q, ps) {
        BestOf(w, ps, q.scan, q.best, ps[|ps| - 1]);
      } else {
        AllVisited(w, head, prev, wBits, z, ins, valid, q, cur, ps, y);
        BestOf(w, ps, q.scan, q.best, y);
      }
    }
  }

  /** One probe of the search at cur, best being the best length so far; the match length if all
      four probes succeed, 0 otherwise. */
  method Probe(window: array<byte>, cur: nat, scan: nat, best: nat) returns (len: nat)
    requires cur + MAX_MATCH < window.Length && scan + MAX_MATCH < window.Length && 1 <= best <= MAX_MATCH
    ensures len <= MAX_MATCH
    ensures len == 0 ==> !Same(window[..], cur, scan, best) || !Same(window[..], cur, scan, best - 1) ||
                         !Same(window[..], cur, scan, 0) || !Same(window[..], cur, scan, 1)
    ensures len > 0 ==> 3 <= len && Same(window[..], cur, scan, 0) && Same(window[..], cur, scan, 1)
    ensures len > 0 ==> forall i: nat :: 3 <= i < len ==> Same(window[..], cur, scan, i)
    ensures 0 < len < MAX_MATCH ==> !Same(window[..], cur, scan, len)
  {
    // scan_end and scan_end1 of the source are window[scan + best] and window[scan + best - 1]
    if window[cur + best] != window[scan + best] || window[cur + best - 1] != window[scan + best - 1] ||
       window[cur] != window[scan] || window[cur + 1] != window[scan + 1]
    {
      return 0;
    }
    len := Compare(window, scan, cur);
  }

  /** What a search of the chain from cur that visits ps finds. */
  ghost predicate Result(w: seq<byte>, prev: seq<Pos>, wBits: nat, ins: set<nat>, q: Search, cur: nat, ps: seq<nat>, lookahead: nat,
                         niceLength: nat, len: nat, start: int)
  {
    && Exact(w, prev, wBits, q, cur, ps, lookahead, len, start) && Nearest(w, ins, q, ps, start)
    && (len > q.best ==> start >= 0 && start in ins)
    && (|ps| < q.chain && len < niceLength ==> Complete(w, ins, q, lookahead, len))
  }

  lemma SearchResult(w: seq<byte>, head: seq<Pos>, prev: seq<Pos>, wBits: nat, z: HashSize, ins: set<nat>, valid: nat,
                     q: Search, cur: nat, ps: seq<nat>, lookahead: nat, best: nat, len: nat, start: int, next: nat, niceLength: nat)
    requires Chains(w, head, prev, wBits, z, ins, q.scan + 1, valid) && OnChain(w, z, wBits, ins, q.scan, cur)
    requires Searching(w, prev, wBits, z, ins, q, cur, ps, next, best, start, false)
    requires NewestLink(w, z, ins, q.scan, cur) && q.nice == if niceLength > lookahead then lookahead else niceLength
    requires q.limit == (if q.scan > MaxDist(wBits) then q.scan - MaxDist(wBits) else NIL)
    requires len == if best <= lookahead then best else lookahead
    ensures Result(w, prev, wBits, ins, q, cur, ps, lookahead, niceLength, len, start)
  {
    hide Chains, Walk, BestLen, MatchLen, Exact, Ends, GoodEnough, Complete, Nearest, NewestLink, FirstBest;
    FoundExact(w, prev, wBits, z, ins, q, cur, ps, lookahead, best, len, start);
    StartNearest(w, head, prev, wBits, z, ins, valid, q, cur, ps, lookahead, len, start);
    SearchComplete(w, head, prev, wBits, z, ins, valid, q, cur, ps, lookahead, len, start, niceLength);
  }

  /** The search between two visits, or after the last one. */
  ghost predicate Searching(w: seq<byte>, prev: seq<Pos>, wBits: nat, z: HashSize, ins: set<nat>, q: Search, cur0: nat, ps: seq<nat>,
                            cur: nat, best: nat, start: int, go: bool)
  {
    && InWindow(w, ps) && q.scan + MAX_MATCH <= |w| && Found(w, z, wBits, ins, q, ps, best, start)
    && (ps != [] ==> Walk(w, prev, wBits, q, cur0, ps))
    && (if go then
          && OnChain(w, z, wBits, ins, q.scan, cur)
          && (if ps == [] then cur == cur0 else q.limit < cur && LinkedTo(prev, wBits, ps[|ps| - 1], cur) && !GoodEnough(w, q, ps))
        else ps != [] && Ends(w, prev, wBits, q, ps))
  }

  lemma SearchStart(w: seq<byte>, prev: seq<Pos>, wBits: nat, z: HashSize, ins: set<nat>, q: Search, cur: nat)
    requires q.scan + MAX_MATCH <= |w| && OnChain(w, z, wBits, ins, q.scan, cur)
    ensures Searching(w, prev, wBits, z, ins, q, cur, [], cur, q.best, q.start, true)
  {
    hide OnChain;
    FoundStart(w, z, wBits, ins, q);
  }

  /** One visit. */
  lemma SearchStep(w: seq<byte>, head: seq<Pos>, prev: seq<Pos>, wBits: nat, z: HashSize, ins: set<nat>, valid: nat, q: Search,
                   cur0: nat, ps: seq<nat>, best: nat, start: int, cur: nat, len: nat)
    requires Chains(w, head, prev, wBits, z, ins, q.scan + 1, valid) && Searching(w, prev, wBits, z, ins, q, cur0, ps, cur, best, start, true)
    requires q.scan + MAX_MATCH < |w| && 1 <= best <= MAX_MATCH && len <= MAX_MATCH && |ps| < q.chain
    requires q.limit == if q.scan > MaxDist(wBits) then q.scan - MaxDist(wBits) else NIL
    requires len == 0 ==> !Same(w, cur, q.scan, best) || !Same(w, cur, q.scan, best - 1) ||
                          !Same(w, cur, q.scan, 0) || !Same(w, cur, q.scan, 1)
    requires len > 0 ==> 3 <= len && Same(w, cur, q.scan, 0) && Same(w, cur, q.scan, 1)
    requires len > 0 ==> forall i: nat :: 3 <= i < len ==> Same(w, cur, q.scan, i)
    requires 0 < len < MAX_MATCH ==> !Same(w, cur, q.scan, len)
    ensures Slot(cur, wBits) < |prev|
    ensures var best', start', next := if len > best then len else best, if len > best then cur else start, prev[Slot(cur, wBits)];
            if len > best && len >= q.nice then Searching(w, prev, wBits, z, ins, q, cur0, ps + [cur], cur, best', start', false)
            else Searching(w, prev, wBits, z, ins, q, cur0, ps + [cur], next, best', start', next > q.limit && |ps| + 1 != q.chain)
  {
    hide Slot, Chains, OnChain, Found, Walk, LinkedTo, Same, BestLen, MatchLen, Ends, InWindow, GoodEnough;
    WalkStep(w, prev, wBits, q, cur0, ps, cur);
    Visit(w, head, prev, wBits, z, ins, valid, q, ps, best, start, cur, len);
  }

  /** longest_match. With at least three bytes of lookahead cur is the head of the chain of the
      string at strstart. */
  method FindLongest(window: array<byte>, dict: Dictionary, strstart: nat, lookahead: nat, prevLength: nat, cfg: Config,
                     cur0: nat, start0: int)
      returns (len: nat, start: int, ghost q: Search, ghost ps: seq<nat>)
    requires dict.Valid(window[..], strstart + lookahead) && dict.next <= strstart + 1
    requires strstart + MIN_LOOKAHEAD <= window.Length && 1 <= lookahead && 1 <= prevLength <= MAX_MATCH && cfg.maxChain >= 4
    requires NIL < cur0 <= strstart && strstart - cur0 <= MaxDist(dict.wBits)
    requires lookahead >= MIN_MATCH ==>
               && dict.next == strstart + 1 && OnChain(window[..], dict.z, dict.wBits, dict.ins, strstart, cur0)
               && NewestLink(window[..], dict.z, dict.ins, strstart, cur0)
    ensures 1 <= len <= lookahead && len <= MAX_MATCH && SearchOk(q, dict.wBits, strstart, lookahead, prevLength, cfg) && q.start == start0
    ensures lookahead >= MIN_MATCH ==>
              Result(window[..], dict.prev[..], dict.wBits, dict.ins, q, cur0, ps, lookahead, cfg.niceLength, len, start)
  {
    hide Slot, Chains, OnChain, Same, Searching, Result, NewestLink, UpdateHash;
    ghost var w, prev, wBits, z, ins := window[..], dict.prev[..], dict.wBits, dict.z, dict.ins;
    ghost var exact := lookahead >= MIN_MATCH;
    ChainSizes(w, dict.head[..], prev, wBits, z, ins, dict.next, strstart + lookahead);
    var chain: nat, limit: nat := cfg.maxChain, NIL;
    if strstart > MaxDist(dict.wBits) {
      limit := strstart - MaxDist(dict.wBits);
    }
    if prevLength >= cfg.goodLength {
      chain := chain / 4;
    }
    var nice := cfg.niceLength;
    if nice > lookahead {
      nice := lookahead;
    }
    q := Search(strstart, limit, chain, nice, prevLength, start0);
    var cur: nat, best: nat := cur0, prevLength;
    start, ps := start0, [];
    var go := true;
    SearchMaxDist(strstart, wBits);
    if exact {
      SearchStart(w, prev, wBits, z, ins, q, cur0);
    }
    while go
      invariant 1 <= best <= MAX_MATCH && cur <= strstart
      invariant go ==> 0 < chain && chain == q.chain - |ps|
      invariant exact ==> Searching(w, prev, wBits, z, ins, q, cur0, ps, cur, best, start, go)
      decreases go, chain
    {
      var l := Probe(window, cur, strstart, best);
      if exact {
        SearchStep(w, dict.head[..], prev, wBits, z, ins, strstart + lookahead, q, cur0, ps, best, start, cur, l);
      }
      SafeNext(w, dict.head[..], prev, wBits, z, ins, dict.next, strstart + lookahead, cur);
      ps := ps + [cur];
      var better := l > best;
      if better {
        start := cur;
        best := l;
      }
      if better && l >= nice {
        go := false;
        break;
      }
      cur := dict.prev[Slot(cur, dict.wBits)];
      chain := chain - 1;
      go := cur > limit && chain != 0;
    }
    len := if best <= lookahead then best else lookahead;
    if exact {
      SearchResult(w, dict.head[..], prev, wBits, z, ins, strstart + lookahead, q, cur0, ps, lookahead, best, len, start, cur, cfg.niceLength);
    }
  }
}
