/** Which tokens the searches of a stream lead to, and what an honest search is. */
module LazyParse {
  import opened Sums
  import opened Bits
  import opened StaticTables
  import opened Tokens
  import opened RollingHash
  import opened HashChains
  import opened LongestMatch

  const TOO_FAR: nat := 4096

  const Z_FILTERED: nat := 1
  const Z_HUFFMAN_ONLY: nat := 2

  // ---------- Searches ----------

  /** How a stream is parsed: with lazy matching or without, and with what parameters. */
  datatype Mode = Mode(lazy: bool, cfg: Config, strategy: nat, wBits: nat, z: HashSize)

  /** What a search looked at: the window, which starts at input position base, and the dictionary; the head
      of the chain, the match to improve on, and the entries visited with the length found. */
  datatype View = View(w: seq<byte>, head: seq<Pos>, prev: seq<Pos>, ins: set<nat>, base: int, lookahead: nat,
                       hashHead: nat, prevLength: nat, q: Search, ps: seq<nat>, found: nat)

  /** The outcome of the search at a position of the input: a match of length len with the text at from, or
      none if len is below 3. */
  datatype Find = Find(len: nat, from: int, view: View)

  /** Whether a step searches: there is a head near enough, no good match is held, and matches are wanted. */
  predicate Searches(hashHead: nat, strstart: nat, wBits: nat, prevLength: nat, maxLazy: nat, strategy: nat)
  {
    && hashHead != NIL && hashHead <= strstart && strstart - hashHead <= MaxDist(wBits)
    && prevLength < maxLazy && strategy != Z_HUFFMAN_ONLY
  }

  /** A match to be dropped: a short one if the data is filtered, one of three bytes if it is too far. */
  predicate Poor(strategy: nat, len: nat, distance: int)
  {
    len <= 5 && (strategy == Z_FILTERED || (len == MIN_MATCH && distance > TOO_FAR))
  }

  /** What a step makes of the search at window position scan: the match found, unless it is dropped. */
  ghost predicate Outcome(m: Mode, v: View, scan: nat, len: nat, start: int)
  {
    if Searches(v.hashHead, scan, m.wBits, v.prevLength, if m.lazy then m.cfg.maxLazy else MAX_MATCH, m.strategy) then
      && v.found <= v.lookahead && SearchOk(v.q, m.wBits, scan, v.lookahead, v.prevLength, m.cfg)
      && (v.lookahead >= MIN_MATCH ==>
            Result(v.w, v.prev, m.wBits, v.ins, v.q, v.hashHead, v.ps, v.lookahead, m.cfg.niceLength, v.found, start))
      && len == if m.lazy && Poor(m.strategy, v.found, scan - start) then MIN_MATCH - 1 else v.found
    else len < MIN_MATCH
  }

  /** The first n bytes of the window are input, from base on. */
  ghost predicate Shows(w: seq<byte>, input: seq<byte>, base: int, n: nat)
  {
    n <= |w| && base + n <= |input| && forall i :: 0 <= i < n && base + i >= 0 ==> w[i] == input[base + i]
  }

  /** The window goes back to the start of the input or as far as matches do. */
  ghost predicate ReachesBack(base: int, scan: int, wBits: nat)
  {
    base > 0 ==> scan >= MaxDist(wBits)
  }

  /** An honest search at position k of the input: the window showed the input as far back as matches
      go, the chains were those of all strings before k in it but the skipped ones, and the outcome is
      that of the search. */
  ghost predicate Honest(m: Mode, input: seq<byte>, skipped: set<int>, k: int, f: Find)
  {
    var v := f.view;
    && v.base <= k && ReachesBack(v.base, k - v.base, m.wBits)
    && Shows(v.w, input, v.base, k - v.base + v.lookahead) && Indexed(v.ins, skipped, v.base, k - v.base)
    && (v.lookahead >= MIN_MATCH ==>
          && Chains(v.w, v.head, v.prev, m.wBits, m.z, v.ins, k - v.base + 1, k - v.base + v.lookahead)
          && NewestLink(v.w, m.z, v.ins, k - v.base, v.hashHead))
    && Outcome(m, v, k - v.base, f.len, f.from - v.base)
  }

  /** The match to improve on is the one found at the position before, if that was searched. */
  ghost predicate Carried(finds: map<int, Find>, k: int)
    requires k in finds
  {
    if k - 1 in finds then finds[k].view.prevLength == finds[k - 1].len else finds[k].view.prevLength < MIN_MATCH
  }

  /** All searches are before end, and honest. */
  ghost predicate AllHonest(m: Mode, input: seq<byte>, skipped: set<int>, finds: map<int, Find>, end: int)
  {
    forall k :: k in finds ==> 0 <= k < end && Honest(m, input, skipped, k, finds[k]) && (m.lazy ==> Carried(finds, k))
  }

  /** The positions newly skipped have fewer than three bytes before the end of the input, at n. */
  ghost predicate Late(skipped: set<int>, skipped': set<int>, n: int)
  {
    skipped <= skipped' && forall p :: p in skipped' && p !in skipped ==> p + MIN_MATCH > n
  }

  /** More searches. */
  ghost predicate Grown(finds: map<int, Find>, finds': map<int, Find>)
  {
    forall k :: k in finds ==> k in finds' && finds'[k] == finds[k]
  }

  lemma HonestMore(m: Mode, input: seq<byte>, more: seq<byte>, skipped: set<int>, skipped': set<int>, finds: map<int, Find>, end: int,
                   end': int)
    requires AllHonest(m, input, skipped, finds, end) && skipped <= skipped' && end <= end'
    ensures AllHonest(m, input + more, skipped', finds, end')
  {
    hide Chains, NewestLink, Outcome, Carried;
    forall k | k in finds ensures Honest(m, input + more, skipped', k, finds[k]) {
      assert Honest(m, input, skipped, k, finds[k]);
    }
  }

  lemma HonestNext(m: Mode, input: seq<byte>, skipped: set<int>, finds: map<int, Find>, k: int, f: Find)
    requires AllHonest(m, input, skipped, finds, k) && k >= 0 && Honest(m, input, skipped, k, f)
    requires m.lazy ==> if k - 1 in finds then f.view.prevLength == finds[k - 1].len else f.view.prevLength < MIN_MATCH
    ensures AllHonest(m, input, skipped, finds[k := f], k + 1)
  {
    hide Honest;
  }

  lemma NoFinds(m: Mode, input: seq<byte>, skipped: set<int>, end: int)
    ensures AllHonest(m, input, skipped, map[], end)
  {
  }

  // ---------- Tokens ----------

  /** What is tallied so far: the searches, and the tokens of the blocks already flushed. */
  datatype Log = Log(lazy: bool, finds: map<int, Find>, done: seq<Token>)

  /** A match was found at p, and it is not given up for a longer one at the next position. */
  ghost predicate Stands(lazy: bool, finds: map<int, Find>, p: int)
  {
    p in finds && finds[p].len >= MIN_MATCH && !(lazy && p + 1 in finds && finds[p + 1].len > finds[p].len)
  }

  /** The token for the input from position p on: the match found there if it stands, and otherwise the
      byte. With lazy matching a match is only decided on after the search at the next position. */
  ghost predicate Rule(lazy: bool, finds: map<int, Find>, input: seq<byte>, p: int, t: Token)
  {
    && p in finds && 0 <= p < |input|
    && (lazy && finds[p].len >= MIN_MATCH ==> p + 1 in finds)
    && (if Stands(lazy, finds, p) then t.Match? && t.len == finds[p].len && t.dist == p - finds[p].from else t == Lit(input[p]))
  }

  function Width(toks: seq<Token>): nat
  {
    if toks == [] then 0
    else
      var t := toks[|toks| - 1];
      Width(toks[..|toks| - 1]) + if t.Match? then t.len else 1
  }

  /** Every token is the one the searches decide on. */
  ghost predicate Parses(lazy: bool, finds: map<int, Find>, input: seq<byte>, toks: seq<Token>)
  {
    toks != [] ==>
      var front := toks[..|toks| - 1];
      Parses(lazy, finds, input, front) && Rule(lazy, finds, input, Width(front), toks[|toks| - 1])
  }

  /** The tokens make the input up to end. */
  ghost predicate ParsedTo(log: Log, input: seq<byte>, toks: seq<Token>, end: int)
  {
    Parses(log.lazy, log.finds, input, log.done + toks) && Width(log.done + toks) == end
  }

  lemma ParsedNext(log: Log, input: seq<byte>, toks: seq<Token>, p: int, t: Token)
    requires ParsedTo(log, input, toks, p) && Rule(log.lazy, log.finds, input, p, t)
    ensures ParsedTo(log, input, toks + [t], p + if t.Match? then t.len else 1)
  {
    hide Rule;
    var all := log.done + (toks + [t]);
    assert all[..|all| - 1] == log.done + toks;
  }

  lemma {:induction false} ParsesMore(lazy: bool, finds: map<int, Find>, input: seq<byte>, more: seq<byte>, toks: seq<Token>)
    requires Parses(lazy, finds, input, toks)
    ensures Parses(lazy, finds, input + more, toks)
    decreases |toks|
  {
    if toks != [] {
      ParsesMore(lazy, finds, input, more, toks[..|toks| - 1]);
    }
  }

  /** A search at a position not searched before decides no token anew. */
  lemma {:induction false} ParsesFind(lazy: bool, finds: map<int, Find>, input: seq<byte>, toks: seq<Token>, k: int, f: Find)
    requires Parses(lazy, finds, input, toks) && k !in finds
    ensures Parses(lazy, finds[k := f], input, toks)
    decreases |toks|
  {
    if toks != [] {
      ParsesFind(lazy, finds, input, toks[..|toks| - 1], k, f);
    }
  }

  lemma ParsedMore(log: Log, input: seq<byte>, more: seq<byte>, toks: seq<Token>, end: int)
    requires ParsedTo(log, input, toks, end)
    ensures ParsedTo(log, input + more, toks, end)
  {
    ParsesMore(log.lazy, log.finds, input, more, log.done + toks);
  }

  lemma ParsedFind(log: Log, input: seq<byte>, toks: seq<Token>, end: int, k: int, f: Find)
    requires ParsedTo(log, input, toks, end) && k !in log.finds
    ensures ParsedTo(log.(finds := log.finds[k := f]), input, toks, end)
  {
    ParsesFind(log.lazy, log.finds, input, log.done + toks, k, f);
  }

  /** The tokens of a block flushed. */
  lemma ParsedFlushed(log: Log, input: seq<byte>, toks: seq<Token>, end: int)
    requires ParsedTo(log, input, toks, end)
    ensures ParsedTo(log.(done := log.done + toks), input, [], end)
  {
    assert log.done + toks + [] == log.done + toks;
  }

  // ---------- What the rule means ----------

  /** Each token of a parse, at its place. */
  lemma {:induction false} TokenAt(lazy: bool, finds: map<int, Find>, input: seq<byte>, toks: seq<Token>, i: nat)
    requires Parses(lazy, finds, input, toks) && i < |toks|
    ensures Rule(lazy, finds, input, Width(toks[..i]), toks[i])
    decreases |toks|
  {
    hide Rule;
    if i < |toks| - 1 {
      TokenAt(lazy, finds, input, toks[..|toks| - 1], i);
      assert toks[..|toks| - 1][..i] == toks[..i];
    }
  }

  /** The searches determine the tokens. */
  lemma {:induction false} ParseUnique(lazy: bool, finds: map<int, Find>, input: seq<byte>, a: seq<Token>, b: seq<Token>, n: nat)
    requires Parses(lazy, finds, input, a) && Parses(lazy, finds, input, b) && n <= |a| && n <= |b|
    ensures a[..n] == b[..n]
  {
    hide Rule;
    if n > 0 {
      ParseUnique(lazy, finds, input, a, b, n - 1);
      TokenAt(lazy, finds, input, a, n - 1);
      TokenAt(lazy, finds, input, b, n - 1);
      RuleUnique(lazy, finds, input, Width(a[..n - 1]), a[n - 1], b[n - 1]);
      assert a[..n] == a[..n - 1] + [a[n - 1]] && b[..n] == b[..n - 1] + [b[n - 1]];
    }
  }

  lemma RuleUnique(lazy: bool, finds: map<int, Find>, input: seq<byte>, p: int, t: Token, u: Token)
    requires Rule(lazy, finds, input, p, t) && Rule(lazy, finds, input, p, u)
    ensures t == u
  {
  }

  /** No byte where a match was found goes out as a literal, unless the next position's match is strictly
      longer; and no match goes out that is beaten there. */
  lemma LiteralOnlyIfBeaten(lazy: bool, finds: map<int, Find>, input: seq<byte>, toks: seq<Token>, i: nat)
    requires Parses(lazy, finds, input, toks) && i < |toks|
    ensures var p := Width(toks[..i]);
            && p in finds
            && (toks[i].Lit? ==>
                  finds[p].len < MIN_MATCH || (lazy && p + 1 in finds && finds[p + 1].len > finds[p].len))
            && (toks[i].Match? ==> toks[i].len == finds[p].len >= MIN_MATCH && toks[i].dist == p - finds[p].from)
            && (toks[i].Match? && lazy ==> p + 1 in finds && finds[p + 1].len <= finds[p].len)
  {
    TokenAt(lazy, finds, input, toks, i);
  }
}
