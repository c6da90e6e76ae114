/** What the sliding window, the tokens and the held-back literal stand for: the input. */
module Lz77 {
  import opened Sums
  import opened Bits
  import opened Inflate
  import opened StaticTables
  import opened Tokens
  import opened HashChains
  import opened LongestMatch
  import opened LazyParse

  /** The first n bytes of the window are the input from base on, to its end; if base is negative, what is
      before the input is not looked at. */
  ghost predicate Held(w: seq<byte>, input: seq<byte>, base: int, n: nat)
  {
    n <= |w| && |input| == base + n && forall i :: 0 <= i < n && base + i >= 0 ==> w[i] == input[base + i]
  }

  lemma HeldSlice(w: seq<byte>, input: seq<byte>, base: int, n: nat, a: nat, b: nat)
    requires Held(w, input, base, n) && a <= b <= n && base + a >= 0
    ensures w[a..b] == input[base + a..base + b]
  {
  }

  lemma HeldMore(w: seq<byte>, w': seq<byte>, input: seq<byte>, base: int, n: nat, more: seq<byte>)
    requires Held(w, input, base, n) && |w'| == |w| && n + |more| <= |w|
    requires w'[..n] == w[..n] && w'[n..n + |more|] == more
    ensures Held(w', input + more, base, n + |more|)
  {
    forall i | 0 <= i < n + |more| && base + i >= 0 ensures w'[i] == (input + more)[base + i] {
      if i < n {
        assert w'[..n][i] == w[..n][i];
      } else {
        assert w'[n..n + |more|][i - n] == more[i - n];
      }
    }
  }

  lemma HeldSlid(w: seq<byte>, w': seq<byte>, input: seq<byte>, base: int, n: nat, k: nat)
    requires Held(w, input, base, n) && |w'| == |w| == 2 * k && k <= n
    requires forall i :: 0 <= i < k ==> w'[i] == w[i + k]
    ensures Held(w', input, base + k, n - k)
  {
  }

  /** How many bytes the held-back literal stands for. */
  function One(available: bool): nat
  {
    if available then 1 else 0
  }

  /** Expanding the tokens of the current block on top of the text before it gives the input up to
      pos, but for the literal held back; with the tokens before they are those the searches decide on. */
  ghost predicate Tallied(input: seq<byte>, start: int, pos: int, available: bool, toks: seq<Token>, wsize: nat, log: Log)
  {
    && 0 <= start <= pos - One(available) && pos <= |input| && ParsedTo(log, input, toks, pos - One(available))
    && Text(input[..start], toks) == input[..pos - One(available)]
    && AllReach(input[..start], toks, wsize)
  }

  /** The match of length len kept from the previous position, if it is one: the outcome of the search there. */
  ghost predicate MatchHeld(input: seq<byte>, from: int, pos: int, len: nat, available: bool, wBits: nat, finds: map<int, Find>)
  {
    && (len >= MIN_MATCH ==> available && MatchIn(input, from, pos - 1, len, wBits))
    && (available ==> pos - 1 in finds)
    && (if pos - 1 in finds then Noted(finds, pos - 1, len, from) else len < MIN_MATCH)
  }

  /** The text at from repeats at p, at a legal distance. */
  ghost predicate MatchIn(input: seq<byte>, from: int, p: int, len: nat, wBits: nat)
  {
    0 <= from < p && p - from <= MaxDist(wBits) && len <= MAX_MATCH && p + len <= |input| && Repeats(input, from, p, len)
  }

  /** The outcome of the search at a position. */
  ghost predicate Noted(finds: map<int, Find>, pos: int, len: nat, from: int)
  {
    pos in finds && finds[pos].len == len && finds[pos].from == from
  }

  /** The byte before pos is to go out as a literal. */
  ghost predicate LiteralDue(log: Log, pos: int)
  {
    && pos - 1 in log.finds && !Stands(log.lazy, log.finds, pos - 1)
    && (log.lazy && log.finds[pos - 1].len >= MIN_MATCH ==> pos in log.finds)
  }

  lemma TalliedBounds(input: seq<byte>, start: int, pos: int, available: bool, toks: seq<Token>, wsize: nat, log: Log)
    requires Tallied(input, start, pos, available, toks, wsize, log)
    ensures 0 <= start <= pos - One(available) && pos <= |input|
  {
  }

  lemma TalliedMore(input: seq<byte>, more: seq<byte>, start: int, pos: int, available: bool, toks: seq<Token>, wsize: nat,
                    log: Log)
    requires Tallied(input, start, pos, available, toks, wsize, log)
    ensures Tallied(input + more, start, pos, available, toks, wsize, log)
  {
    hide Text, AllReach, ParsedTo;
    ParsedMore(log, input, more, toks, pos - One(available));
    assert (input + more)[..start] == input[..start];
    assert (input + more)[..pos - One(available)] == input[..pos - One(available)];
  }

  lemma MatchHeldMore(input: seq<byte>, more: seq<byte>, from: int, pos: int, len: nat, available: bool, wBits: nat,
                      finds: map<int, Find>)
    requires MatchHeld(input, from, pos, len, available, wBits, finds)
    ensures MatchHeld(input + more, from, pos, len, available, wBits, finds)
  {
    if len >= MIN_MATCH {
      var p: nat := pos - 1;
      forall i: nat | i < len ensures Same(input + more, from, p, i) {
        assert Same(input, from, p, i);
      }
    }
  }

  /** Copying from a place where the text repeats reproduces the text. */
  lemma {:induction false} CopyRepeats(input: seq<byte>, p: nat, dist: nat, len: nat)
    requires 1 <= dist <= p && p + len <= |input|
    requires Repeats(input, p - dist, p, len)
    ensures CopyMatch(input[..p], dist, len) == input[..p + len]
    decreases len
  {
    if len > 0 {
      var a, b, c := p - dist, p + 1 - dist, p + 1;
      assert Same(input, a, p, 0);
      assert input[..p] + [input[..p][p - dist]] == input[..p + 1];
      forall i: nat | i < len - 1 ensures Same(input, b, c, i) {
        assert Same(input, a, p, i + 1);
      }
      CopyRepeats(input, p + 1, dist, len - 1);
    }
  }

  /** Tallying the match of the previous position. */
  lemma TalliedMatch(input: seq<byte>, start: int, pos: int, toks: seq<Token>, wBits: nat, from: int, len: nat, log: Log)
    requires Tallied(input, start, pos, true, toks, Pow2(wBits), log) && len >= MIN_MATCH && wBits <= 15
    requires MatchHeld(input, from, pos, len, true, wBits, log.finds)
    requires log.lazy ==> pos in log.finds && log.finds[pos].len <= len
    ensures 1 <= pos - 1 - from <= 32768
    ensures Tallied(input, start, pos - 1 + len, false, toks + [Match(len, pos - 1 - from)], Pow2(wBits), log)
  {
    hide Text, AllReach, CopyMatch, ParsedTo;
    var dist := pos - 1 - from;
    Pow2Mono(wBits, 15);
    Pow2Values();
    CopyRepeats(input, pos - 1, dist, len);
    ParsedNext(log, input, toks, pos - 1, Match(len, dist));
    TextNext(input[..start], toks, Match(len, dist), Pow2(wBits));
  }

  /** Tallying a literal. */
  lemma TalliedLit(input: seq<byte>, start: int, pos: int, toks: seq<Token>, wsize: nat, c: byte, log: Log)
    requires Tallied(input, start, pos, true, toks, wsize, log) && c == input[pos - 1] && LiteralDue(log, pos)
    ensures Tallied(input, start, pos, false, toks + [Lit(c)], wsize, log)
  {
    hide Text, AllReach, ParsedTo;
    ParsedNext(log, input, toks, pos - 1, Lit(c));
    TextNext(input[..start], toks, Lit(c), wsize);
    assert input[..pos - 1] + [c] == input[..pos];
  }

  /** Moving on by one position, which is held back. */
  lemma TalliedHold(input: seq<byte>, start: int, pos: int, toks: seq<Token>, wsize: nat, log: Log)
    requires Tallied(input, start, pos, false, toks, wsize, log) && pos < |input|
    ensures Tallied(input, start, pos + 1, true, toks, wsize, log)
  {
    hide Text, AllReach, ParsedTo;
  }

  /** A new block starts at pos. */
  lemma TalliedFlushed(input: seq<byte>, start: int, pos: int, toks: seq<Token>, wsize: nat, log: Log)
    requires Tallied(input, start, pos, false, toks, wsize, log)
    ensures Tallied(input, pos, pos, false, [], wsize, log.(done := log.done + toks))
  {
    hide ParsedTo;
    ParsedFlushed(log, input, toks, pos);
  }

  /** The input starts. */
  lemma TalliedNone(input: seq<byte>, wsize: nat, log: Log)
    requires log.done == []
    ensures Tallied(input, 0, 0, false, [], wsize, log)
  {
  }

  /** One more search. */
  lemma TalliedFind(input: seq<byte>, start: int, pos: int, available: bool, toks: seq<Token>, wsize: nat, log: Log, k: int, f: Find)
    requires Tallied(input, start, pos, available, toks, wsize, log) && k !in log.finds
    ensures Tallied(input, start, pos, available, toks, wsize, log.(finds := log.finds[k := f]))
  {
    hide ParsedTo, Text, AllReach;
    ParsedFind(log, input, toks, pos - One(available), k, f);
  }

  /** The match found at the current position, in the window and in the input. */
  lemma MatchFound(w: seq<byte>, input: seq<byte>, base: int, n: nat, wBits: nat, start: int, scan: nat, len: nat)
    requires Held(w, input, base, n) && MatchAt(w, wBits, start, scan, len) && scan + len <= n && len <= MAX_MATCH && base + start >= 0
    ensures MatchIn(input, base + start, base + scan, len, wBits)
  {
    var from, p := base + start, base + scan;
    forall i: nat | i < len ensures Same(input, from, p, i) {
      assert Same(w, start, scan, i);
    }
  }
}
