/** The codes of RFC 1951 section 3.2.2 fit their lengths, are prefix-free, and, when the Kraft
    sum is exactly 1, leave no bit string undecodable. */
module CanonicalCodes {
  import opened Sums
  import opened Bits
  import opened HuffmanCode

  /** Lengths at most limit with a Kraft sum of at most 1: what prefix-freeness needs. */
  ghost predicate Decodable(lens: seq<nat>, limit: nat)
  {
    && (forall i :: 0 <= i < |lens| ==> lens[i] <= limit)
    && Sum(Rooms(lens, limit)) <= Pow2(limit)
  }

  /** Rooms of the codes of length 1 to b only. */
  function RoomsTo(lens: seq<nat>, b: nat, limit: nat): (r: seq<int>)
    ensures |r| == |lens|
  {
    seq(|lens|, i requires 0 <= i < |lens| => if lens[i] <= b then Room(lens[i], limit) else 0)
  }

  /** The codes of length at most b fill the low end of the code space exactly. */
  lemma {:induction false} FirstCodeRoom(lens: seq<nat>, b: nat, limit: nat)
    requires b <= limit
    ensures Sum(RoomsTo(lens, b, limit)) == Shl(FirstCode(lens, b) + BlCount(lens, b), limit - b)
  {
    if b == 0 {
      SumZero(RoomsTo(lens, 0, limit));
      ShlOne(limit);
    } else {
      FirstCodeRoom(lens, b - 1, limit);
      var k := limit - b;
      var f, c := FirstCode(lens, b - 1) + BlCount(lens, b - 1), Count(lens, b);
      var here := seq(|lens|, i requires 0 <= i < |lens| => if lens[i] == b then Pow2(k) else 0);
      assert Sum(RoomsTo(lens, b, limit)) == Sum(RoomsTo(lens, b - 1, limit)) + Sum(here) by {
        SumSplit(RoomsTo(lens, b, limit), RoomsTo(lens, b - 1, limit), here);
      }
      SumIndicator(lens, here, b, k);
      ShlSum(f, f, k);
      ShlSum(2 * f, c, k);
    }
  }

  lemma {:induction false} SumIndicator(lens: seq<nat>, here: seq<int>, b: nat, k: nat)
    requires |here| == |lens|
    requires forall i :: 0 <= i < |lens| ==> here[i] == if lens[i] == b then Pow2(k) else 0
    ensures Sum(here) == Shl(Count(lens, b), k)
  {
    ShlOne(k);
    if lens != [] {
      var last := |lens| - 1;
      SumIndicator(lens[..last], here[..last], b, k);
      ShlSum(Count(lens[..last], b), if lens[last] == b then 1 else 0, k);
    }
  }

  lemma RoomsToMono(lens: seq<nat>, b: nat, limit: nat)
    ensures Sum(RoomsTo(lens, b, limit)) <= Sum(Rooms(lens, limit))
  {
    SumMono(RoomsTo(lens, b, limit), Rooms(lens, limit));
  }

  /** All codes of length b are below 2^b. */
  lemma CodesFit(lens: seq<nat>, b: nat, limit: nat)
    requires Sum(Rooms(lens, limit)) <= Pow2(limit) && b <= limit
    ensures FirstCode(lens, b) + BlCount(lens, b) <= Pow2(b)
  {
    RoomsToMono(lens, b, limit);
    FirstCodeRoom(lens, b, limit);
    ShlBelow(FirstCode(lens, b) + BlCount(lens, b), b, limit);
  }

  lemma CodeFits(lens: seq<nat>, n: nat, limit: nat)
    requires Decodable(lens, limit) && n < |lens| && lens[n] > 0
    ensures CodeValue(lens, n) < FirstCode(lens, lens[n]) + BlCount(lens, lens[n]) <= Pow2(lens[n])
  {
    CodesFit(lens, lens[n], limit);
    CountPrefix(lens, n);
  }

  /** A longer code starts beyond every shorter one. */
  lemma {:induction false} FirstCodeGrows(lens: seq<nat>, a: nat, b: nat)
    requires a < b
    ensures FirstCode(lens, b) >= Shl(FirstCode(lens, a) + BlCount(lens, a), b - a)
    decreases b
  {
    if b == a + 1 {
      assert Shl(FirstCode(lens, a) + BlCount(lens, a), 1) == 2 * Shl(FirstCode(lens, a) + BlCount(lens, a), 0);
    } else {
      FirstCodeGrows(lens, a, b - 1);
    }
  }

  /** Cut to the length of m, the longer code of n is a number beyond the code of m. */
  lemma LongerCodeBeyond(lens: seq<nat>, m: nat, n: nat, limit: nat) returns (q: nat)
    requires Decodable(lens, limit)
    requires m < |lens| && n < |lens| && 0 < lens[m] < lens[n]
    ensures Codeword(lens, n)[..lens[m]] == CodeBits(q, lens[m])
    ensures CodeValue(lens, m) < q < Pow2(lens[m])
  {
    var a, k := lens[m], lens[n] - lens[m];
    var d, f := CodeValue(lens, n), FirstCode(lens, a) + BlCount(lens, a);
    q := Shr(d, k);
    CodeBitsPrefix(d, a, k);
    CodeFits(lens, m, limit);
    CodeFits(lens, n, limit);
    FirstCodeGrows(lens, a, a + k);
    ShrBlock(d, k);
    ShlPow2(a, k);
    ShlOrder(q + 1, f, k);
    ShlOrder(Pow2(a), q, k);
  }

  /** No codeword is a prefix of another one. */
  lemma PrefixFree(lens: seq<nat>, m: nat, n: nat, limit: nat)
    requires Decodable(lens, limit)
    requires m < |lens| && n < |lens| && m != n && lens[m] > 0 && lens[n] > 0
    ensures !(Codeword(lens, m) <= Codeword(lens, n))
  {
    CodeFits(lens, m, limit);
    CodeFits(lens, n, limit);
    if lens[m] < lens[n] {
      var q := LongerCodeBeyond(lens, m, n, limit);
      if CodeBits(CodeValue(lens, m), lens[m]) == CodeBits(q, lens[m]) {
        CodeBitsInjective(CodeValue(lens, m), q, lens[m]);
      }
    } else if lens[m] == lens[n] {
      if m < n { CountPrefixLess(lens, m, n); } else { CountPrefixLess(lens, n, m); }
      if Codeword(lens, m) == Codeword(lens, n) {
        CodeBitsInjective(CodeValue(lens, m), CodeValue(lens, n), lens[m]);
      }
      assert Codeword(lens, n)[..lens[m]] == Codeword(lens, n);
    }
  }

  lemma PrefixesComparable(x: seq<bool>, y: seq<bool>, s: seq<bool>)
    ensures x <= s && y <= s ==> x <= y || y <= x
  {
    if x <= s && y <= s {
      if |x| <= |y| {
        assert s[..|x|] == y[..|x|];
      } else {
        assert s[..|y|] == x[..|y|];
      }
    }
  }

  /** The decoder recovers the symbol whose codeword is next. */
  lemma {:induction false} FindsSymbol(lens: seq<nat>, n: nat, rest: seq<bool>, from: nat, limit: nat)
    requires Decodable(lens, limit) && from <= n < |lens| && lens[n] > 0
    ensures FindSymbol(lens, Codeword(lens, n) + rest, from) == Some(n)
    decreases n - from
  {
    var bits := Codeword(lens, n) + rest;
    if from < n {
      if lens[from] > 0 {
        PrefixFree(lens, from, n, limit);
        PrefixFree(lens, n, from, limit);
        PrefixesComparable(Codeword(lens, from), Codeword(lens, n), bits);
      }
      FindsSymbol(lens, n, rest, from + 1, limit);
    }
  }

  lemma ReadsSymbol(lens: seq<nat>, n: nat, rest: seq<bool>, limit: nat)
    requires Decodable(lens, limit) && n < |lens| && lens[n] > 0
    ensures ReadSymbol(lens, Codeword(lens, n) + rest) == Ok(n, rest)
  {
    FindsSymbol(lens, n, rest, 0, limit);
    assert (Codeword(lens, n) + rest)[lens[n]..] == rest;
  }

  // ---------- Completeness ----------

  /** The number whose bits, most significant first, are b. */
  function CodeNumber(b: seq<bool>): nat
  {
    if b == [] then 0 else 2 * CodeNumber(b[..|b| - 1]) + (if b[|b| - 1] then 1 else 0)
  }

  lemma {:induction false} CodeNumberBits(b: seq<bool>)
    ensures CodeNumber(b) < Pow2(|b|)
    ensures CodeBits(CodeNumber(b), |b|) == b
  {
    if b != [] {
      var init := b[..|b| - 1];
      CodeNumberBits(init);
      assert CodeNumber(b) / 2 == CodeNumber(init);
      assert b == init + [b[|b| - 1]];
    }
  }

  /** The k-th symbol of length b. */
  lemma {:induction false} NthSymbol(lens: seq<nat>, b: nat, k: nat) returns (n: nat)
    requires k < Count(lens, b)
    ensures n < |lens| && lens[n] == b && Count(lens[..n], b) == k
  {
    var last := |lens| - 1;
    if k < Count(lens[..last], b) {
      n := NthSymbol(lens[..last], b, k);
      assert lens[..last][..n] == lens[..n];
    } else {
      n := last;
    }
  }

  lemma {:induction false} FoundIfPrefix(lens: seq<nat>, n: nat, bits: seq<bool>, from: nat)
    requires from <= n < |lens| && lens[n] > 0 && Codeword(lens, n) <= bits
    ensures FindSymbol(lens, bits, from).Some?
    decreases n - from
  {
    if from < n {
      FoundIfPrefix(lens, n, bits, from + 1);
    }
  }

  /** With Kraft sum 1 every string of limit bits starts with a codeword. */
  lemma CompleteDecodes(lens: seq<nat>, bits: seq<bool>, limit: nat)
    requires Complete(lens, limit) && |bits| >= limit
    ensures ReadSymbol(lens, bits).Ok?
  {
    var word := bits[..limit];
    var v := CodeNumber(word);
    CodeNumberBits(word);
    CodesFill(lens, limit);
    var n := SymbolAt(lens, v, limit);
    CodeBitsPrefix(v, lens[n], limit - lens[n]);
    assert Codeword(lens, n) == word[..lens[n]] == bits[..lens[n]];
    FoundIfPrefix(lens, n, bits, 0);
  }

  lemma CodesFill(lens: seq<nat>, limit: nat)
    requires Complete(lens, limit)
    ensures Shl(FirstCode(lens, limit) + BlCount(lens, limit), 0) == Pow2(limit)
  {
    FirstCodeRoom(lens, limit, limit);
    assert RoomsTo(lens, limit, limit) == Rooms(lens, limit);
  }

  /** The symbol whose share of the code space holds v. */
  lemma SymbolAt(lens: seq<nat>, v: nat, limit: nat) returns (n: nat)
    requires v < Shl(FirstCode(lens, limit) + BlCount(lens, limit), 0)
    ensures n < |lens| && 0 < lens[n] <= limit
    ensures CodeValue(lens, n) == Shr(v, limit - lens[n])
  {
    var b := LengthOf(lens, v, limit, limit);
    var k := limit - b;
    var f, q := FirstCode(lens, b), Shr(v, k);
    ShrBlock(v, k);
    ShlOrder(q + 1, f, k);
    ShlOrder(f + BlCount(lens, b), q, k);
    n := NthSymbol(lens, b, q - f);
  }

  /** The code length whose share of the code space holds v. */
  lemma {:induction false} LengthOf(lens: seq<nat>, v: nat, b: nat, limit: nat) returns (l: nat)
    requires b <= limit && v < Shl(FirstCode(lens, b) + BlCount(lens, b), limit - b)
    ensures 0 < l <= b
    ensures Shl(FirstCode(lens, l), limit - l) <= v < Shl(FirstCode(lens, l) + BlCount(lens, l), limit - l)
  {
    if b == 0 {
      ShlOne(limit);
      assert false;
    } else {
      var f := FirstCode(lens, b - 1) + BlCount(lens, b - 1);
      ShlSum(f, f, limit - b);
      if v < Shl(f, limit - (b - 1)) {
        l := LengthOf(lens, v, b - 1, limit);
      } else {
        l := b;
      }
    }
  }
}
