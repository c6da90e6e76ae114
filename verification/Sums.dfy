/** Sums, counts and powers of two: the arithmetic every other module leans on. */
module Sums {

  // ---------- Shifts: multiplication and division by powers of two ----------

  /** x shifted left by k bits. */
  function Shl(x: int, k: nat): (r: int)
    ensures x >= 0 ==> r >= x
  {
    if k == 0 then x else 2 * Shl(x, k - 1)
  }

  /** x shifted right by k bits. */
  function Shr(x: nat, k: nat): nat
  {
    if k == 0 then x else Shr(x / 2, k - 1)
  }

  function Pow2(n: nat): (p: nat)
    ensures p >= 1
  {
    if n == 0 then 1 else 2 * Pow2(n - 1)
  }

  lemma {:induction false} ShlOne(k: nat)
    ensures Shl(1, k) == Pow2(k)
    ensures Shl(0, k) == 0
  {
    if k > 0 {
      ShlOne(k - 1);
    }
  }

  lemma {:induction false} ShlSum(x: int, y: int, k: nat)
    ensures Shl(x + y, k) == Shl(x, k) + Shl(y, k)
  {
    if k > 0 {
      ShlSum(x, y, k - 1);
    }
  }

  lemma {:induction false} ShlShl(x: int, a: nat, b: nat)
    ensures Shl(Shl(x, a), b) == Shl(x, a + b)
  {
    if b > 0 {
      ShlShl(x, a, b - 1);
    }
  }

  lemma {:induction false} ShlOrder(x: int, y: int, k: nat)
    ensures x <= y <==> Shl(x, k) <= Shl(y, k)
  {
    if k > 0 {
      ShlOrder(x, y, k - 1);
    }
  }

  lemma ShlPow2(a: nat, b: nat)
    ensures Shl(Pow2(a), b) == Pow2(a + b)
  {
    ShlOne(a);
    ShlShl(1, a, b);
    ShlOne(a + b);
  }

  lemma ShlBelow(f: int, b: nat, limit: nat)
    requires b <= limit && Shl(f, limit - b) <= Pow2(limit)
    ensures f <= Pow2(b)
  {
    ShlPow2(b, limit - b);
    ShlOrder(f, Pow2(b), limit - b);
  }

  /** x lies in the block of numbers that shift right to Shr(x, k). */
  lemma {:induction false} ShrBlock(x: nat, k: nat)
    ensures Shl(Shr(x, k), k) <= x < Shl(Shr(x, k) + 1, k)
  {
    if k > 0 {
      ShrBlock(x / 2, k - 1);
      var q := Shr(x, k);
      assert Shl(q, k) == 2 * Shl(q, k - 1);
      assert Shl(q + 1, k) == 2 * Shl(q + 1, k - 1);
    }
  }

  lemma {:induction false} Pow2Mono(a: nat, b: nat)
    requires a <= b
    ensures Pow2(a) <= Pow2(b)
    ensures a < b ==> 2 * Pow2(a) <= Pow2(b)
    decreases b
  {
    if a < b {
      Pow2Mono(a, b - 1);
    }
  }

  lemma Pow2Values()
    ensures Pow2(0) == 1 && Pow2(1) == 2 && Pow2(2) == 4 && Pow2(3) == 8 && Pow2(4) == 16
    ensures Pow2(5) == 32 && Pow2(6) == 64 && Pow2(7) == 128 && Pow2(8) == 256
    ensures Pow2(9) == 512 && Pow2(10) == 1024 && Pow2(11) == 2048 && Pow2(12) == 4096
    ensures Pow2(13) == 8192 && Pow2(14) == 16384 && Pow2(15) == 32768 && Pow2(16) == 65536
  {
    assert Pow2(4) == 16;
    assert Pow2(8) == 256;
    assert Pow2(12) == 4096;
  }

  // ---------- Vectors ----------

  /** The sum of a vector. */
  function Sum(s: seq<int>): int
  {
    if s == [] then 0 else Sum(s[..|s| - 1]) + s[|s| - 1]
  }

  lemma {:induction false} SumUpdate(s: seq<int>, i: nat, v: int)
    requires i < |s|
    ensures Sum(s[i := v]) == Sum(s) - s[i] + v
  {
    var last := |s| - 1;
    if i == last {
      assert s[i := v][..last] == s[..last];
    } else {
      assert s[i := v][..last] == s[..last][i := v];
      SumUpdate(s[..last], i, v);
    }
  }

  lemma SumUpdate3(s: seq<int>, i: nat, x: int, j: nat, y: int, k: nat, z: int)
    requires i < |s| && j < |s| && k < |s| && i != j && i != k && j != k
    ensures Sum(s[i := x][j := y][k := z]) == Sum(s) - s[i] - s[j] - s[k] + x + y + z
  {
    SumUpdate(s, i, x);
    SumUpdate(s[i := x], j, y);
    SumUpdate(s[i := x][j := y], k, z);
  }

  lemma {:induction false} SumAppend(a: seq<int>, b: seq<int>)
    ensures Sum(a + b) == Sum(a) + Sum(b)
  {
    if b == [] {
      assert a + b == a;
    } else {
      var last := |b| - 1;
      assert (a + b)[..|a + b| - 1] == a + b[..last];
      SumAppend(a, b[..last]);
    }
  }

  lemma {:induction false} SumZero(s: seq<int>)
    requires forall i :: 0 <= i < |s| ==> s[i] == 0
    ensures Sum(s) == 0
  {
    if s != [] {
      SumZero(s[..|s| - 1]);
    }
  }

  lemma {:induction false} SumMono(a: seq<int>, b: seq<int>)
    requires |a| == |b|
    requires forall i :: 0 <= i < |a| ==> a[i] <= b[i]
    ensures Sum(a) <= Sum(b)
  {
    if a != [] {
      SumMono(a[..|a| - 1], b[..|b| - 1]);
    }
  }

  /** Pointwise addition of vectors adds their sums. */
  lemma {:induction false} SumSplit(c: seq<int>, a: seq<int>, b: seq<int>)
    requires |a| == |b| == |c|
    requires forall i :: 0 <= i < |c| ==> c[i] == a[i] + b[i]
    ensures Sum(c) == Sum(a) + Sum(b)
  {
    if c != [] {
      SumSplit(c[..|c| - 1], a[..|a| - 1], b[..|b| - 1]);
    }
  }

  /** A member of a non-negative vector is at most the sum, and two members together too. */
  lemma SumMember(s: seq<int>, i: nat)
    requires forall k :: 0 <= k < |s| ==> s[k] >= 0
    requires i < |s|
    ensures 0 <= s[i] <= Sum(s)
  {
    var z := seq(|s|, k => 0);
    SumZero(z);
    SumUpdate(z, i, s[i]);
    SumMono(z[i := s[i]], s);
  }

  lemma SumTwoMembers(s: seq<int>, i: nat, j: nat)
    requires forall k :: 0 <= k < |s| ==> s[k] >= 0
    requires i < |s| && j < |s| && i != j
    ensures s[i] + s[j] <= Sum(s)
  {
    SumUpdate(s, i, 0);
    SumMember(s[i := 0], j);
  }

  /** How many entries of s equal b. */
  function Count(s: seq<nat>, b: nat): nat
  {
    if s == [] then 0 else Count(s[..|s| - 1], b) + (if s[|s| - 1] == b then 1 else 0)
  }

  lemma {:induction false} CountUpdate(s: seq<nat>, i: nat, v: nat, b: nat)
    requires i < |s|
    ensures Count(s[i := v], b) ==
            Count(s, b) - (if s[i] == b then 1 else 0) + (if v == b then 1 else 0)
  {
    var last := |s| - 1;
    if i == last {
      assert s[i := v][..last] == s[..last];
    } else {
      assert s[i := v][..last] == s[..last][i := v];
      CountUpdate(s[..last], i, v, b);
    }
  }

  lemma {:induction false} CountAppend(a: seq<nat>, c: seq<nat>, b: nat)
    ensures Count(a + c, b) == Count(a, b) + Count(c, b)
  {
    if c == [] {
      assert a + c == a;
    } else {
      var last := |c| - 1;
      assert (a + c)[..|a + c| - 1] == a + c[..last];
      CountAppend(a, c[..last], b);
    }
  }

  lemma {:induction false} CountNone(s: seq<nat>, b: nat)
    requires forall i :: 0 <= i < |s| ==> s[i] != b
    ensures Count(s, b) == 0
  {
    if s != [] {
      CountNone(s[..|s| - 1], b);
    }
  }

  lemma {:induction false} CountAll(s: seq<nat>, b: nat)
    requires forall i :: 0 <= i < |s| ==> s[i] == b
    ensures Count(s, b) == |s|
  {
    if s != [] {
      CountAll(s[..|s| - 1], b);
    }
  }

  /** The number of occurrences of s[i] before position i is below the total number. */
  lemma CountPrefix(s: seq<nat>, i: nat)
    requires i < |s|
    ensures Count(s[..i], s[i]) < Count(s, s[i])
  {
    assert s == s[..i] + s[i..];
    CountAppend(s[..i], s[i..], s[i]);
    assert s[i..] == [s[i]] + s[i + 1..];
    CountAppend([s[i]], s[i + 1..], s[i]);
    assert Count([s[i]], s[i]) == 1;
  }

  lemma CountPrefixLess(s: seq<nat>, i: nat, j: nat)
    requires i < j < |s| && s[i] == s[j]
    ensures Count(s[..i], s[i]) < Count(s[..j], s[i])
  {
    CountPrefix(s[..j], i);
    assert s[..j][..i] == s[..i];
  }

  lemma {:induction false} CountPositive(s: seq<nat>, b: nat) returns (i: nat)
    requires Count(s, b) > 0
    ensures i < |s| && s[i] == b
  {
    if s[|s| - 1] == b {
      i := |s| - 1;
    } else {
      i := CountPositive(s[..|s| - 1], b);
    }
  }
}
