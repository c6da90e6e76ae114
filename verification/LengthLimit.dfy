/** The overflow repair of gen_bitlen: moving leaves in bl_count until the Kraft sum is 1 again. */
module LengthLimit {
  import opened Sums
  import opened HuffmanCode
  import opened CanonicalCodes

  /** The Kraft sum of bl codes per length, up to length b, in units of 2^-b. */
  function Kraft(bl: seq<nat>, b: nat): nat
    requires b < |bl|
  {
    if b == 0 then 0 else 2 * Kraft(bl, b - 1) + bl[b]
  }

  /** The number of codes of length 1 to b. */
  function Codes(bl: seq<nat>, b: nat): nat
    requires b < |bl|
  {
    if b == 0 then 0 else Codes(bl, b - 1) + bl[b]
  }

  lemma {:induction false} KraftSet(bl: seq<nat>, i: nat, v: nat, b: nat)
    requires 1 <= i < |bl| && b < |bl|
    ensures Kraft(bl[i := v], b) == Kraft(bl, b) + if i <= b then Shl(v - bl[i], b - i) else 0
    ensures Codes(bl[i := v], b) == Codes(bl, b) + if i <= b then v - bl[i] else 0
  {
    if b > 0 {
      KraftSet(bl, i, v, b - 1);
    }
  }

  /** No shorter code: all are of the limit's length. */
  lemma {:induction false} NoneShorter(bl: seq<nat>, b: nat)
    requires b < |bl| && forall j :: 1 <= j <= b ==> bl[j] == 0
    ensures Kraft(bl, b) == 0 && Codes(bl, b) == 0
  {
    if b > 0 {
      NoneShorter(bl, b - 1);
    }
  }

  /** bl describes fewer than 2^limit codes whose Kraft sum exceeds 1 by over units of 2^-limit,
      at least over of them of the limit's length. */
  ghost predicate Excess(bl: seq<nat>, limit: nat, over: nat, codes: nat)
  {
    && 1 <= limit < |bl| && bl[0] == 0
    && Kraft(bl, limit) == Pow2(limit) + over
    && Codes(bl, limit) == codes < Pow2(limit)
    && bl[limit] >= over
  }

  /** As long as the Kraft sum is too large some code can still become longer. */
  lemma SomeShorter(bl: seq<nat>, limit: nat, over: nat, codes: nat)
    requires Excess(bl, limit, over, codes)
    ensures exists b :: 1 <= b < limit && bl[b] > 0
  {
    if forall b :: 1 <= b < limit ==> bl[b] == 0 {
      NoneShorter(bl, limit - 1);
    }
  }

  /** Moving a leaf of length b down as the brother of an overflow item. */
  function Moved(bl: seq<nat>, limit: nat, b: nat): seq<nat>
    requires 1 <= b < limit < |bl| && bl[b] > 0
    requires b + 1 < limit ==> bl[limit] > 0
  {
    var bl1 := bl[b := bl[b] - 1];
    var bl2 := bl1[b + 1 := bl1[b + 1] + 2];
    bl2[limit := bl2[limit] - 1]
  }

  lemma MoveLeaf(bl: seq<nat>, limit: nat, over: nat, codes: nat, b: nat)
    requires Excess(bl, limit, over + 1, codes) && 1 <= b < limit && bl[b] > 0
    ensures Excess(Moved(bl, limit, b), limit, over, codes)
    ensures forall j :: limit < j < |bl| ==> Moved(bl, limit, b)[j] == bl[j]
    ensures |Moved(bl, limit, b)| == |bl|
  {
    var bl1 := bl[b := bl[b] - 1];
    var bl2 := bl1[b + 1 := bl1[b + 1] + 2];
    KraftSet(bl, b, bl[b] - 1, limit);
    KraftSet(bl1, b + 1, bl1[b + 1] + 2, limit);
    KraftSet(bl2, limit, bl2[limit] - 1, limit);
    assert Shl(-1, limit - b) == 2 * Shl(-1, limit - b - 1);
    ShlSum(1, 1, limit - b - 1);
    ShlSum(1, -1, limit - b - 1);
    ShlOne(limit - b - 1);
    assert Shl(-1, 0) == -1;
  }

  // ---------- Longest codes first ----------

  /** b is the length below the limit of the longest codes. */
  ghost predicate Longest(bl: seq<nat>, limit: nat, b: nat)
  {
    1 <= b < limit < |bl| && bl[b] > 0 && forall j :: b < j < limit ==> bl[j] == 0
  }

  /** Strings of length b are given up only when all those of lengths up to j that do not start with a
      shorter code are, so that hardly more than the codes of length b themselves are left of them. */
  ghost predicate GivesWay(bl0: seq<nat>, bl: seq<nat>, b: nat, j: nat)
    requires b < |bl0| && b < |bl| && j < |bl| && b <= j
  {
    Kraft(bl, b) < Kraft(bl0, b) ==> Kraft(bl, j) <= Shl(Kraft(bl, b) + 1, j - b)
  }

  /** From bl0 to bl codes became longer, the longest ones first. */
  ghost predicate Frugal(bl0: seq<nat>, bl: seq<nat>, limit: nat)
  {
    && |bl| == |bl0| && limit < |bl|
    && (forall b :: 0 <= b < limit ==> Kraft(bl, b) <= Kraft(bl0, b))
    && (forall b, j :: 0 <= b <= j < limit ==> GivesWay(bl0, bl, b, j))
  }

  lemma FrugalStart(bl: seq<nat>, limit: nat)
    requires limit < |bl|
    ensures Frugal(bl, bl, limit)
  {
  }

  lemma {:induction false} KraftMoved(bl: seq<nat>, limit: nat, b: nat, j: nat)
    requires 1 <= b < limit < |bl| && bl[b] > 0 && (b + 1 < limit ==> bl[limit] > 0) && j < limit
    ensures |Moved(bl, limit, b)| == |bl| && Kraft(Moved(bl, limit, b), j) == Kraft(bl, j) - if j == b then 1 else 0
  {
    if j > 0 {
      KraftMoved(bl, limit, b, j - 1);
    }
  }

  lemma {:induction false} KraftAcross(bl: seq<nat>, b: nat, j: nat)
    requires b <= j < |bl|
    ensures Kraft(bl, j) >= Shl(Kraft(bl, b), j - b)
    ensures (forall i :: b < i <= j ==> bl[i] == 0) ==> Kraft(bl, j) == Shl(Kraft(bl, b), j - b)
    decreases j - b
  {
    if b < j {
      KraftAcross(bl, b, j - 1);
    }
  }

  lemma FrugalStep(bl0: seq<nat>, bl: seq<nat>, limit: nat, b: nat)
    requires Frugal(bl0, bl, limit) && Longest(bl, limit, b) && (b + 1 < limit ==> bl[limit] > 0)
    ensures Frugal(bl0, Moved(bl, limit, b), limit)
  {
    hide Moved, Kraft, Shl;
    var bl' := Moved(bl, limit, b);
    KraftMoved(bl, limit, b, 0);
    forall i | 0 <= i < limit ensures Kraft(bl', i) == Kraft(bl, i) - if i == b then 1 else 0 {
      KraftMoved(bl, limit, b, i);
    }
    forall p, j | 0 <= p <= j < limit ensures GivesWay(bl0, bl', p, j) {
      assert GivesWay(bl0, bl, p, j);
      if p == b {
        KraftAcross(bl, b, j);
      }
    }
  }

  // ----- there is only one way to do that

  /** The number of strings of each length below the limit that start with a code. */
  function Krafts(bl: seq<nat>, limit: nat): (r: seq<int>)
    requires limit <= |bl|
    ensures |r| == limit
  {
    seq(limit, j requires 0 <= j < limit => Kraft(bl, j))
  }

  lemma {:induction false} CodesKrafts(bl: seq<nat>, limit: nat)
    requires limit < |bl|
    ensures Codes(bl, limit) == Kraft(bl, limit) - Sum(Krafts(bl, limit))
  {
    if limit > 0 {
      CodesKrafts(bl, limit - 1);
      assert Krafts(bl, limit)[..limit - 1] == Krafts(bl, limit - 1);
    }
  }

  /** Where x has given up more than y it has nowhere given up less. */
  lemma FrugalBelow(bl0: seq<nat>, x: seq<nat>, y: seq<nat>, limit: nat, b: nat, j: nat)
    requires Frugal(bl0, x, limit) && Frugal(bl0, y, limit) && b < limit && j < limit && Kraft(x, b) < Kraft(y, b)
    ensures Kraft(x, j) <= Kraft(y, j)
  {
    hide Kraft, Shl;
    if b <= j {
      assert GivesWay(bl0, x, b, j);
      ShlOrder(Kraft(x, b) + 1, Kraft(y, b), j - b);
      KraftAcross(y, b, j);
    } else if Kraft(x, j) > Kraft(y, j) {
      assert GivesWay(bl0, y, j, b);
      ShlOrder(Kraft(y, j) + 1, Kraft(x, j), b - j);
      KraftAcross(x, j, b);
    }
  }

  lemma {:induction false} SumStrict(a: seq<int>, b: seq<int>, i: nat)
    requires |a| == |b| && i < |a| && a[i] < b[i] && forall k :: 0 <= k < |a| ==> a[k] <= b[k]
    ensures Sum(a) < Sum(b)
  {
    SumUpdate(b, i, a[i]);
    SumMono(a, b[i := a[i]]);
  }

  lemma FrugalSame(bl0: seq<nat>, x: seq<nat>, y: seq<nat>, limit: nat, b: nat)
    requires Frugal(bl0, x, limit) && Frugal(bl0, y, limit) && b < limit
    requires Kraft(x, limit) == Kraft(y, limit) && Codes(x, limit) == Codes(y, limit)
    ensures Kraft(x, b) >= Kraft(y, b)
  {
    hide Kraft, Codes;
    if Kraft(x, b) < Kraft(y, b) {
      forall j | 0 <= j < limit ensures Krafts(x, limit)[j] <= Krafts(y, limit)[j] {
        FrugalBelow(bl0, x, y, limit, b, j);
      }
      SumStrict(Krafts(x, limit), Krafts(y, limit), b);
      CodesKrafts(x, limit);
      CodesKrafts(y, limit);
    }
  }

  /** The counts after the repair are determined: with the same Kraft sum and number of codes there are no
      others in which the longest codes gave way first. */
  lemma FrugalUnique(bl0: seq<nat>, x: seq<nat>, y: seq<nat>, limit: nat, j: nat)
    requires Frugal(bl0, x, limit) && Frugal(bl0, y, limit) && 1 <= j <= limit
    requires Kraft(x, limit) == Kraft(y, limit) && Codes(x, limit) == Codes(y, limit)
    ensures x[j] == y[j]
  {
    forall b | 0 <= b < limit ensures Kraft(x, b) == Kraft(y, b) {
      FrugalSame(bl0, x, y, limit, b);
      FrugalSame(bl0, y, x, limit, b);
    }
  }

  /** Find the first bit length which could increase, and move leaves until nothing overflows. */
  method RepairCounts(blCount: array<nat>, maxLength: nat, overflow0: nat, ghost codes: nat)
    requires overflow0 > 0 && overflow0 % 2 == 0
    requires Excess(blCount[..], maxLength, overflow0 / 2, codes)
    modifies blCount
    ensures Excess(blCount[..], maxLength, 0, codes)
    ensures forall j :: maxLength < j < blCount.Length ==> blCount[j] == old(blCount[j])
    ensures Frugal(old(blCount[..]), blCount[..], maxLength)
  {
    hide Frugal;
    var overflow: int := overflow0;
    ghost var bl, bl0 := blCount[..], blCount[..];
    FrugalStart(bl, maxLength);
    while overflow > 0
      invariant 0 <= overflow && overflow % 2 == 0
      invariant bl == blCount[..] && Excess(bl, maxLength, overflow / 2, codes)
      invariant forall j :: maxLength < j < blCount.Length ==> bl[j] == old(blCount[j])
      invariant Frugal(bl0, bl, maxLength)
    {
      var bits := maxLength - 1;
      SomeShorter(bl, maxLength, overflow / 2, codes);
      ghost var b0 :| 1 <= b0 < maxLength && bl[b0] > 0;
      while blCount[bits] == 0
        invariant b0 <= bits < maxLength && forall j :: bits < j < maxLength ==> blCount[j] == 0
        decreases bits
      {
        bits := bits - 1;
      }
      MoveLeaf(bl, maxLength, overflow / 2 - 1, codes, bits);
      FrugalStep(bl0, bl, maxLength, bits);
      bl := Moved(bl, maxLength, bits);
      blCount[bits] := blCount[bits] - 1;
      blCount[bits + 1] := blCount[bits + 1] + 2;
      blCount[maxLength] := blCount[maxLength] - 1;
      overflow := overflow - 2;
    }
  }

  // ---------- Counts of a list of lengths ----------

  /** For the counts of actual code lengths this is the Kraft sum of section 3.2.2. */
  lemma {:induction false} KraftCounts(bl: seq<nat>, lens: seq<nat>, b: nat)
    requires b < |bl| && forall j :: 1 <= j <= b ==> bl[j] == Count(lens, j)
    ensures Kraft(bl, b) == FirstCode(lens, b) + BlCount(lens, b)
  {
    if b > 0 {
      KraftCounts(bl, lens, b - 1);
    }
  }

  lemma KraftRooms(bl: seq<nat>, lens: seq<nat>, limit: nat)
    requires limit < |bl| && forall j :: 1 <= j <= limit ==> bl[j] == Count(lens, j)
    requires forall i :: 0 <= i < |lens| ==> lens[i] <= limit
    ensures Kraft(bl, limit) == Sum(Rooms(lens, limit))
  {
    KraftCounts(bl, lens, limit);
    FirstCodeRoom(lens, limit, limit);
    assert RoomsTo(lens, limit, limit) == Rooms(lens, limit);
  }

  function Between(lens: seq<nat>, b: nat): nat
  {
    if b == 0 then 0 else Between(lens, b - 1) + Count(lens, b)
  }

  lemma {:induction false} CodesCounts(bl: seq<nat>, lens: seq<nat>, b: nat)
    requires b < |bl| && forall j :: 1 <= j <= b ==> bl[j] == Count(lens, j)
    ensures Codes(bl, b) == Between(lens, b)
  {
    if b > 0 {
      CodesCounts(bl, lens, b - 1);
    }
  }

  lemma {:induction false} BetweenLast(lens: seq<nat>, b: nat)
    requires lens != []
    ensures Between(lens, b) == Between(lens[..|lens| - 1], b) + if 1 <= lens[|lens| - 1] <= b then 1 else 0
  {
    if b > 0 {
      BetweenLast(lens, b - 1);
    }
  }

  lemma {:induction false} BetweenEmpty(b: nat)
    ensures Between([], b) == 0
  {
    if b > 0 {
      BetweenEmpty(b - 1);
    }
  }

  /** Every non-zero length is counted once. */
  lemma {:induction false} BetweenAll(lens: seq<nat>, limit: nat)
    requires forall i :: 0 <= i < |lens| ==> lens[i] <= limit
    ensures Between(lens, limit) == |lens| - Count(lens, 0)
  {
    if lens == [] {
      BetweenEmpty(limit);
    } else {
      BetweenLast(lens, limit);
      BetweenAll(lens[..|lens| - 1], limit);
    }
  }
}
