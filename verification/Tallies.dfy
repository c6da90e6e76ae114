/** Frequencies as tallies of the symbols seen, and what all those symbols cost. */
module Tallies {
  import opened Sums
  import opened HuffmanCode
  import opened BitLengths

  ghost predicate Within(syms: seq<nat>, n: nat)
  {
    forall i :: 0 <= i < |syms| ==> syms[i] < n
  }

  /** The frequencies f after the given symbols were counted. */
  function Tally(f: seq<nat>, syms: seq<nat>): (r: seq<nat>)
    requires Within(syms, |f|)
    ensures |r| == |f|
  {
    if syms == [] then f
    else
      var last := |syms| - 1;
      var t := Tally(f, syms[..last]);
      t[syms[last] := t[syms[last]] + 1]
  }

  lemma TallyNext(f: seq<nat>, syms: seq<nat>, x: nat)
    requires Within(syms, |f|) && x < |f|
    ensures Within(syms + [x], |f|)
    ensures Tally(f, syms + [x]) == Tally(f, syms)[x := Tally(f, syms)[x] + 1]
  {
    assert (syms + [x])[..|syms|] == syms;
  }

  lemma {:induction false} TallyAppend(f: seq<nat>, a: seq<nat>, b: seq<nat>)
    requires Within(a, |f|) && Within(b, |f|)
    ensures Within(a + b, |f|) && Tally(f, a + b) == Tally(Tally(f, a), b)
  {
    if b == [] {
      assert a + b == a;
    } else {
      var last := |b| - 1;
      TallyAppend(f, a, b[..last]);
      TallyNext(f, a + b[..last], b[last]);
      assert a + b == a + b[..last] + [b[last]];
    }
  }

  lemma {:induction false} TallySum(f: seq<nat>, syms: seq<nat>)
    requires Within(syms, |f|)
    ensures Sum(Tally(f, syms)) == Sum(f) + |syms|
  {
    if syms != [] {
      var last := |syms| - 1;
      var t := Tally(f, syms[..last]);
      TallySum(f, syms[..last]);
      SumUpdate(t, syms[last], t[syms[last]] + 1);
    }
  }

  /** Exactly the symbols counted have a non-zero frequency. */
  lemma {:induction false} TallyPositive(f: seq<nat>, syms: seq<nat>, x: nat)
    requires Within(syms, |f|) && x < |f|
    ensures Tally(f, syms)[x] > 0 <==> f[x] > 0 || x in syms
    ensures f[x] <= Tally(f, syms)[x] <= f[x] + |syms|
  {
    if syms != [] {
      var last := |syms| - 1;
      TallyPositive(f, syms[..last], x);
      assert syms == syms[..last] + [syms[last]];
    }
  }

  lemma {:induction false} TallyPrefix(f: seq<nat>, syms: seq<nat>, m: nat)
    requires m <= |f| && Within(syms, m)
    ensures Tally(f, syms)[..m] == Tally(f[..m], syms)
  {
    if syms != [] {
      TallyPrefix(f, syms[..|syms| - 1], m);
    }
  }

  /** The sum of the given costs over all symbols seen. */
  function CostOf(syms: seq<nat>, costs: seq<nat>): nat
    requires Within(syms, |costs|)
  {
    if syms == [] then 0 else CostOf(syms[..|syms| - 1], costs) + costs[syms[|syms| - 1]]
  }

  lemma CostNext(syms: seq<nat>, x: nat, costs: seq<nat>)
    requires Within(syms, |costs|) && x < |costs|
    ensures Within(syms + [x], |costs|) && CostOf(syms + [x], costs) == CostOf(syms, costs) + costs[x]
  {
    assert (syms + [x])[..|syms|] == syms;
  }

  /** Code and extra bits of each symbol. */
  function CodeCosts(lens: seq<nat>, desc: TreeDesc): (r: seq<nat>)
    ensures |r| == |lens|
  {
    seq(|lens|, x requires 0 <= x < |lens| => lens[x] + XBits(desc, x))
  }

  /** The same with the static code. */
  function StaticCodeCosts(n: nat, desc: TreeDesc): (r: seq<nat>)
    ensures |r| == n
  {
    seq(n, x requires 0 <= x < n => if x < |desc.stree| then desc.stree[x] + XBits(desc, x) else 0)
  }

  /** The bits that opt_len counts are the bits of the symbols one by one. */
  lemma {:induction false} TallyCost(f: seq<nat>, syms: seq<nat>, lens: seq<nat>, desc: TreeDesc)
    requires Within(syms, |f|) && |lens| == |f|
    requires forall i :: 0 <= i < |syms| ==> lens[syms[i]] > 0
    ensures Sum(BitCosts(Tally(f, syms), lens, desc)) == Sum(BitCosts(f, lens, desc)) + CostOf(syms, CodeCosts(lens, desc))
  {
    hide BitCosts;
    if syms != [] {
      var last := |syms| - 1;
      TallyCost(f, syms[..last], lens, desc);
      OneMoreCosts(Tally(f, syms[..last]), syms[last], lens, desc);
    }
  }

  lemma OneMoreCosts(f: seq<nat>, x: nat, lens: seq<nat>, desc: TreeDesc)
    requires x < |f| == |lens| && lens[x] > 0
    ensures Sum(BitCosts(f[x := f[x] + 1], lens, desc)) == Sum(BitCosts(f, lens, desc)) + lens[x] + XBits(desc, x)
    ensures Sum(StaticCosts(f[x := f[x] + 1], lens, desc)) ==
            Sum(StaticCosts(f, lens, desc)) + if x < |desc.stree| then desc.stree[x] + XBits(desc, x) else 0
  {
    var c := SymbolBits(f[x] + 1, lens[x], XBits(desc, x));
    assert BitCosts(f[x := f[x] + 1], lens, desc) == BitCosts(f, lens, desc)[x := c];
    SumUpdate(BitCosts(f, lens, desc), x, c);
    OneMoreBits(f[x], lens[x], XBits(desc, x));
    if x < |desc.stree| {
      var d := SymbolBits(f[x] + 1, desc.stree[x], XBits(desc, x));
      assert StaticCosts(f[x := f[x] + 1], lens, desc) == StaticCosts(f, lens, desc)[x := d];
      SumUpdate(StaticCosts(f, lens, desc), x, d);
      OneMoreBits(f[x], desc.stree[x], XBits(desc, x));
    } else {
      assert StaticCosts(f[x := f[x] + 1], lens, desc) == StaticCosts(f, lens, desc);
    }
  }

  lemma OneMoreBits(f: nat, l: nat, x: nat)
    ensures SymbolBits(f + 1, l, x) == SymbolBits(f, l, x) + l + x
  {
  }

  lemma {:induction false} TallyStaticCost(f: seq<nat>, syms: seq<nat>, lens: seq<nat>, desc: TreeDesc)
    requires Within(syms, |f|) && |lens| == |f|
    requires forall i :: 0 <= i < |syms| ==> lens[syms[i]] > 0
    ensures Sum(StaticCosts(Tally(f, syms), lens, desc)) ==
            Sum(StaticCosts(f, lens, desc)) + CostOf(syms, StaticCodeCosts(|lens|, desc))
  {
    hide StaticCosts;
    if syms != [] {
      var last := |syms| - 1;
      TallyStaticCost(f, syms[..last], lens, desc);
      OneMoreCosts(Tally(f, syms[..last]), syms[last], lens, desc);
    }
  }

  function Zeroes(n: nat): (r: seq<nat>)
    ensures |r| == n
  {
    seq(n, x => 0)
  }

  lemma ZeroCosts(n: nat, lens: seq<nat>, desc: TreeDesc)
    requires |lens| == n
    ensures Sum(BitCosts(Zeroes(n), lens, desc)) == 0 && Sum(StaticCosts(Zeroes(n), lens, desc)) == 0
    ensures Sum(Zeroes(n)) == 0
  {
    SumZero(BitCosts(Zeroes(n), lens, desc));
    SumZero(StaticCosts(Zeroes(n), lens, desc));
    SumZero(Zeroes(n));
  }
}
