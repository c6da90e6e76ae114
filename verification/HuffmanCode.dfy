/** RFC 1951 section 3.2.2: the codes determined by a list of code lengths, and reading one symbol. */
module HuffmanCode {
  import opened Sums
  import opened Bits

  /** Longest codeword of a literal/length or distance code. */
  const MAX_BITS: nat := 15

  datatype Option<+T> = None | Some(value: T)

  /** The result of reading something off the front of a bit string. */
  datatype Parsed<+T> = Fail | Ok(value: T, rest: seq<bool>)

  // ---------- Canonical codes from code lengths ----------

  function BlCount(lens: seq<nat>, bits: nat): nat
  {
    if bits == 0 then 0 else Count(lens, bits)
  }

  /** Step 2: the numerical value of the smallest code of each length. */
  function FirstCode(lens: seq<nat>, bits: nat): nat
  {
    if bits == 0 then 0 else 2 * (FirstCode(lens, bits - 1) + BlCount(lens, bits - 1))
  }

  /** Step 3: codes of one length are consecutive, in symbol order. */
  function CodeValue(lens: seq<nat>, n: nat): nat
    requires n < |lens|
  {
    FirstCode(lens, lens[n]) + Count(lens[..n], lens[n])
  }

  function Codeword(lens: seq<nat>, n: nat): (w: seq<bool>)
    requires n < |lens|
    ensures |w| == lens[n]
  {
    CodeBits(CodeValue(lens, n), lens[n])
  }

  /** The room a code of length l takes among the 2^limit strings of length limit. */
  function Room(l: nat, limit: nat): nat
  {
    if l == 0 || l > limit then 0 else Pow2(limit - l)
  }

  function Rooms(lens: seq<nat>, limit: nat): (r: seq<int>)
    ensures |r| == |lens|
  {
    seq(|lens|, i requires 0 <= i < |lens| => Room(lens[i], limit))
  }

  /** The code uses lengths up to limit and its Kraft sum is exactly 1. */
  ghost predicate Complete(lens: seq<nat>, limit: nat)
  {
    && (forall i :: 0 <= i < |lens| ==> lens[i] <= limit)
    && Sum(Rooms(lens, limit)) == Pow2(limit)
  }

  // ---------- Reading bits and symbols ----------

  function ReadBits(bits: seq<bool>, n: nat): (r: Parsed<nat>)
    ensures r.Ok? ==> |r.rest| + n == |bits|
  {
    if |bits| < n then Fail else Ok(BitsValue(bits[..n]), bits[n..])
  }

  /** The first symbol, from the given one on, whose codeword starts the input. */
  function FindSymbol(lens: seq<nat>, bits: seq<bool>, from: nat): (r: Option<nat>)
    ensures r.Some? ==> from <= r.value < |lens| && 0 < lens[r.value] <= |bits|
    decreases |lens| - from
  {
    if from >= |lens| then None
    else if lens[from] > 0 && Codeword(lens, from) <= bits then Some(from)
    else FindSymbol(lens, bits, from + 1)
  }

  function ReadSymbol(lens: seq<nat>, bits: seq<bool>): (r: Parsed<nat>)
    ensures r.Ok? ==> r.value < |lens| && |r.rest| < |bits|
  {
    match FindSymbol(lens, bits, 0)
    case None => Fail
    case Some(sym) => Ok(sym, bits[lens[sym]..])
  }
}
