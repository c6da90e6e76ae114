/** deflate.c: the sliding window, lazy matching, and the resumable stream. */
module Deflate {
  import opened Sums
  import opened Bits
  import opened HuffmanCode
  import opened Inflate
  import opened StaticTables
  import opened BitWriter
  import opened Tokens
  import opened BlockFormat
  import opened Blocks
  import FlushBlock
  import Checksum
  import opened RollingHash
  import opened HashChains
  import opened LongestMatch
  import opened LazyParse
  import opened Lz77

  const INIT_STATE: nat := 42
  const BUSY_STATE: nat := 113
  const FINISH_STATE: nat := 666

  const Z_NO_FLUSH: int := 0
  const Z_PARTIAL_FLUSH: int := 1
  const Z_SYNC_FLUSH: int := 2
  const Z_FULL_FLUSH: int := 3
  const Z_FINISH: int := 4

  const Z_OK: int := 0
  const Z_STREAM_END: int := 1
  const Z_STREAM_ERROR: int := -2
  const Z_BUF_ERROR: int := -5

  /** A place in the bits sent, and the position in all the input of the text that starts there. */
  datatype Mark = Mark(bit: nat, at: nat)

  /** A block flushed: its number of tokens, and whether it ended because a flush was asked for. */
  datatype Cut = Cut(tokens: int, asked: bool)

  /** The blocks flushed since are full ones. */
  ghost predicate FullOnly(cuts: seq<Cut>, cuts': seq<Cut>, full: int)
  {
    cuts <= cuts' && forall i :: |cuts| <= i < |cuts'| ==> cuts'[i] == Cut(full, false)
  }

  lemma NoCuts(cuts: seq<Cut>, full: int)
    ensures FullOnly(cuts, cuts, full)
  {
  }

  /** The blocks flushed since are full ones but for the last, which was asked for. */
  ghost predicate CutNow(cuts: seq<Cut>, cuts': seq<Cut>, full: int)
  {
    |cuts| < |cuts'| && FullOnly(cuts, cuts'[..|cuts'| - 1], full) && cuts'[|cuts'| - 1].asked
  }

  /** The result of a compression function. */
  datatype BlockResult = NeedMore | BlockDone | FinishStarted | FinishDone

  /** configuration_table. */
  function Configuration(level: nat): (c: Config)
    requires 1 <= level <= 9
    ensures c.maxChain >= 4 && c.maxLazy >= MIN_MATCH
  {
    [Config(4, 4, 8, 4), Config(4, 5, 16, 8), Config(4, 6, 32, 32), Config(4, 4, 16, 16), Config(8, 16, 32, 32),
     Config(8, 16, 128, 128), Config(8, 32, 128, 256), Config(32, 128, 258, 1024), Config(32, 258, 258, 4096)][level - 1]
  }

  /** A deflate stream: the z_stream and deflate.c's part of the state. */
  class Deflater {
    const blocks: BlockState
    const dict: Dictionary
    const window: array<byte>
    const wBits: nat
    const level: nat
    const strategy: nat
    /** The zlib header and trailer were suppressed at initialisation. */
    const raw: bool

    /** next_in: the input offered and not yet read. */
    var nextIn: seq<byte>
    var status: nat
    var noheader: int
    var lastFlush: int
    var adler: nat
    var strstart: nat
    var lookahead: nat
    var blockStart: int
    var matchStart: int
    var matchLength: nat
    var prevMatch: int
    var prevLength: nat
    var matchAvailable: bool

    /** The input read since the last full flush, of which the window holds the part from base on (base is
        negative while the window still holds earlier input), and the input read before that flush. */
    ghost var input: seq<byte>
    ghost var base: int
    ghost var past: seq<byte>
    /** The searches of this input and their outcome, the tokens of the blocks flushed, and the positions at
        which no string was inserted. */
    ghost var finds: map<int, Find>
    ghost var done: seq<Token>
    ghost var skipped: set<int>
    /** The blocks flushed so far. */
    ghost var cuts: seq<Cut>
    /** Where decoding can start: at the beginning and behind every full flush. */
    ghost var marks: seq<Mark>
    /** Number of bits sent before the compressed data of this input, and where the final block ends. */
    ghost var header: nat
    ghost var dataEnd: nat

    ghost predicate Fixed()
    {
      && 9 <= wBits <= 15 && window.Length == 2 * Pow2(wBits) && window != blocks.lBuf
      && dict.wBits == wBits && 1 <= level <= 9
    }

    /** The window, its dictionary and the checksum follow the input. */
    ghost predicate Sliding()
      reads this`strstart, this`lookahead, this`input, this`past, this`base, this`noheader, this`adler
      reads window, dict, dict.head, dict.prev
    {
      && Fixed() && strstart + 4 <= window.Length && base + strstart >= 0 && ReachesBack(base, strstart, wBits)
      && Held(window[..], input, base, strstart + lookahead)
      && dict.Valid(window[..], strstart + lookahead)
      && (noheader == 0 ==> adler == Adler32(past + input))
    }

    /** Within a step: the string at strstart is inserted, if there are three bytes of it. */
    ghost predicate Stepping()
      reads this`strstart, this`lookahead, this`input, this`past, this`base, this`noheader, this`adler
      reads this`skipped, window, dict, dict.head, dict.prev
    {
      && Sliding() && strstart + MIN_LOOKAHEAD <= window.Length
      && dict.next <= strstart + 1 && Indexed(dict.ins, skipped, base, strstart + 1)
      && (lookahead >= MIN_MATCH ==> dict.next == strstart + 1 && Primed(window[..], dict.z, dict.insH, strstart + 1))
    }

    /** All input read so far. */
    ghost function All(): seq<byte>
      reads this
    {
      past + input
    }

    /** How the input is parsed, and what is tallied. */
    ghost function ParseMode(): Mode
      requires 1 <= level <= 9
    {
      Mode(level >= 4, Configuration(level), strategy, wBits, dict.z)
    }

    ghost function ParseLog(): Log
      reads this`finds, this`done
    {
      Log(level >= 4, finds, done)
    }

    /** The searches so far, all before position end, were honest. */
    ghost predicate Recorded(end: int)
      reads this`input, this`skipped, this`finds
    {
      1 <= level <= 9 && AllHonest(ParseMode(), input, skipped, finds, end)
    }

    /** All that is tallied, held back and ahead, with the tokens tallied after the flushed blocks: everything up
        to pos, but for the literal held back. */
    ghost predicate TalliedTo(pos: int, available: bool)
      reads this`input, this`base, this`blockStart, this`finds, this`done, blocks`lastLit, blocks.dBuf, blocks.lBuf
    {
      && blocks.lastLit <= blocks.dBuf.Length && blocks.lastLit <= blocks.lBuf.Length
      && Tallied(input, base + blockStart, pos, available, blocks.Tokens(), Pow2(wBits), ParseLog())
    }

    /** Between two steps: the string at strstart is the next one to insert. */
    ghost predicate Windowed()
      reads this`strstart, this`lookahead, this`input, this`past, this`base, this`noheader, this`adler
      reads this`skipped, window, dict, dict.head, dict.prev
    {
      && Sliding() && dict.next <= strstart && Indexed(dict.ins, skipped, base, strstart)
      && (lookahead >= MIN_MATCH ==> Primed(window[..], dict.z, dict.insH, strstart))
    }

    /** Everything tallied, held back and ahead stands for the input. */
    ghost predicate Parsed()
      reads this, blocks, blocks.dBuf, blocks.lBuf
    {
      && 0 <= base + strstart <= |input| && TalliedTo(base + strstart, matchAvailable)
      && MatchHeld(input, base + matchStart, base + strstart, matchLength, matchAvailable, wBits, finds)
      && (matchAvailable ==> strstart >= 1) && matchLength <= MAX_MATCH
      && (if level <= 3 then !matchAvailable && matchLength < MIN_MATCH && prevLength == MIN_MATCH - 1 else 1 <= matchLength)
    }

    /** deflateInit2_ and deflateReset, for parameters in range. */
    constructor (level: nat, wBits: nat, memLevel: nat, strategy: nat, raw: bool)
      requires 1 <= level <= 9 && 9 <= wBits <= 15 && 1 <= memLevel <= 9
      ensures Windowed() && Parsed() && Recorded(0)
      ensures blocks.Valid() && blocks.lastLit == 0
      ensures this.level == level && this.wBits == wBits && this.strategy == strategy && this.raw == raw
      ensures blocks.litBufsize == Pow2(memLevel + 6) && dict.z.bits == memLevel + 7
      ensures input == [] && past == [] && finds == map[] && nextIn == [] && marks == [Mark(if raw then 0 else 16, 0)]
      ensures base == 0 && header == 0 && blockStart == 0 && strstart == 0 && lookahead == 0
      ensures blocks.out.sent == [] && blocks.out.delivered == [] && blocks.out.pending == [] && blocks.out.availOut == 0
      ensures noheader == (if raw then 1 else 0) && status == (if raw then BUSY_STATE else INIT_STATE)
      ensures fresh(window) && fresh(dict) && fresh(dict.head) && fresh(dict.prev)
      ensures fresh(blocks) && fresh(blocks.out) && fresh(blocks.dBuf) && fresh(blocks.lBuf)
      ensures fresh(blocks.st) && fresh(blocks.st.heap) && fresh(blocks.st.depth) && fresh(blocks.st.blCount)
      ensures fresh(blocks.l) && fresh(blocks.l.fc) && fresh(blocks.l.dl) && fresh(blocks.d) && fresh(blocks.d.fc) && fresh(blocks.d.dl)
      ensures fresh(blocks.bl) && fresh(blocks.bl.fc) && fresh(blocks.bl.dl)
    {
      hide Adler32, Pow2, BlockState.Valid, Dictionary.Valid, Windowed, Parsed, Recorded;
      LitBufsize(memLevel);
      WindowSize(wBits);
      this.level := level;
      this.wBits := wBits;
      this.strategy := strategy;
      this.raw := raw;
      var w, dictionary := NewWindow(wBits, memLevel);
      window := w;
      dict := dictionary;
      nextIn := [];
      status := if raw then BUSY_STATE else INIT_STATE;
      noheader := if raw then 1 else 0;
      lastFlush := Z_NO_FLUSH;
      adler := 1;
      strstart, lookahead, blockStart, matchStart := 0, 0, 0, 0;
      matchLength, prevMatch, prevLength, matchAvailable := MIN_MATCH - 1, 0, MIN_MATCH - 1, false;
      input, base, past, header, dataEnd := [], 0, [], 0, 0;
      finds, done, skipped, cuts := map[], [], {}, [];
      marks := [Mark(if raw then 0 else 16, 0)];
      blocks := new BlockState(Pow2(memLevel + 6));
      new;
      StartState(this);
    }

    /** read_buf: move input into the window. */
    method ReadBuf(at: nat, size: nat) returns (n: nat)
      requires at + size <= window.Length && (noheader == 0 ==> adler == Adler32(past + input))
      modifies window, this`nextIn, this`adler, this`input
      ensures n == if |old(nextIn)| > size then size else |old(nextIn)|
      ensures nextIn == old(nextIn)[n..] && input == old(input) + old(nextIn)[..n]
      ensures window[at..at + n] == old(nextIn)[..n]
      ensures forall i :: 0 <= i < at || at + n <= i < window.Length ==> window[i] == old(window[i])
      ensures noheader == 0 ==> adler == Adler32(past + input)
    {
      hide Adler32;
      n := |nextIn|;
      if n > size {
        n := size;
      }
      if n == 0 {
        assert input + nextIn[..n] == input;
        return;
      }
      if noheader == 0 {
        adler := Checksum.Adler(adler, nextIn[..n], past + input);
        assert past + input + nextIn[..n] == past + (input + nextIn[..n]);
      }
      var i := 0;
      while i < n
        invariant 0 <= i <= n && nextIn == old(nextIn) && input == old(input) && |nextIn| >= n
        invariant noheader == 0 ==> adler == Adler32(past + (input + nextIn[..n]))
        invariant forall j :: at <= j < at + i ==> window[j] == nextIn[j - at]
        invariant forall j :: 0 <= j < at || at + n <= j < window.Length ==> window[j] == old(window[j])
      {
        window[at + i] := nextIn[i];
        i := i + 1;
      }
      input := input + nextIn[..n];
      nextIn := nextIn[n..];
    }
  }

  /** A window without input and an empty dictionary. */
  method NewWindow(wBits: nat, memLevel: nat) returns (w: array<byte>, dict: Dictionary)
    requires 9 <= wBits <= 15 && 1 <= memLevel <= 9
    ensures w.Length == 2 * Pow2(wBits) && fresh(w)
    ensures dict.Valid(w[..], 0) && dict.wBits == wBits && dict.z.bits == memLevel + 7 && dict.next == 0 && dict.ins == {}
    ensures fresh(dict) && fresh(dict.head) && fresh(dict.prev)
  {
    hide Chains, Pow2;
    w := new byte[2 * Pow2(wBits)](i => 0);
    dict := new Dictionary(wBits, HashSize(memLevel + 7, (memLevel + 7 + 2) / 3), w[..]);
  }

  lemma LitBufsize(memLevel: nat)
    requires 1 <= memLevel <= 9
    ensures 4 <= Pow2(memLevel + 6) <= 32768
  {
    Pow2Mono(memLevel + 6, 15);
    Pow2Mono(2, memLevel + 6);
    Pow2Values();
  }

  lemma WindowSize(wBits: nat)
    requires 9 <= wBits <= 15
    ensures 512 <= Pow2(wBits) <= 32768
  {
    Pow2Mono(9, wBits);
    Pow2Mono(wBits, 15);
    Pow2Values();
  }

  lemma StartsEmpty(w: seq<byte>, wBits: nat, lazy: bool)
    ensures Held(w, [], 0, 0) && Indexed({}, {}, 0, 0) && MatchHeld([], 0, 0, MIN_MATCH - 1, false, wBits, map[])
    ensures Tallied([], 0, 0, false, [], Pow2(wBits), Log(lazy, map[], []))
  {
    TalliedNone([], Pow2(wBits), Log(lazy, map[], []));
  }

  /** A new stream. */
  lemma StartState(s: Deflater)
    requires s.Fixed() && s.blocks.Valid() && s.blocks.lastLit == 0
    requires s.dict.Valid(s.window[..], 0) && s.dict.ins == {} && s.dict.next == 0
    requires s.strstart == 0 && s.lookahead == 0 && s.blockStart == 0 && s.matchStart == 0 && !s.matchAvailable
    requires s.matchLength == s.prevLength == MIN_MATCH - 1 && s.adler == 1
    requires s.input == [] && s.past == [] && s.base == 0 && s.finds == map[] && s.done == [] && s.skipped == {}
    ensures s.Windowed() && s.Parsed() && s.Recorded(0)
  {
    hide Adler32, Pow2, Chains, Tallied, MatchHeld, Held, TokensOf, Primed, Indexed, BlockState.Valid, Configuration;
    WindowSize(s.wBits);
    StartsEmpty(s.window[..], s.wBits, s.level >= 4);
    AdlerEmpty();
    ValidSizes(s.blocks);
    assert s.blocks.Tokens() == [];
    assert s.past + s.input == [];
    NoFinds(s.ParseMode(), [], {}, 0);
  }

  lemma AdlerEmpty()
    ensures Adler32([]) == 1
  {
  }
}
