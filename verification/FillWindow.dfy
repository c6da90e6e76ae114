/** fill_window: sliding the window and reading input into it. */
module FillWindow {
  import opened Sums
  import opened Bits
  import opened Inflate
  import opened StaticTables
  import opened RollingHash
  import opened HashChains
  import opened LongestMatch
  import opened LazyParse
  import opened Lz77
  import opened Deflate

  /** What fill_window leaves alone: all positions of the stream, and what was read before. */
  twostate predicate SamePlaces(s: Deflater)
    reads s
  {
    && s.base + s.strstart == old(s.base + s.strstart)
    && s.base + s.blockStart == old(s.base + s.blockStart)
    && s.base + s.matchStart == old(s.base + s.matchStart)
    && (old(s.strstart) >= 1 ==> s.strstart >= 1)
    && s.input + s.nextIn == old(s.input + s.nextIn) && old(s.input) <= s.input
    && s.lookahead + |s.nextIn| == old(s.lookahead + |s.nextIn|) && s.lookahead >= old(s.lookahead)
  }

  /** Move the upper half of the window to the lower one. */
  method SlideWindow(s: Deflater)
    requires s.Windowed() && s.strstart >= Pow2(s.wBits) + MaxDist(s.wBits)
    modifies s.window, s.dict.head, s.dict.prev, s.dict`ins, s.dict`next
    modifies s`strstart, s`blockStart, s`matchStart, s`base
    ensures s.Windowed() && SamePlaces(s) && s.strstart == old(s.strstart) - Pow2(s.wBits)
  {
    hide Held, Chains, Primed, Pow2, Adler32, Indexed;
    WindowSize(s.wBits);
    ghost var w0, n := s.window[..], Pow2(s.wBits);
    IndexedSlid(s.dict.ins, s.skipped, s.base, s.strstart, n);
    var wsize := Pow2(s.wBits);
    HeldLength(w0, s.input, s.base, s.strstart + s.lookahead);
    MoveDown(s.window, wsize);
    ghost var w1 := s.window[..];
    HeldSlid(w0, w1, s.input, s.base, s.strstart + s.lookahead, n);
    if s.lookahead >= MIN_MATCH {
      PrimedSlid(w0, w1, s.dict.z, s.dict.insH, s.strstart, n);
    }
    s.matchStart := s.matchStart - wsize;
    s.strstart := s.strstart - wsize;
    s.blockStart := s.blockStart - wsize;
    s.base := s.base + n;
    s.dict.Slide(w0, w1, s.strstart + n + s.lookahead);
  }

  /** Copy the upper half of the window to the lower one. */
  method MoveDown(window: array<byte>, wsize: nat)
    requires window.Length == 2 * wsize
    modifies window
    ensures forall j :: 0 <= j < wsize ==> window[j] == old(window[j + wsize])
  {
    var i := 0;
    while i < wsize
      invariant 0 <= i <= wsize
      invariant forall j :: 0 <= j < i ==> window[j] == old(window[j + wsize])
      invariant forall j :: i <= j < window.Length ==> window[j] == old(window[j])
    {
      window[i] := window[i + wsize];
      i := i + 1;
    }
  }

  lemma HeldLength(w: seq<byte>, input: seq<byte>, base: int, n: nat)
    requires Held(w, input, base, n)
    ensures n <= |w| && |input| == base + n
  {
  }

  /** One round: slide if the window is almost full, then read. */
  method FillOnce(s: Deflater) returns (done: bool)
    requires s.Windowed() && s.lookahead < MIN_LOOKAHEAD
    modifies s.window, s.dict.head, s.dict.prev, s.dict`ins, s.dict`next, s.dict`insH
    modifies s`strstart, s`blockStart, s`matchStart, s`base, s`lookahead, s`nextIn, s`adler, s`input
    ensures s.Windowed() && SamePlaces(s) && s.strstart + MIN_LOOKAHEAD <= s.window.Length
    ensures done <==> s.lookahead >= MIN_LOOKAHEAD || s.nextIn == []
    ensures !done ==> |s.nextIn| < |old(s.nextIn)|
  {
    hide Held, Chains, Primed, Pow2, Adler32, Indexed;
    WindowSize(s.wBits);
    HeldLength(s.window[..], s.input, s.base, s.strstart + s.lookahead);
    var wsize := Pow2(s.wBits);
    var more: nat := s.window.Length - s.lookahead - s.strstart;
    if s.strstart >= wsize + MaxDist(s.wBits) {
      SlideWindow(s);
      more := more + wsize;
    }
    if s.nextIn == [] {
      return true;
    }
    // in all cases more >= 2
    assert more >= 2;
    ReadMore(s, more);
    done := !(s.lookahead < MIN_LOOKAHEAD && s.nextIn != []);
  }

  /** Read at most more bytes and initialise the hash value. */
  method ReadMore(s: Deflater, more: nat)
    requires s.Windowed() && s.nextIn != [] && 0 < more == s.window.Length - s.lookahead - s.strstart
    modifies s.window, s.dict`insH, s`lookahead, s`nextIn, s`adler, s`input
    ensures s.Windowed() && SamePlaces(s) && |s.nextIn| < |old(s.nextIn)|
  {
    hide Held, Chains, Primed, Pow2, Adler32, Indexed;
    WindowSize(s.wBits);
    ghost var w0, valid := s.window[..], s.strstart + s.lookahead;
    HeldLength(w0, s.input, s.base, valid);
    var n := s.ReadBuf(s.strstart + s.lookahead, more);
    ghost var w1, read := s.window[..], old(s.nextIn)[..n];
    assert w1[..valid] == w0[..valid] && w1[valid..valid + n] == read;
    HeldMore(w0, w1, old(s.input), s.base, valid, read);
    Appended(w0, w1, s.dict.head[..], s.dict.prev[..], s.wBits, s.dict.z, s.dict.ins, s.dict.next, valid, valid + n);
    s.lookahead := s.lookahead + n;
    if s.lookahead >= MIN_MATCH {
      s.dict.Prime(s.window, s.strstart);
    }
    assert old(s.nextIn) == read + s.nextIn;
    assert s.input + s.nextIn == old(s.input) + (read + s.nextIn);
  }

  /** Fill the window when the lookahead becomes insufficient. */
  method Fill(s: Deflater)
    requires s.Windowed() && s.Parsed() && s.lookahead < MIN_LOOKAHEAD
    modifies s.window, s.dict.head, s.dict.prev, s.dict`ins, s.dict`next, s.dict`insH
    modifies s`strstart, s`blockStart, s`matchStart, s`base, s`lookahead, s`nextIn, s`adler, s`input
    ensures s.Windowed() && s.Parsed() && SamePlaces(s) && s.strstart + MIN_LOOKAHEAD <= s.window.Length
    ensures s.lookahead >= MIN_LOOKAHEAD || s.nextIn == []
  {
    hide Held, Chains, Primed, Pow2, Adler32, Tallied, MatchHeld, Indexed;
    var done := false;
    while !done
      invariant s.Windowed() && SamePlaces(s)
      invariant !done ==> s.lookahead < MIN_LOOKAHEAD
      invariant done ==> s.strstart + MIN_LOOKAHEAD <= s.window.Length && (s.lookahead >= MIN_LOOKAHEAD || s.nextIn == [])
      decreases !done, |s.nextIn|
    {
      done := FillOnce(s);
    }
    ghost var more := s.input[|old(s.input)|..];
    assert s.input == old(s.input) + more;
    TalliedMore(old(s.input), more, s.base + s.blockStart, s.base + s.strstart, s.matchAvailable, s.blocks.Tokens(), Pow2(s.wBits),
                s.ParseLog());
    MatchHeldMore(old(s.input), more, s.base + s.matchStart, s.base + s.strstart, s.matchLength, s.matchAvailable, s.wBits, s.finds);
  }
}
