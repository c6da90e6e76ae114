/** Where decoding can start: every full flush leaves a place behind which the data decodes on its own. */
module Resume {
  import opened Sums
  import opened Bits
  import opened HuffmanCode
  import opened Inflate
  import opened BlockFormat
  import opened Deflate
  import opened DeflateSlow
  import opened ZlibStream

  /** The bits from the mark to end are blocks that, with no history, make the text from the mark on. */
  ghost predicate Resumes(m: Mark, bits: seq<bool>, end: nat, text: seq<byte>, wsize: nat)
  {
    m.bit % 8 == 0 && m.bit <= end <= |bits| && m.at <= |text| && Open(bits[m.bit..end], wsize, text[m.at..])
  }

  ghost predicate Resumable(marks: seq<Mark>, bits: seq<bool>, end: nat, text: seq<byte>, wsize: nat)
  {
    forall i :: 0 <= i < |marks| ==> Resumes(marks[i], bits, end, text, wsize)
  }

  /** More bits behind. */
  lemma ResumeGrows(marks: seq<Mark>, bits: seq<bool>, bits': seq<bool>, end: nat, text: seq<byte>, wsize: nat)
    requires Resumable(marks, bits, end, text, wsize) && end <= |bits| && end <= |bits'| && bits[..end] == bits'[..end]
    ensures Resumable(marks, bits', end, text, wsize)
  {
    hide Open;
    forall i | 0 <= i < |marks| ensures Resumes(marks[i], bits', end, text, wsize) {
      assert Resumes(marks[i], bits, end, text, wsize);
      assert bits'[marks[i].bit..end] == bits'[..end][marks[i].bit..] && bits[marks[i].bit..end] == bits[..end][marks[i].bit..];
    }
  }

  /** The data since the last mark joins that of every earlier one. */
  lemma ResumeJoin(marks: seq<Mark>, bits: seq<bool>, start: nat, past: seq<byte>, wsize: nat, end: nat, text: seq<byte>)
    requires Resumable(marks, bits, start, past, wsize) && start % 8 == 0 && start <= end <= |bits|
    requires Open(bits[start..end], wsize, text)
    ensures Resumable(marks, bits, end, past + text, wsize)
  {
    hide Open;
    forall i | 0 <= i < |marks| ensures Resumes(marks[i], bits, end, past + text, wsize) {
      var m := marks[i];
      assert Resumes(m, bits, start, past, wsize);
      OpenJoin(bits[m.bit..start], bits[start..end], wsize, past[m.at..], text);
      assert bits[m.bit..start] + bits[start..end] == bits[m.bit..end] && past[m.at..] + text == (past + text)[m.at..];
    }
  }

  /** A new mark at the end. */
  lemma ResumeMark(marks: seq<Mark>, bits: seq<bool>, text: seq<byte>, wsize: nat)
    requires Resumable(marks, bits, |bits|, text, wsize) && |bits| % 8 == 0
    ensures Resumable(marks + [Mark(|bits|, |text|)], bits, |bits|, text, wsize)
  {
    hide Open;
    OpenStart(wsize);
    var m := Mark(|bits|, |text|);
    assert bits[m.bit..|bits|] == [] && text[m.at..] == [];
    assert Resumes(m, bits, |bits|, text, wsize);
  }

  /** From the mark the bits are a complete stream. */
  ghost predicate Ends(m: Mark, bits: seq<bool>, end: nat, text: seq<byte>, wsize: nat)
  {
    m.bit % 8 == 0 && m.bit <= end <= |bits| && m.at <= |text| && Closed(bits[m.bit..end], wsize, text[m.at..])
  }

  lemma ResumeEnds(marks: seq<Mark>, bits: seq<bool>, start: nat, past: seq<byte>, wsize: nat, end: nat, text: seq<byte>)
    requires Resumable(marks, bits, start, past, wsize) && start % 8 == 0 && start <= end <= |bits|
    requires Closed(bits[start..end], wsize, text)
    ensures forall i :: 0 <= i < |marks| ==> Ends(marks[i], bits, end, past + text, wsize)
  {
    hide Open, Closed;
    forall i | 0 <= i < |marks| ensures Ends(marks[i], bits, end, past + text, wsize) {
      var m := marks[i];
      assert Resumes(m, bits, start, past, wsize);
      OpenJoin(bits[m.bit..start], bits[start..end], wsize, past[m.at..], text);
      assert bits[m.bit..start] + bits[start..end] == bits[m.bit..end] && past[m.at..] + text == (past + text)[m.at..];
    }
  }

  /** The decoder, started with no history at the mark in the bytes delivered, gives the text from there on. */
  ghost predicate DecodesFrom(delivered: seq<byte>, m: Mark, text: seq<byte>, wsize: nat)
  {
    && m.bit % 8 == 0 && m.bit / 8 <= |delivered| && m.at <= |text|
    && var r := InflateBlocks(wsize, 0, BytesBits(delivered[m.bit / 8..]), []); r.Ok? && r.value == text[m.at..]
  }

  lemma EndsDecode(delivered: seq<byte>, m: Mark, bits: seq<bool>, end: nat, text: seq<byte>, wsize: nat)
    requires Ends(m, bits, end, text, wsize) && bits == BytesBits(delivered)
    ensures DecodesFrom(delivered, m, text, wsize)
  {
    hide BytesBits, InflateBlocks, Closed;
    BytesSplit(delivered, m.bit / 8);
    ClosedDecodes(bits[m.bit..end], wsize, text[m.at..], bits[end..]);
    assert bits[m.bit..end] + bits[end..] == bits[m.bit..];
  }
}
