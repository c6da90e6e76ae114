/** What decodes after some text decodes after any longer text that ends in it: a match that stays within
    the shorter history does not notice what is before. */
module MoreHistory {
  import opened Sums
  import opened Bits
  import opened HuffmanCode
  import opened Inflate

  lemma {:induction false} CopyAfter(past: seq<byte>, out: seq<byte>, dist: nat, len: nat)
    requires 1 <= dist <= |out|
    ensures CopyMatch(past + out, dist, len) == past + CopyMatch(out, dist, len)
    decreases len
  {
    if len > 0 {
      var c := out[|out| - dist];
      assert (past + out)[|past + out| - dist] == c;
      assert past + out + [c] == past + (out + [c]);
      CopyAfter(past, out + [c], dist, len - 1);
    }
  }

  lemma {:induction false} DataAfter(llens: seq<nat>, dlens: seq<nat>, wsize: nat, bits: seq<bool>, out: seq<byte>, past: seq<byte>)
    requires InflateData(llens, dlens, wsize, bits, out).Ok?
    ensures var r := InflateData(llens, dlens, wsize, bits, out);
            InflateData(llens, dlens, wsize, bits, past + out) == Ok(past + r.value, r.rest)
    decreases |bits|
  {
    hide ReadSymbol, ReadMatch, CopyMatch;
    var s := ReadSymbol(llens, bits);
    if s.value < 256 {
      assert past + out + [s.value] == past + (out + [s.value]);
      DataAfter(llens, dlens, wsize, s.rest, out + [s.value], past);
    } else if s.value > 256 {
      var m := ReadMatch(s.value, dlens, s.rest);
      CopyAfter(past, out, m.value.1, m.value.0);
      DataAfter(llens, dlens, wsize, m.rest, CopyMatch(out, m.value.1, m.value.0), past);
    }
  }

  lemma StoredAfter(pad: nat, bits: seq<bool>, out: seq<byte>, past: seq<byte>)
    requires InflateStored(pad, bits, out).Ok?
    ensures var r := InflateStored(pad, bits, out); InflateStored(pad, bits, past + out) == Ok(past + r.value, r.rest)
  {
    hide ReadBits, ReadBytes;
    var a := ReadBits(bits, pad);
    var b := ReadBits(a.rest, 16);
    var c := ReadBits(b.rest, 16);
    var d := ReadBytes(c.rest, b.value);
    assert past + out + d.value == past + (out + d.value);
  }

  lemma DynamicAfter(wsize: nat, bits: seq<bool>, out: seq<byte>, past: seq<byte>)
    requires InflateDynamic(wsize, bits, out).Ok?
    ensures var r := InflateDynamic(wsize, bits, out); InflateDynamic(wsize, bits, past + out) == Ok(past + r.value, r.rest)
  {
    hide ReadBits, ReadClLengths, ByClOrder, Complete, ReadCodeLengths, InflateData;
    forall llens, dlens, rest | InflateData(llens, dlens, wsize, rest, out).Ok?
      ensures var r := InflateData(llens, dlens, wsize, rest, out);
              InflateData(llens, dlens, wsize, rest, past + out) == Ok(past + r.value, r.rest)
    {
      DataAfter(llens, dlens, wsize, rest, out, past);
    }
  }

  lemma SamePad(pos: nat, n: nat)
    requires n % 8 == 0
    ensures Padding(pos + n + 3) == Padding(pos + 3)
  {
    assert (pos + n + 3) % 8 == (pos + 3) % 8;
  }

  /** A block that decodes decodes the same way n bits later, n a number of whole bytes, after a longer text. */
  lemma BlockAfter(wsize: nat, pos: nat, bits: seq<bool>, out: seq<byte>, n: nat, past: seq<byte>)
    requires InflateBlock(wsize, pos, bits, out).Ok? && n % 8 == 0
    ensures var r := InflateBlock(wsize, pos, bits, out);
            InflateBlock(wsize, pos + n, bits, past + out) == Ok(Block(r.value.final, past + r.value.text), r.rest)
  {
    hide ReadBits, InflateStored, InflateData, InflateDynamic, Padding, FixedLit, FixedDist;
    var a := ReadBits(bits, 1);
    var b := ReadBits(a.rest, 2);
    SamePad(pos, n);
    if b.value == 0 {
      StoredAfter(Padding(pos + 3), b.rest, out, past);
    } else if b.value == 1 {
      DataAfter(FixedLit(), FixedDist(), wsize, b.rest, out, past);
    } else {
      DynamicAfter(wsize, b.rest, out, past);
    }
  }
}
