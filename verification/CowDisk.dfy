/** The file of a redo log, as 32-bit words: word i counted from a sector is 128 * sector + i. */
module CowDisk {
  const SECTOR_WORDS: int := 128

  type Disk = map<int, int>

  /** A word never written reads as 0. */
  function At(d: Disk, sector: int, i: int): int
  {
    if SECTOR_WORDS * sector + i in d then d[SECTOR_WORDS * sector + i] else 0
  }

  predicate Has(d: Disk, sector: int, i: int)
  {
    SECTOR_WORDS * sector + i in d
  }

  function Words(d: Disk, sector: int, n: nat): seq<int>
  {
    seq(n, i => At(d, sector, i))
  }

  function PutWord(d: Disk, sector: int, i: int, v: int): Disk
  {
    d[SECTOR_WORDS * sector + i := v]
  }

  predicate InBlock(sector: int, n: int, a: int)
  {
    SECTOR_WORDS * sector <= a < SECTOR_WORDS * sector + n
  }

  function PutBlock(d: Disk, sector: int, words: seq<int>): Disk
  {
    d + map a: int | SECTOR_WORDS * sector <= a < SECTOR_WORDS * sector + |words| && InBlock(sector, |words|, a) ::
      words[a - SECTOR_WORDS * sector]
  }

  /** The words have all been written at the sector. */
  predicate Landed(d: Disk, sector: int, words: seq<int>)
  {
    forall i :: 0 <= i < |words| ==> Has(d, sector, i) && At(d, sector, i) == words[i]
  }

  /** Every one of the n words at a sector has been written. */
  ghost predicate Filled(d: Disk, sector: int, n: int)
  {
    forall i :: 0 <= i < n ==> Has(d, sector, i)
  }

  ghost predicate Same(d: Disk, d': Disk, sector: int, n: int)
  {
    forall i :: 0 <= i < n ==> At(d', sector, i) == At(d, sector, i) && (Has(d, sector, i) ==> Has(d', sector, i))
  }

  /** The images differ at most in the n words at a sector. */
  ghost predicate Within(d: Disk, d': Disk, sector: int, n: int)
  {
    forall a: int :: (a in d || a in d') && !InBlock(sector, n, a) ==>
      a in d && a in d' && d[a] == d'[a]
  }

  /** What a crash may leave of the write that turns d0 into d1: any part of it, word by word. */
  ghost predicate Torn(d0: Disk, d1: Disk, d: Disk)
  {
    && (forall a: int :: a in d ==> (a in d0 && d[a] == d0[a]) || (a in d1 && d[a] == d1[a]))
    && (forall a: int :: a in d0 ==> a in d)
  }

  /** Two runs of words that do not meet. */
  predicate Clear(s: int, n: int, t: int, m: int)
  {
    SECTOR_WORDS * s + n <= SECTOR_WORDS * t || SECTOR_WORDS * t + m <= SECTOR_WORDS * s
  }

  lemma PutWordAt(d: Disk, s: int, i: int, v: int, n: int)
    requires 0 <= i < n
    ensures Within(d, PutWord(d, s, i, v), s, n)
    ensures At(PutWord(d, s, i, v), s, i) == v
    ensures forall j :: j != i ==> At(PutWord(d, s, i, v), s, j) == At(d, s, j)
    ensures forall j :: Has(PutWord(d, s, i, v), s, j) <==> j == i || Has(d, s, j)
  {
  }

  lemma PutBlockAt(d: Disk, s: int, words: seq<int>)
    ensures Within(d, PutBlock(d, s, words), s, |words|)
    ensures forall i :: 0 <= i < |words| ==> At(PutBlock(d, s, words), s, i) == words[i] && Has(PutBlock(d, s, words), s, i)
  {
  }

  lemma WithinSame(d: Disk, d': Disk, s: int, n: int, t: int, m: int)
    requires Within(d, d', s, n) && Clear(s, n, t, m)
    ensures Same(d, d', t, m)
  {
  }

  lemma SameWords(d: Disk, d': Disk, sector: int, n: nat)
    requires Same(d, d', sector, n)
    ensures Words(d', sector, n) == Words(d, sector, n)
  {
  }

  lemma TornWithin(d0: Disk, d1: Disk, d: Disk, s: int, n: int)
    requires Within(d0, d1, s, n) && Torn(d0, d1, d)
    ensures Within(d0, d, s, n)
  {
  }

  lemma TornAt(d0: Disk, d1: Disk, d: Disk, s: int, i: int)
    requires Torn(d0, d1, d)
    ensures At(d, s, i) == At(d0, s, i) || At(d, s, i) == At(d1, s, i)
    ensures Has(d0, s, i) ==> Has(d, s, i)
  {
  }
}
