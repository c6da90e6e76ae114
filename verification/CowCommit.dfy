/** COWCommit of redo log 1 into a flat base disk. */
module CowCommit {
  import opened CowDisk
  import opened CowState
  import opened CowInvariant
  import opened CowFrame
  import opened CowLeaf
  import opened CowAdd
  import opened CowCrash
  import opened CowStack

  const COMMIT_SECTORS: int := 512
  const MAX_COMMIT_FRACTION: int := 1000

  /** The sector of the virtual disk where a grain starts, as COWCommit computes it. */
  function SectorOf(g: Grain, granularity: int): int
  {
    (g.root * LEAF_ENTRIES + g.pos) * granularity
  }

  ghost function InBaseFile(base: Disk, g: Grain, granularity: int): seq<int>
    requires granularity > 0
  {
    Words(base, SectorOf(g, granularity), SECTOR_WORDS * granularity)
  }

  /** The disk as log 1 over the base shows it. */
  ghost function View(d: Disk, rootOffset: int, granularity: int, base: Disk, g: Grain): seq<int>
    requires granularity > 0
  {
    var c := Resolve(d, rootOffset, granularity, g);
    if c.Present? then c.words else InBaseFile(base, g, granularity)
  }

  /** The base b' is b with the grains log 1 has in root entries lo to hi copied in. */
  ghost predicate Committed(d: Disk, rootOffset: int, roots: int, granularity: int, b: Disk, b': Disk, lo: int, hi: int)
    requires granularity > 0
  {
    forall g :: IsGrain(g, roots) ==>
      InBaseFile(b', g, granularity) == if lo <= g.root < hi then View(d, rootOffset, granularity, b, g) else InBaseFile(b, g, granularity)
  }

  ghost predicate SameView(d: Disk, rootOffset: int, roots: int, granularity: int, b: Disk, b': Disk)
    requires granularity > 0
  {
    forall g :: IsGrain(g, roots) ==> View(d, rootOffset, granularity, b', g) == View(d, rootOffset, granularity, b, g)
  }

  // ----- what commits do to each other

  /** Commits of adjacent ranges of root entries compose. */
  lemma Adjacent(d: Disk, rootOffset: int, roots: int, granularity: int, b0: Disk, b1: Disk, b2: Disk, lo: int, mid: int, hi: int)
    requires granularity > 0 && lo <= mid <= hi
    requires Committed(d, rootOffset, roots, granularity, b0, b1, lo, mid) && Committed(d, rootOffset, roots, granularity, b1, b2, mid, hi)
    ensures Committed(d, rootOffset, roots, granularity, b0, b2, lo, hi)
  {
    hide Resolve, InBaseFile;
  }

  /** A commit run again changes no grain. */
  lemma Rerun(d: Disk, rootOffset: int, roots: int, granularity: int, b0: Disk, b1: Disk, b2: Disk, lo: int, hi: int)
    requires granularity > 0
    requires Committed(d, rootOffset, roots, granularity, b0, b1, lo, hi) && Committed(d, rootOffset, roots, granularity, b1, b2, lo, hi)
    ensures forall g :: IsGrain(g, roots) ==> InBaseFile(b2, g, granularity) == InBaseFile(b1, g, granularity)
  {
    hide Resolve, InBaseFile;
  }

  /** After a full commit the base alone is the former two-level view. */
  lemma Full(d: Disk, rootOffset: int, roots: int, granularity: int, b: Disk, b': Disk)
    requires granularity > 0 && Committed(d, rootOffset, roots, granularity, b, b', 0, roots)
    ensures forall g :: IsGrain(g, roots) ==> InBaseFile(b', g, granularity) == View(d, rootOffset, granularity, b, g)
  {
    hide View, InBaseFile;
  }

  lemma SectorIs(granularity: int, sector: int)
    requires granularity > 0 && sector >= 0 && sector % granularity == 0
    ensures SectorOf(ToGrain(granularity, sector), granularity) == sector
  {
    var grain := sector / granularity;
    assert grain / LEAF_ENTRIES * LEAF_ENTRIES + grain % LEAF_ENTRIES == grain;
    assert grain * granularity == sector;
  }

  /** The whole stack shows the same disk over either base, whatever logs lie above log 1. */
  lemma {:induction false} StackUnchanged(stack: seq<State>, granularity: nat, k: nat, sector: int, b: Disk, b': Disk)
    requires granularity > 0 && 0 < k <= |stack| && sector >= 0 && sector % granularity == 0
    requires forall i :: 0 <= i < |stack| ==> stack[i].granularity == granularity
    requires SameView(stack[0].disk, stack[0].rootOffset, |stack[0].rootEntries|, granularity, b, b')
    ensures var r := Locate(stack, false, k, sector); var n := SECTOR_WORDS * granularity;
      (r.InLog? ==> 0 < r.level <= |stack|) && Fetch(stack, b', r, n) == Fetch(stack, b, r, n)
    decreases k
  {
    hide Words, ToGrain;
    var g := ToGrain(granularity, sector);
    if k > 1 {
      StackUnchanged(stack, granularity, k - 1, sector, b, b');
    } else {
      var s := stack[0];
      SectorIs(granularity, sector);
      assert g.pos == sector / granularity % LEAF_ENTRIES by { PosOf(granularity, sector); }
      if 0 <= g.root < |s.rootEntries| {
        assert IsGrain(g, |s.rootEntries|);
        assert View(s.disk, s.rootOffset, granularity, b', g) == View(s.disk, s.rootOffset, granularity, b, g);
      }
    }
  }

  lemma PosOf(granularity: int, sector: int)
    requires granularity > 0
    ensures ToGrain(granularity, sector).pos == sector / granularity % LEAF_ENTRIES
  {
  }

  // ----- one write: the grains of consecutive leaf entries

  /** The words of the grains of entries j to k, in order. */
  ghost function Flat(d: Disk, leaf: seq<int>, j: int, k: int, n: nat): seq<int>
    requires 0 <= j && k <= |leaf|
    decreases k - j
  {
    if k <= j then [] else Flat(d, leaf, j, k - 1, n) + Words(d, leaf[k - 1], n)
  }

  lemma {:induction false} FlatSize(d: Disk, leaf: seq<int>, j: int, k: int, n: nat)
    requires 0 <= j <= k <= |leaf|
    ensures |Flat(d, leaf, j, k, n)| == (k - j) * n
    decreases k - j
  {
    if k > j {
      FlatSize(d, leaf, j, k - 1, n);
      MulStep(k - 1 - j, n);
    }
  }

  lemma MulStep(m: int, n: int)
    ensures (m + 1) * n == m * n + n
  {
  }

  lemma {:induction false} FlatAt(d: Disk, leaf: seq<int>, j: int, k: int, n: nat, q: int, w: int)
    requires 0 <= j <= q < k <= |leaf| && 0 <= w < n
    ensures 0 <= (q - j) * n + w < |Flat(d, leaf, j, k, n)|
    ensures Flat(d, leaf, j, k, n)[(q - j) * n + w] == At(d, leaf[q], w)
    decreases k - j
  {
    hide At;
    FlatSize(d, leaf, j, k - 1, n);
    FlatSize(d, leaf, j, k, n);
    MulStep(k - 1 - j, n);
    MulOrder(q - j, k - 1 - j, n);
    if q < k - 1 {
      FlatAt(d, leaf, j, k - 1, n, q, w);
    }
  }

  lemma MulOrder(a: int, b: int, n: nat)
    ensures a <= b ==> a * n <= b * n
    ensures a < b ==> a * n + n <= b * n
    ensures 0 <= a ==> 0 <= a * n
  {
    if a < b {
      assert (a + 1) * n == a * n + n;
      assert (b - a - 1) * n >= 0;
    }
  }

  lemma Associate(x: int, granularity: int)
    ensures SECTOR_WORDS * (x * granularity) == x * (SECTOR_WORDS * granularity)
  {
  }

  /** The words of grain y, by number, against a run of m grains from grain x. */
  lemma GrainAddress(x: int, m: int, y: int, w: int, granularity: int)
    requires granularity > 0 && 0 <= w < SECTOR_WORDS * granularity
    ensures var n := SECTOR_WORDS * granularity; var a := SECTOR_WORDS * (y * granularity) + w; var lo := SECTOR_WORDS * (x * granularity);
      (x <= y < x + m <==> lo <= a < lo + m * n) && a - lo == (y - x) * n + w
  {
    var n := SECTOR_WORDS * granularity;
    Associate(x, granularity);
    Associate(y, granularity);
    MulOrder(y, x, n);
    MulOrder(x, y, n);
    MulOrder(x + m, y, n);
    MulOrder(y, x + m, n);
    assert (y - x) * n == y * n - x * n;
    assert (x + m) * n == x * n + m * n;
  }

  /** The entries j to k of root entry i are set. */
  ghost predicate AllSet(leaf: seq<int>, j: int, k: int)
  {
    0 <= j <= k <= |leaf| && forall q :: j <= q < k ==> leaf[q] != 0
  }

  /** A part of the write of a run changes only grains of the run, and each word of those to log 1's. */
  lemma TornRun(d: Disk, leaf: seq<int>, i: int, j: int, k: int, granularity: int, b: Disk, t: Disk, g: Grain, w: int)
    requires granularity > 0 && 0 <= i && AllSet(leaf, j, k) && |leaf| == LEAF_ENTRIES && IsGrain(g, g.root + 1) && 0 <= w < SECTOR_WORDS * granularity
    requires Torn(b, PutBlock(b, SectorOf(Grain(i, j), granularity), Flat(d, leaf, j, k, SECTOR_WORDS * granularity)), t)
    ensures var a := At(t, SectorOf(g, granularity), w); var a0 := At(b, SectorOf(g, granularity), w);
      if g.root == i && j <= g.pos < k then a == a0 || a == At(d, leaf[g.pos], w) else a == a0
    ensures (t == PutBlock(b, SectorOf(Grain(i, j), granularity), Flat(d, leaf, j, k, SECTOR_WORDS * granularity)) && g.root == i && j <= g.pos < k) ==>
      At(t, SectorOf(g, granularity), w) == At(d, leaf[g.pos], w)
  {
    hide Flat;
    var n := SECTOR_WORDS * granularity;
    var x := i * LEAF_ENTRIES + j;
    var y := g.root * LEAF_ENTRIES + g.pos;
    var flat := Flat(d, leaf, j, k, n);
    GrainAddress(x, k - j, y, w, granularity);
    FlatSize(d, leaf, j, k, n);
    assert x <= y < x + (k - j) <==> g.root == i && j <= g.pos < k;
    if g.root == i && j <= g.pos < k {
      assert y - x == g.pos - j;
      FlatAt(d, leaf, j, k, n, g.pos, w);
    }
  }

  /** What the run's write leaves of the other grains, and puts in its own. */
  lemma RunWritten(d: Disk, rootOffset: int, roots: seq<int>, leaf: seq<int>, i: int, j: int, k: int, granularity: int, b: Disk, g: Grain)
    requires granularity > 0 && LeafIs(d, rootOffset, roots, leaf, i) && AllSet(leaf, j, k) && IsGrain(g, |roots|)
    ensures var b' := PutBlock(b, SectorOf(Grain(i, j), granularity), Flat(d, leaf, j, k, SECTOR_WORDS * granularity));
      InBaseFile(b', g, granularity) == if g.root == i && j <= g.pos < k then View(d, rootOffset, granularity, b, g) else InBaseFile(b, g, granularity)
  {
    hide Flat, At, PutBlock, SectorOf, Torn;
    var n := SECTOR_WORDS * granularity;
    var b' := PutBlock(b, SectorOf(Grain(i, j), granularity), Flat(d, leaf, j, k, n));
    TornWhole(b, b', SectorOf(Grain(i, j), granularity), Flat(d, leaf, j, k, n));
    forall w | 0 <= w < n
      ensures At(b', SectorOf(g, granularity), w)
        == if g.root == i && j <= g.pos < k then At(d, leaf[g.pos], w) else At(b, SectorOf(g, granularity), w)
    {
      TornRun(d, leaf, i, j, k, granularity, b, b', g, w);
    }
  }

  lemma TornWhole(b: Disk, b': Disk, sector: int, words: seq<int>)
    requires b' == PutBlock(b, sector, words)
    ensures Torn(b, b', b')
  {
  }

  /** The block read from log 1 is the leaf block of root entry i. */
  ghost predicate LeafIs(d: Disk, rootOffset: int, roots: seq<int>, leaf: seq<int>, i: int)
  {
    && 0 <= i < |roots| && |leaf| == LEAF_ENTRIES && roots[i] != 0 && At(d, rootOffset, i) == roots[i]
    && forall p :: 0 <= p < LEAF_ENTRIES ==> leaf[p] == At(d, roots[i], p)
  }

  /** Any part of the write of a run leaves the view as it was. */
  lemma RunHarmless(d: Disk, rootOffset: int, roots: seq<int>, leaf: seq<int>, i: int, j: int, k: int, granularity: int, b: Disk, t: Disk)
    requires granularity > 0 && LeafIs(d, rootOffset, roots, leaf, i) && AllSet(leaf, j, k)
    requires Torn(b, PutBlock(b, SectorOf(Grain(i, j), granularity), Flat(d, leaf, j, k, SECTOR_WORDS * granularity)), t)
    ensures SameView(d, rootOffset, |roots|, granularity, b, t)
  {
    hide Flat, At, PutBlock, SectorOf, Torn;
    forall g | IsGrain(g, |roots|) ensures View(d, rootOffset, granularity, t, g) == View(d, rootOffset, granularity, b, g) {
      if !(g.root == i && j <= g.pos < k) {
        forall w | 0 <= w < SECTOR_WORDS * granularity ensures At(t, SectorOf(g, granularity), w) == At(b, SectorOf(g, granularity), w) {
          TornRun(d, leaf, i, j, k, granularity, b, t, g, w);
        }
        assert InBaseFile(t, g, granularity) == InBaseFile(b, g, granularity);
      }
    }
  }

  // ----- the commit

  /** The base disk's file; images records it before the commit and after each write. */
  class BaseFile {
    var disk: Disk
    ghost var images: seq<Disk>

    constructor (d: Disk)
      ensures disk == d && images == [d]
    {
      disk, images := d, [d];
    }

    method Write(sector: int, words: seq<int>)
      modifies this
      ensures disk == PutBlock(old(disk), sector, words) && images == old(images) + [disk]
    {
      disk := PutBlock(disk, sector, words);
      images := images + [disk];
    }
  }

  /** Every write from the first image on, torn anywhere, shows the disk b0 shows. */
  ghost predicate Steady(d: Disk, rootOffset: int, roots: int, granularity: int, b0: Disk, images: seq<Disk>)
    requires granularity > 0
  {
    forall m, t :: 0 <= m < |images| - 1 && Torn(images[m], images[m + 1], t) ==> SameView(d, rootOffset, roots, granularity, b0, t)
  }

  /** Entries that follow each other by one sector are of grains of one sector. */
  ghost predicate Spaced(leaf: seq<int>, granularity: int)
  {
    && |leaf| == LEAF_ENTRIES
    && (forall q :: 0 <= q < |leaf| ==> leaf[q] >= 0)
    && (forall q :: 0 < q < |leaf| && leaf[q - 1] != 0 && leaf[q] == leaf[q - 1] + 1 ==> granularity == 1)
  }

  lemma SoundSpaced(d: Disk, rootOffset: int, roots: seq<int>, free: int, granularity: int, ext: map<int, Use>, finished: set<int>, leaf: seq<int>, i: int)
    requires Sound(d, rootOffset, roots, free, granularity, ext, finished) && LeafIs(d, rootOffset, roots, leaf, i)
    ensures Spaced(leaf, granularity)
  {
    hide At, RootsOk, FinishedOk;
    forall q | 0 <= q < |leaf| ensures EntryOk(leaf[q], Grain(i, q), ext, finished) {
      assert EntryOk(At(d, roots[i], q), Grain(i, q), ext, finished);
    }
    forall q | 0 < q < |leaf| && leaf[q - 1] != 0 && leaf[q] == leaf[q - 1] + 1 ensures granularity == 1 {
      var a := leaf[q - 1];
      assert a in ext && ext[a] == GrainOf(Grain(i, q - 1)) && leaf[q] in ext;
    }
  }

  /** Grains that lie one after the other in the log are read at once. */
  lemma {:induction false} OneRead(d: Disk, leaf: seq<int>, j: int, k: int, l: int, n: nat)
    requires 0 <= j <= k < l <= |leaf| && (l > k + 1 ==> n == SECTOR_WORDS)
    requires forall q :: k < q < l ==> leaf[q] == leaf[q - 1] + 1
    ensures (l - k) * n >= 0
    ensures Flat(d, leaf, j, k, n) + Words(d, leaf[k], (l - k) * n) == Flat(d, leaf, j, l, n)
    ensures leaf[l - 1] == leaf[k] + (l - 1 - k)
    decreases l - k
  {
    hide Words;
    if l > k + 1 {
      OneRead(d, leaf, j, k, l - 1, n);
      WordsJoin(d, leaf[k], l - 1 - k);
      var front := Words(d, leaf[k], (l - 1 - k) * n);
      var last := Words(d, leaf[l - 1], n);
      assert Words(d, leaf[k], (l - k) * n) == front + last;
      Regroup(Flat(d, leaf, j, k, n), front, last);
    } else {
      assert (l - k) * n == n;
    }
  }

  lemma Regroup(a: seq<int>, b: seq<int>, c: seq<int>)
    ensures a + (b + c) == (a + b) + c
  {
  }

  /** m sectors, then one more. */
  lemma WordsJoin(d: Disk, sector: int, m: nat)
    ensures Words(d, sector, (m + 1) * SECTOR_WORDS) == Words(d, sector, m * SECTOR_WORDS) + Words(d, sector + m, SECTOR_WORDS)
  {
    var whole := Words(d, sector, (m + 1) * SECTOR_WORDS);
    var parts := Words(d, sector, m * SECTOR_WORDS) + Words(d, sector + m, SECTOR_WORDS);
    forall w | 0 <= w < |whole| ensures whole[w] == parts[w] {
      if w >= m * SECTOR_WORDS {
        assert parts[w] == At(d, sector + m, w - m * SECTOR_WORDS);
      }
    }
  }

  /** The grains from entry j on, until one is unset, the block ends or COW_COMMIT_SECTORS are read. */
  method ReadRun(d: Disk, leaf: seq<int>, j: int, granularity: int) returns (k: int, buf: seq<int>)
    requires 0 <= j < |leaf| && leaf[j] != 0 && granularity > 0 && Spaced(leaf, granularity)
    ensures j < k <= j + COMMIT_SECTORS && AllSet(leaf, j, k) && buf == Flat(d, leaf, j, k, SECTOR_WORDS * granularity)
    ensures k == j + COMMIT_SECTORS || k == |leaf| || leaf[k] == 0
  {
    hide Words;
    k, buf := j, [];
    while k < LEAF_ENTRIES && k - j < COMMIT_SECTORS
      invariant j <= k <= |leaf| && k - j <= COMMIT_SECTORS && AllSet(leaf, j, k)
      invariant buf == Flat(d, leaf, j, k, SECTOR_WORDS * granularity)
      decreases LEAF_ENTRIES - k
    {
      if leaf[k] == 0 {
        break;
      }
      var l := k + 1;
      while l < LEAF_ENTRIES && l - j < COMMIT_SECTORS
        invariant k < l <= LEAF_ENTRIES && l - j <= COMMIT_SECTORS
        invariant forall q :: k < q < l ==> leaf[q] == leaf[q - 1] + 1
        invariant AllSet(leaf, j, l)
        invariant l > k + 1 ==> granularity == 1
      {
        if leaf[l] != leaf[l - 1] + 1 {
          break;
        }
        l := l + 1;
      }
      OneRead(d, leaf, j, k, l, SECTOR_WORDS * granularity);
      buf := buf + Words(d, leaf[k], (l - k) * (SECTOR_WORDS * granularity));
      k := l;
    }
  }

  /** The base with the grains copied of root entries lo to i, and of the first j of entry i. */
  ghost predicate Partly(d: Disk, rootOffset: int, roots: int, granularity: int, b0: Disk, b: Disk, lo: int, i: int, j: int)
    requires granularity > 0
  {
    forall g :: IsGrain(g, roots) ==>
      InBaseFile(b, g, granularity) == if (lo <= g.root < i) || (g.root == i && g.pos < j) then View(d, rootOffset, granularity, b0, g) else InBaseFile(b0, g, granularity)
  }

  lemma LeafView(d: Disk, rootOffset: int, roots: seq<int>, leaf: seq<int>, i: int, granularity: int, b: Disk, b0: Disk, g: Grain)
    requires granularity > 0 && LeafIs(d, rootOffset, roots, leaf, i) && IsGrain(g, |roots|) && g.root == i
    ensures leaf[g.pos] != 0 ==> View(d, rootOffset, granularity, b, g) == View(d, rootOffset, granularity, b0, g)
    ensures leaf[g.pos] == 0 ==> View(d, rootOffset, granularity, b, g) == InBaseFile(b, g, granularity)
  {
    hide At, InBaseFile;
  }

  lemma PartlySkip(d: Disk, rootOffset: int, roots: seq<int>, leaf: seq<int>, granularity: int, b0: Disk, b: Disk, lo: int, i: int, j: int)
    requires granularity > 0 && LeafIs(d, rootOffset, roots, leaf, i) && 0 <= j < LEAF_ENTRIES && leaf[j] == 0
    requires Partly(d, rootOffset, |roots|, granularity, b0, b, lo, i, j)
    ensures Partly(d, rootOffset, |roots|, granularity, b0, b, lo, i, j + 1)
  {
    hide At, InBaseFile, View;
    forall g | IsGrain(g, |roots|) && g.root == i && g.pos == j
      ensures View(d, rootOffset, granularity, b0, g) == InBaseFile(b0, g, granularity)
    {
      LeafView(d, rootOffset, roots, leaf, i, granularity, b0, b0, g);
    }
  }

  lemma PartlyRun(d: Disk, rootOffset: int, roots: seq<int>, leaf: seq<int>, granularity: int, b0: Disk, b: Disk, b': Disk, lo: int, i: int, j: int, k: int)
    requires granularity > 0 && lo <= i && LeafIs(d, rootOffset, roots, leaf, i) && AllSet(leaf, j, k)
    requires b' == PutBlock(b, SectorOf(Grain(i, j), granularity), Flat(d, leaf, j, k, SECTOR_WORDS * granularity))
    requires Partly(d, rootOffset, |roots|, granularity, b0, b, lo, i, j)
    ensures Partly(d, rootOffset, |roots|, granularity, b0, b', lo, i, k)
  {
    hide At, InBaseFile, View, Flat, PutBlock, SectorOf;
    forall g | IsGrain(g, |roots|)
      ensures InBaseFile(b', g, granularity)
        == if (lo <= g.root < i) || (g.root == i && g.pos < k) then View(d, rootOffset, granularity, b0, g) else InBaseFile(b0, g, granularity)
    {
      RunWritten(d, rootOffset, roots, leaf, i, j, k, granularity, b, g);
      if g.root == i {
        LeafView(d, rootOffset, roots, leaf, i, granularity, b, b0, g);
      }
    }
  }

  lemma SteadyMore(d: Disk, rootOffset: int, roots: int, granularity: int, b0: Disk, images: seq<Disk>, b': Disk)
    requires granularity > 0 && Steady(d, rootOffset, roots, granularity, b0, images) && images != []
    requires forall t :: Torn(images[|images| - 1], b', t) ==> SameView(d, rootOffset, roots, granularity, b0, t)
    ensures Steady(d, rootOffset, roots, granularity, b0, images + [b'])
  {
    hide Torn, SameView;
    var all := images + [b'];
    forall m, t | 0 <= m < |all| - 1 && Torn(all[m], all[m + 1], t) ensures SameView(d, rootOffset, roots, granularity, b0, t) {
      if m < |images| - 1 {
        assert Torn(images[m], images[m + 1], t);
      }
    }
  }

  lemma PartlyView(d: Disk, rootOffset: int, roots: int, granularity: int, b0: Disk, b: Disk, lo: int, i: int, j: int)
    requires granularity > 0 && Partly(d, rootOffset, roots, granularity, b0, b, lo, i, j)
    ensures SameView(d, rootOffset, roots, granularity, b0, b)
  {
    hide Resolve, InBaseFile;
  }

  lemma RunSteady(d: Disk, rootOffset: int, roots: seq<int>, leaf: seq<int>, i: int, j: int, k: int, granularity: int, b0: Disk, b: Disk, images: seq<Disk>)
    requires granularity > 0 && LeafIs(d, rootOffset, roots, leaf, i) && AllSet(leaf, j, k) && SameView(d, rootOffset, |roots|, granularity, b0, b)
    requires Steady(d, rootOffset, |roots|, granularity, b0, images) && images != [] && images[|images| - 1] == b
    ensures var b' := PutBlock(b, SectorOf(Grain(i, j), granularity), Flat(d, leaf, j, k, SECTOR_WORDS * granularity));
      Steady(d, rootOffset, |roots|, granularity, b0, images + [b'])
  {
    hide Torn, Flat, PutBlock, SectorOf, View, Steady, LeafIs;
    var b' := PutBlock(b, SectorOf(Grain(i, j), granularity), Flat(d, leaf, j, k, SECTOR_WORDS * granularity));
    forall t | Torn(b, b', t) ensures SameView(d, rootOffset, |roots|, granularity, b0, t) {
      RunHarmless(d, rootOffset, roots, leaf, i, j, k, granularity, b, t);
    }
    SteadyMore(d, rootOffset, |roots|, granularity, b0, images, b');
  }

  /** One leaf block of log 1 copied into the base. */
  method CommitLeaf(d: Disk, rootOffset: int, roots: seq<int>, granularity: int, leaf: seq<int>, i: int, base: BaseFile, ghost b0: Disk, ghost lo: int)
    requires granularity > 0 && lo <= i && LeafIs(d, rootOffset, roots, leaf, i) && Spaced(leaf, granularity)
    requires Partly(d, rootOffset, |roots|, granularity, b0, base.disk, lo, i, 0)
    requires Steady(d, rootOffset, |roots|, granularity, b0, base.images) && base.images != [] && base.images[|base.images| - 1] == base.disk
    modifies base
    ensures Partly(d, rootOffset, |roots|, granularity, b0, base.disk, lo, i, LEAF_ENTRIES)
    ensures Steady(d, rootOffset, |roots|, granularity, b0, base.images) && base.images != [] && base.images[|base.images| - 1] == base.disk
    ensures base.images[0] == old(base.images)[0]
  {
    hide LeafIs, Spaced, Partly, Steady, SectorOf, PutBlock, Flat, Torn;
    var j := 0;
    assert |leaf| == LEAF_ENTRIES by { LeafSize(d, rootOffset, roots, leaf, i); }
    while j < LEAF_ENTRIES
      invariant 0 <= j <= LEAF_ENTRIES
      invariant Partly(d, rootOffset, |roots|, granularity, b0, base.disk, lo, i, j)
      invariant Steady(d, rootOffset, |roots|, granularity, b0, base.images) && base.images != [] && base.images[|base.images| - 1] == base.disk
      invariant base.images[0] == old(base.images)[0]
    {
      if leaf[j] == 0 {
        PartlySkip(d, rootOffset, roots, leaf, granularity, b0, base.disk, lo, i, j);
        j := j + 1;
      } else {
        var k, buf := ReadRun(d, leaf, j, granularity);
        PartlyView(d, rootOffset, |roots|, granularity, b0, base.disk, lo, i, j);
        RunSteady(d, rootOffset, roots, leaf, i, j, k, granularity, b0, base.disk, base.images);
        ghost var b := base.disk;
        base.Write(SectorOf(Grain(i, j), granularity), buf);
        PartlyRun(d, rootOffset, roots, leaf, granularity, b0, b, base.disk, lo, i, j, k);
        j := k;
      }
    }
  }

  lemma LeafSize(d: Disk, rootOffset: int, roots: seq<int>, leaf: seq<int>, i: int)
    requires LeafIs(d, rootOffset, roots, leaf, i)
    ensures |leaf| == LEAF_ENTRIES
  {
  }

  lemma PartlyNext(d: Disk, rootOffset: int, roots: seq<int>, granularity: int, b0: Disk, b: Disk, lo: int, i: int)
    requires granularity > 0 && lo <= i < |roots|
    requires Partly(d, rootOffset, |roots|, granularity, b0, b, lo, i, LEAF_ENTRIES)
      || (At(d, rootOffset, i) == 0 && Partly(d, rootOffset, |roots|, granularity, b0, b, lo, i, 0))
    ensures Partly(d, rootOffset, |roots|, granularity, b0, b, lo, i + 1, 0)
  {
    hide InBaseFile, At;
  }

  /** Log 1's root entries from startFraction to endFraction thousandths copied into the base: the base then
      holds what the two levels showed there, and every write on the way, torn or whole, leaves the view. */
  method Commit(d: Disk, rootOffset: int, roots: seq<int>, granularity: int, startFraction: int, endFraction: int, base: BaseFile,
      ghost free: int, ghost ext: map<int, Use>, ghost finished: set<int>)
    requires 0 <= startFraction <= endFraction <= MAX_COMMIT_FRACTION && base.images == [base.disk]
    requires granularity > 0 && Sound(d, rootOffset, roots, free, granularity, ext, finished)
    modifies base
    ensures Committed(d, rootOffset, |roots|, granularity, old(base.disk), base.disk,
      |roots| * startFraction / MAX_COMMIT_FRACTION, |roots| * endFraction / MAX_COMMIT_FRACTION)
    ensures Steady(d, rootOffset, |roots|, granularity, old(base.disk), base.images)
    ensures base.images != [] && base.images[0] == old(base.disk) && base.images[|base.images| - 1] == base.disk
  {
    hide Sound, LeafIs, Spaced, Partly, Steady, Torn, Words, At, Committed;
    var start := |roots| * startFraction / MAX_COMMIT_FRACTION;
    var end := |roots| * endFraction / MAX_COMMIT_FRACTION;
    assert 0 <= start <= end <= |roots| by { FractionRange(|roots|, startFraction, endFraction); }
    ghost var b0 := base.disk;
    assert Partly(d, rootOffset, |roots|, granularity, b0, b0, start, start, 0) && Steady(d, rootOffset, |roots|, granularity, b0, [b0]) by {
      NothingYet(d, rootOffset, |roots|, granularity, b0, start);
    }
    for i := start to end
      invariant Partly(d, rootOffset, |roots|, granularity, b0, base.disk, start, i, 0)
      invariant Steady(d, rootOffset, |roots|, granularity, b0, base.images) && base.images != []
      invariant base.images[0] == b0 && base.images[|base.images| - 1] == base.disk
    {
      SoundRoots1(d, rootOffset, roots, free, granularity, ext, finished, i);
      if roots[i] != 0 {
        var leafEntry := Words(d, roots[i], LEAF_ENTRIES);
        LeafRead(d, rootOffset, roots, leafEntry, i);
        SoundSpaced(d, rootOffset, roots, free, granularity, ext, finished, leafEntry, i);
        CommitLeaf(d, rootOffset, roots, granularity, leafEntry, i, base, b0, start);
      }
      PartlyNext(d, rootOffset, roots, granularity, b0, base.disk, start, i);
    }
    assert Committed(d, rootOffset, |roots|, granularity, b0, base.disk, start, end) by {
      PartlyAll(d, rootOffset, |roots|, granularity, b0, base.disk, start, end);
    }
  }

  lemma FractionRange(roots: nat, a: int, b: int)
    requires 0 <= a <= b <= MAX_COMMIT_FRACTION
    ensures 0 <= roots * a / MAX_COMMIT_FRACTION <= roots * b / MAX_COMMIT_FRACTION <= roots
  {
    MulOrder(a, b, roots);
    MulOrder(b, MAX_COMMIT_FRACTION, roots);
  }

  /** The whole range of fractions is the whole root table. */
  lemma WholeRange(roots: nat)
    ensures roots * 0 / MAX_COMMIT_FRACTION == 0 && roots * MAX_COMMIT_FRACTION / MAX_COMMIT_FRACTION == roots
  {
  }

  lemma NothingYet(d: Disk, rootOffset: int, roots: int, granularity: int, b: Disk, lo: int)
    requires granularity > 0
    ensures Partly(d, rootOffset, roots, granularity, b, b, lo, lo, 0) && Steady(d, rootOffset, roots, granularity, b, [b])
  {
    hide InBaseFile, View;
  }

  lemma PartlyAll(d: Disk, rootOffset: int, roots: int, granularity: int, b0: Disk, b: Disk, lo: int, hi: int)
    requires granularity > 0 && Partly(d, rootOffset, roots, granularity, b0, b, lo, hi, 0)
    ensures Committed(d, rootOffset, roots, granularity, b0, b, lo, hi)
  {
    hide InBaseFile, View;
  }

  lemma SoundRoots1(d: Disk, rootOffset: int, roots: seq<int>, free: int, granularity: int, ext: map<int, Use>, finished: set<int>, i: int)
    requires Sound(d, rootOffset, roots, free, granularity, ext, finished) && 0 <= i < |roots|
    ensures At(d, rootOffset, i) == roots[i]
  {
    hide At;
  }

  lemma LeafRead(d: Disk, rootOffset: int, roots: seq<int>, leaf: seq<int>, i: int)
    requires 0 <= i < |roots| && roots[i] != 0 && At(d, rootOffset, i) == roots[i] && leaf == Words(d, roots[i], LEAF_ENTRIES)
    ensures LeafIs(d, rootOffset, roots, leaf, i)
  {
  }
}
