/** Runs from mkfs that end badly, on the smallest device and log that mkfs accepts (src/famfs_alloc.c). */
module Incidents {
  import opened Common
  import opened Meta
  import opened Units
  import opened Rebuild
  import opened Buckets
  import opened Strided
  import opened BucketFits
  import opened FileAlloc
  import opened Sessions

  const LOG_LEN := 0x80_0000

  /** Four GiB in units of two MiB. */
  const D := Device(FAMFS_ALLOC_UNIT, 2048 * FAMFS_ALLOC_UNIT, 2048, 2056)

  lemma Formattable()
    ensures Mkfs(D, LOG_LEN) && D.cap == Capacity(D.nbits)
  {
    CeilDivUnique(D.size, D.unit, 2048);
    CeilDivUnique(FAMFS_SUPERBLOCK_SIZE + LOG_LEN, D.unit, 5);
    hide CeilDiv;
    assert Regions(LOG_LEN, []) == [Extent(0, 0, FAMFS_SUPERBLOCK_SIZE + LOG_LEN)];
  }

  // ---------- contiguous creations, on devices that start with five units for superblock and log ----------

  ghost predicate Suits(d: Device, logLen: nat) {
    Mkfs(d, logLen) && CeilDiv(FAMFS_SUPERBLOCK_SIZE + logLen, d.unit) == 5 && d.nbits > 5
  }

  lemma SuitsIsShaped(d: Device, logLen: nat)
    requires Suits(d, logLen)
    ensures Shaped(d)
  {
    hide InDevice, CeilDiv;
  }

  /** A contiguous creation of `n` units. */
  function Contig(d: Device, n: nat): Event {
    Create(FileMeta("f", n * d.unit, 0, 0, 0, 0, Simple([])), Param(0, 0, 0), [], true)
  }

  lemma ContigMeta(d: Device, n: nat)
    ensures Contig(d, n).Create? && Contig(d, n).fm == FileMeta("f", n * d.unit, 0, 0, 0, 0, Simple([]))
  {
  }

  lemma ContigEnabled(d: Device, n: nat)
    ensures Enabled(Contig(d, n))
  {
    assert Iota(0, 0) == [];
  }

  /** With the first `a` units in use and the cursor at unit `c` among them, `n` units are given from unit `a` on. */
  lemma FromFront(d: Device, a: nat, c: nat, n: nat)
    requires Shaped(d) && c <= a < d.nbits && 0 < n && a + n <= c + d.nbits
    ensures Contiguous(d, Span(0, a), c * d.unit, n * d.unit) ==
      if a + n > d.cap then Stopped(OutsideBitmap)
      else Granted(Simple([Extent(0, a * d.unit, n * d.unit)]), Span(0, a + n), (a + n) * d.unit)
  {
    UnitMultiple(d.unit, c);
    UnitMultiple(d.unit, n);
    var used := Span(0, a);
    assert Free(used, a, n);
    OpenScan(used, d.nbits, c + d.nbits, n, c);
    hide Scan, CeilDiv;
    var r := FirstFit(used, d.nbits, c, d.nbits, n);
    assert r == a by {
      assert r == -1 || (c <= r && Free(used, r, n));
      assert r != -1 ==> r !in used;
    }
    assert used + Span(a, n) == Span(0, a + n);
  }

  lemma FrontUnits(d: Device, len: nat)
    requires d.unit > 0
    ensures UnitsOf(d.unit, Extent(0, 0, len)) == Span(0, CeilDiv(len, d.unit))
  {
    UnitMultiple(d.unit, 0);
    hide CeilDiv, Span;
  }

  lemma FreshBitmap(d: Device, logLen: nat)
    requires Suits(d, logLen)
    ensures Current(d, logLen, Formatted) == Memory(Span(0, 5), 0)
  {
    hide CeilDiv, Span, MarkAll, InDevice, UnitsOf;
    var rs := Regions(logLen, []);
    assert rs == [Extent(0, 0, FAMFS_SUPERBLOCK_SIZE + logLen)];
    MarkAllUsed(d.unit, Blank, rs);
    FrontUnits(d, FAMFS_SUPERBLOCK_SIZE + logLen);
    assert UnitsOf(d.unit, rs[0]) == Span(0, 5);
    assert forall k :: k in MarkAll(d.unit, Blank, rs).used <==> k in Span(0, 5);
  }

  /** The log and the session after a first creation of `n` units. */
  ghost function AfterOne(d: Device, n: nat): Disk {
    var fm := Contig(d, n).fm.(fmap := Simple([Extent(0, 5 * d.unit, n * d.unit)]));
    Disk([Slot(LogFile(fm), true)], Some(Memory(Span(0, 5 + n), (5 + n) * d.unit)), true)
  }

  lemma CreateOne(d: Device, logLen: nat, n: nat)
    requires Suits(d, logLen) && 0 < n && 5 + n <= d.nbits
    ensures After(d, logLen, Formatted, [Contig(d, n)]) == AfterOne(d, n)
  {
    hide Contiguous, Span, Current, After, Mkfs;
    FreshBitmap(d, logLen);
    SuitsIsShaped(d, logLen);
    FromFront(d, 5, 0, n);
    var es := [Contig(d, n)];
    LastStep(d, logLen, es);
    assert es[..0] == [];
    NoStep(d, logLen);
    assert Reply(d, logLen, Formatted, es[0]) == Contiguous(d, Span(0, 5), 0 * d.unit, n * d.unit);
  }

  lemma CreateTwo(d: Device, logLen: nat, n: nat, m: nat)
    requires Suits(d, logLen) && 0 < n && 5 + n < d.nbits && 0 < m <= d.nbits
    ensures Reply(d, logLen, AfterOne(d, n), Contig(d, m)) ==
      if 5 + n + m > d.cap then Stopped(OutsideBitmap)
      else Granted(Simple([Extent(0, (5 + n) * d.unit, m * d.unit)]), Span(0, 5 + n + m), (5 + n + m) * d.unit)
  {
    hide Contiguous, Span, Rebuilt, Mkfs;
    SuitsIsShaped(d, logLen);
    FromFront(d, 5 + n, 5 + n, m);
  }

  lemma LastStep(d: Device, logLen: nat, es: seq<Event>)
    requires d.unit > 0 && es != []
    ensures After(d, logLen, Formatted, es) ==
      Next(d, logLen, After(d, logLen, Formatted, es[..|es| - 1]), es[|es| - 1])
  {
    hide Next;
  }

  lemma NoStep(d: Device, logLen: nat)
    requires d.unit > 0
    ensures After(d, logLen, Formatted, []) == Formatted
  {
    hide Next;
  }

  /** The second extent of the log ends past the device if the two files do. */
  lemma LogsPast(d: Device, logLen: nat, log: seq<Slot>, n: nat, m: nat)
    requires Suits(d, logLen) && 5 + n + m > d.nbits
    requires |log| == 2 && log[1].valid && log[1].entry.LogFile?
    requires log[1].entry.fm.fmap == Simple([Extent(0, (5 + n) * d.unit, m * d.unit)])
    ensures !InDevice(d.unit, d.nbits, Regions(logLen, log))
  {
    var e := Extent(0, (5 + n) * d.unit, m * d.unit);
    assert e in SlotExtents(log[1]);
    SlotInLog(log, 1, e);
    UnitMultiple(d.unit, 5 + n);
    UnitMultiple(d.unit, m);
    hide CeilDiv, LogExtents;
  }

  lemma TwoContigs(d: Device, logLen: nat, n: nat, m: nat)
    requires Suits(d, logLen) && 0 < n && 5 + n < d.nbits < 5 + n + m <= d.cap && 0 < m <= d.nbits
    ensures var es := [Contig(d, n), Contig(d, m)];
      IsRun(es) && !InDevice(d.unit, d.nbits, Regions(logLen, After(d, logLen, Formatted, es).log))
  {
    hide After, Span, Enabled, Mkfs, Reply, InDevice, Regions;
    SuitsIsShaped(d, logLen);
    var es := [Contig(d, n), Contig(d, m)];
    ContigEnabled(d, n);
    ContigEnabled(d, m);
    CreateOne(d, logLen, n);
    CreateTwo(d, logLen, n, m);
    assert es[..1] == [Contig(d, n)];
    LastStep(d, logLen, es);
    LogsPast(d, logLen, Next(d, logLen, AfterOne(d, n), es[1]).log, n, m);
  }

  lemma TwoOutside(d: Device, logLen: nat, n: nat, m: nat)
    requires Suits(d, logLen) && 0 < n && 5 + n < d.nbits <= d.cap < 5 + n + m && m <= d.nbits
    ensures IsRun([Contig(d, n), Contig(d, m)])
    ensures Reply(d, logLen, After(d, logLen, Formatted, [Contig(d, n)]), Contig(d, m)) == Stopped(OutsideBitmap)
  {
    hide After, Span, Enabled, Mkfs, Reply;
    SuitsIsShaped(d, logLen);
    ContigEnabled(d, n);
    ContigEnabled(d, m);
    CreateOne(d, logLen, n);
    CreateTwo(d, logLen, n, m);
  }

  lemma SmallSuits()
    ensures Suits(D, LOG_LEN)
  {
    Formattable();
    CeilDivUnique(FAMFS_SUPERBLOCK_SIZE + LOG_LEN, D.unit, 5);
    hide CeilDiv, Mkfs;
  }

  /** After a creation that leaves two units, one of twenty units reads past the bitmap. */
  lemma OutsideHappens()
    ensures Mkfs(D, LOG_LEN) && IsRun([Contig(D, 2041), Contig(D, 20)])
    ensures Reply(D, LOG_LEN, After(D, LOG_LEN, Formatted, [Contig(D, 2041)]), Contig(D, 20)) ==
            Stopped(OutsideBitmap)
  {
    hide After, Reply, IsRun, Enabled, Contig, AfterOne, Mkfs, Suits, Regions, InDevice, Capacity, Answer, Span;
    Formattable();
    SmallSuits();
    TwoOutside(D, LOG_LEN, 2041, 20);
  }

  /** After a creation that leaves two units, one of four units is logged past the end of the device. */
  lemma PastDeviceHappens()
    ensures var es := [Contig(D, 2041), Contig(D, 4)];
      && Mkfs(D, LOG_LEN) && IsRun(es)
      && !InDevice(D.unit, D.nbits, Regions(LOG_LEN, After(D, LOG_LEN, Formatted, es).log))
  {
    hide After, Reply, IsRun, Enabled, Contig, AfterOne, Mkfs, Suits, Regions, InDevice, Capacity, Answer, Span;
    Formattable();
    SmallSuits();
    TwoContigs(D, LOG_LEN, 2041, 4);
  }

  // ---------- a strided creation ----------

  const TwoStrips := Param(2, 2, FAMFS_ALLOC_UNIT)

  /** Two full buckets, but for the last unit: the first bucket's strip starts there, the second bucket gives none. */
  lemma StripSticksOut(g: Grid, order: seq<nat>)
    requires g.nbits == 2 * g.bucket && 1 < g.n < g.bucket && g.nbits + g.n < U64 && g.nbits - 1 + g.n <= g.cap
    requires order == [0, 1]
    ensures Place(g, Span(0, g.nbits - 1), order, 2) == Placed(Span(0, g.nbits - 1 + g.n), [g.nbits - 1], false)
  {
    var used, last, end, p0 := Span(0, g.nbits - 1), g.nbits - 1, g.bucket, Placed(Span(0, g.nbits - 1), [], false);
    assert order[..1] == [0] && [0][..0] == [];
    assert Place(g, used, [], 2) == p0;
    SearchFront(g, used);
    var p := Placed(used + Span(last, g.n), [last], false);
    assert TryBucket(g, p0, 0) == p;
    SearchBack(g, p.used);
    hide FirstFit, Fits, Walled;
    assert p.used == Span(0, last + g.n);
    assert TryBucket(g, p, 1) == p;
    hide TryBucket;
    assert Place(g, used, [0], 2) == p;
    assert Place(g, used, order, 2) == p;
  }

  lemma TakenNotFree(used: set<int>, k: int, n: nat)
    requires k in used && n > 0
    ensures !Free(used, k, n)
  {
  }

  lemma SearchFront(g: Grid, used: set<int>)
    requires g.nbits == 2 * g.bucket && 1 < g.n < g.bucket && g.nbits + g.n < U64 && used == Span(0, g.nbits - 1)
    ensures FirstFit(used, g.nbits, 0, g.bucket, g.n) == g.nbits - 1
  {
    forall k | 0 <= k <= g.bucket
      ensures k in used && !Free(used, k, g.n)
    {
      TakenNotFree(used, k, g.n);
    }
    assert Free(used, g.nbits - 1, g.n) && Walled(used, 0, g.bucket, g.n);
    assert !Fits(used, 0, g.bucket, g.n);
    WindowWalled(used, g.nbits, g.bucket, g.n, 0);
    PastWindow(used, g.nbits, g.bucket, g.n, g.bucket + 1);
  }

  lemma SearchBack(g: Grid, used: set<int>)
    requires g.nbits == 2 * g.bucket && 0 < g.n && g.nbits + g.n < U64
    requires used == Span(0, g.nbits - 1) + Span(g.nbits - 1, g.n)
    ensures FirstFit(used, g.nbits, g.bucket, g.bucket, g.n) == -1
  {
    EscapeExact(used, g.nbits, g.bucket, g.bucket, g.n);
    forall k | g.bucket <= k < g.nbits
      ensures !Free(used, k, g.n)
    {
      TakenNotFree(used, k, g.n);
    }
    assert !Fits(used, g.bucket, g.nbits, g.n);
  }

  lemma TwoStripsAccepted()
    ensures Striping(D, TwoStrips) && GridOf(D, TwoStrips, 6 * D.unit) == Grid(2048, 2056, 1024, 3)
  {
    PowersOfTwo();
    ValidParam(TwoStrips, D.unit, D.size);
    hide ValidateParam;
  }

  /** Giving back the one strip fails the assertion. */
  lemma AbortAnswer(used: set<int>, order: seq<nat>)
    requires used == Span(0, 2047) && order == [0, 1]
    ensures Answer(D, TwoStrips, used, 0, 6 * D.unit, order) == Stopped(AssertionFails)
  {
    TwoStripsAccepted();
    var g := GridOf(D, TwoStrips, 6 * D.unit);
    StripSticksOut(g, order);
    hide Place, ValidateParam, Span, GridOf;
    assert SticksOut(g, Place(g, used, order, 2), 0);
  }

  /** A first creation of `n` units is all that the next session's bitmap has. */
  lemma NextSession(d: Device, logLen: nat, n: nat)
    requires Suits(d, logLen) && 0 < n && 5 + n <= d.nbits
    ensures var es := [Contig(d, n), OpenSession];
      IsRun(es) && Current(d, logLen, After(d, logLen, Formatted, es)) == Memory(Span(0, 5 + n), 0)
  {
    hide After, Span, Rebuilt, Mkfs, Disjoint, InDevice, Enabled;
    SuitsIsShaped(d, logLen);
    var one, es := [Contig(d, n)], [Contig(d, n), OpenSession];
    ContigEnabled(d, n);
    CreateOne(d, logLen, n);
    RunSound(d, logLen, one);
    LastStep(d, logLen, es);
    assert es[..1] == one;
    OpenEnabled();
  }

  lemma OpenEnabled()
    ensures Enabled(OpenSession)
  {
  }

  lemma ReplyIs(d: Device, logLen: nat, s: Disk, e: Event, m: Memory)
    requires d.unit > 0 && e.Create? && Current(d, logLen, s) == m
    ensures Reply(d, logLen, s, e) == Answer(d, e.param, m.used, m.cur, e.fm.size, e.order)
  {
    hide Answer, Current;
  }

  lemma StripedEnabled(fm: FileMeta)
    ensures Enabled(Create(fm, TwoStrips, [0, 1], true))
  {
    assert Iota(0, 2) == [0, 1];
  }

  /** One file that leaves a unit, and in the next session an interleaved one: the rollback's assertion fails. */
  lemma AbortHappens()
    ensures var es := [Contig(D, 2042), OpenSession];
      var e := Create(Contig(D, 6).fm, TwoStrips, [0, 1], true);
      && Mkfs(D, LOG_LEN) && IsRun(es) && Enabled(e)
      && Reply(D, LOG_LEN, After(D, LOG_LEN, Formatted, es), e) == Stopped(AssertionFails)
  {
    hide After, Reply, IsRun, Enabled, Contig, AfterOne, Mkfs, Suits, Regions, InDevice, Capacity, Answer, Span;
    var fm := FileMeta("f", 6 * D.unit, 0, 0, 0, 0, Simple([]));
    assert fm == Contig(D, 6).fm by {
      ContigMeta(D, 6);
    }
    Formattable();
    SmallSuits();
    NextSession(D, LOG_LEN, 2042);
    StripedEnabled(fm);
    AbortAnswer(Span(0, 2047), [0, 1]);
    ReplyIs(D, LOG_LEN, After(D, LOG_LEN, Formatted, [Contig(D, 2042), OpenSession]),
            Create(fm, TwoStrips, [0, 1], true), Memory(Span(0, 2047), 0));
  }
}
