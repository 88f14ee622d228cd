/** Where the bytes of a file live on the device (linux_include/linux/famfs_ioctl.h). */
module Layout {
  import opened Arith
  import opened Units
  import opened Meta
  import opened Strided
  import opened Rebuild
  import opened Sessions
  import opened FileAlloc

  /** Chunks go round the strips: chunk c is in strip c % nstrips, in stripe c / nstrips. */
  function Strip(chunkSize: nat, nstrips: nat, ofs: nat): (r: nat)
    requires chunkSize > 0 && nstrips > 0
    ensures r < nstrips
  {
    ofs / chunkSize % nstrips
  }

  function InStrip(chunkSize: nat, nstrips: nat, ofs: nat): nat
    requires chunkSize > 0 && nstrips > 0
  {
    var stripe: nat := ofs / chunkSize / nstrips;
    MulMonotone(0, stripe, chunkSize);
    stripe * chunkSize + ofs % chunkSize
  }

  /** The device byte behind a file offset, for the maps that files are created with. */
  function DeviceByte(fmap: Fmap, ofs: nat): nat
    requires Mapped(fmap)
  {
    match fmap
    case Simple(exts) => exts[0].offset + ofs
    case Interleaved(chunkSize, strips) =>
      strips[Strip(chunkSize, |strips|, ofs)].offset + InStrip(chunkSize, |strips|, ofs)
  }

  /** The extent that holds the byte. */
  function HomeOf(fmap: Fmap, ofs: nat): (r: nat)
    requires Mapped(fmap)
    ensures r < |Extents(fmap)|
  {
    match fmap
    case Simple(_) => 0
    case Interleaved(chunkSize, strips) => Strip(chunkSize, |strips|, ofs)
  }

  // ---------- the layout, written out ----------

  /** Byte `r` of the chunk of strip `k` in stripe `row` is that byte of the strip's chunk `row`. */
  lemma ChunkAt(chunkSize: nat, strips: seq<Extent>, row: nat, k: nat, r: nat)
    requires chunkSize > 0 && k < |strips| && r < chunkSize
    ensures var c := row * |strips| + k;
      && c >= 0 && c * chunkSize + r >= 0 && row * chunkSize >= 0
      && DeviceByte(Interleaved(chunkSize, strips), c * chunkSize + r) == strips[k].offset + row * chunkSize + r
  {
    var c := row * |strips| + k;
    MulMonotone(0, row, |strips|);
    MulMonotone(0, c, chunkSize);
    MulMonotone(0, row, chunkSize);
    DivModUnique(c * chunkSize + r, c, r, chunkSize);
    DivModUnique(c, row, k, |strips|);
  }

  /** A file with one extent lies there byte for byte. */
  lemma ByteAt(e: Extent, ofs: nat)
    ensures DeviceByte(Simple([e]), ofs) == e.offset + ofs
  {
  }

  // ---------- the map is total, stays in its extent, and is injective ----------

  lemma MulCancels(a: int, b: int, n: nat)
    requires a * n < b * n
    ensures a < b
  {
    if a >= b {
      MulMonotone(b, a, n);
    }
  }

  lemma InStripBound(chunkSize: nat, nstrips: nat, rows: nat, ofs: nat)
    requires chunkSize > 0 && nstrips > 0 && ofs < rows * (nstrips * chunkSize)
    ensures InStrip(chunkSize, nstrips, ofs) < rows * chunkSize
  {
    var c := ofs / chunkSize;
    var row := c / nstrips;
    DivMod(ofs, chunkSize);
    DivMod(c, nstrips);
    MulAssociates(rows, nstrips, chunkSize);
    MulCancels(c, rows * nstrips, chunkSize);
    MulCancels(row, rows, nstrips);
    MulMonotone(row + 1, rows, chunkSize);
    MulDistributes(row, 1, chunkSize);
  }

  lemma InStripInjective(chunkSize: nat, nstrips: nat, x: nat, y: nat)
    requires chunkSize > 0 && nstrips > 0
    requires Strip(chunkSize, nstrips, x) == Strip(chunkSize, nstrips, y)
    requires InStrip(chunkSize, nstrips, x) == InStrip(chunkSize, nstrips, y)
    ensures x == y
  {
    var c, d := x / chunkSize, y / chunkSize;
    DivMod(x, chunkSize);
    DivMod(y, chunkSize);
    DivMod(c, nstrips);
    DivMod(d, nstrips);
    var z := InStrip(chunkSize, nstrips, x);
    DivModUnique(z, c / nstrips, x % chunkSize, chunkSize);
    DivModUnique(z, d / nstrips, y % chunkSize, chunkSize);
  }

  /** Every byte of the file has a place inside one of the file's extents. */
  lemma ByteInExtent(unit: nat, fmap: Fmap, size: nat, ofs: nat)
    requires unit > 0 && Holds(unit, fmap, size) && ofs < size
    ensures var e := Extents(fmap)[HomeOf(fmap, ofs)];
      e.offset % unit == 0 && e.offset <= DeviceByte(fmap, ofs) < e.offset + e.len
  {
    var e := Extents(fmap)[HomeOf(fmap, ofs)];
    assert e in Extents(fmap);
    if fmap.Interleaved? {
      var rows: nat :|
        && size <= rows * (|fmap.strips| * fmap.chunkSize)
        && forall f :: f in fmap.strips ==> f.len == rows * fmap.chunkSize;
      InStripBound(fmap.chunkSize, |fmap.strips|, rows, ofs);
    }
  }

  lemma ByteInUnits(unit: nat, e: Extent, b: nat)
    requires unit > 0 && e.offset % unit == 0 && e.offset <= b < e.offset + e.len
    ensures b / unit in UnitsOf(unit, e)
  {
    var first, n, u := e.offset / unit, CeilDiv(e.len, unit), b / unit;
    DivMod(e.offset, unit);
    DivMod(b, unit);
    CeilDivCovers(e.len, unit);
    MulDistributes(first, n, unit);
    MulCancels(u, first + n, unit);
    MulDistributes(u, 1, unit);
    MulCancels(first, u + 1, unit);
  }

  /** Different offsets of one file are different bytes. */
  lemma InjectiveInFile(unit: nat, fmap: Fmap, size: nat, x: nat, y: nat)
    requires unit > 0 && Holds(unit, fmap, size) && Disjoint(unit, Extents(fmap)) && x < size && y < size
    requires DeviceByte(fmap, x) == DeviceByte(fmap, y)
    ensures x == y
  {
    hide UnitsOf, Strip, InStrip;
    ByteInExtent(unit, fmap, size, x);
    ByteInExtent(unit, fmap, size, y);
    var b, hx, hy := DeviceByte(fmap, x), HomeOf(fmap, x), HomeOf(fmap, y);
    ByteInUnits(unit, Extents(fmap)[hx], b);
    ByteInUnits(unit, Extents(fmap)[hy], b);
    assert hx == hy;
    if fmap.Interleaved? {
      InStripInjective(fmap.chunkSize, |fmap.strips|, x, y);
    }
  }

  // ---------- across the log ----------

  /** Where extent `h` of entry `i` stands among all regions. */
  function RegionIndex(log: seq<Slot>, i: nat, h: nat): nat
    requires i < |log|
  {
    1 + |LogExtents(log[..i])| + h
  }

  lemma RegionAt(logLen: nat, log: seq<Slot>, i: nat, h: nat)
    requires i < |log| && h < |SlotExtents(log[i])|
    ensures RegionIndex(log, i, h) < |Regions(logLen, log)|
    ensures Regions(logLen, log)[RegionIndex(log, i, h)] == SlotExtents(log[i])[h]
  {
    PrefixOfRegions(logLen, log, i + 1);
    RegionsNext(logLen, log, i);
    var upTo := Regions(logLen, log[..i + 1]);
    assert upTo[RegionIndex(log, i, h)] == SlotExtents(log[i])[h];
  }

  lemma {:induction false} PrefixOfRegions(logLen: nat, log: seq<Slot>, i: nat)
    requires i <= |log|
    ensures Regions(logLen, log[..i]) <= Regions(logLen, log)
    decreases |log| - i
  {
    if i == |log| {
      assert log[..i] == log;
    } else {
      RegionsNext(logLen, log, i);
      PrefixOfRegions(logLen, log, i + 1);
    }
  }

  lemma RegionOrder(logLen: nat, log: seq<Slot>, i: nat, h: nat, j: nat)
    requires i < j < |log| && h < |SlotExtents(log[i])|
    ensures RegionIndex(log, i, h) < RegionIndex(log, j, 0)
  {
    RegionsNext(logLen, log, i);
    PrefixOfRegions(logLen, log[..j], i + 1);
    assert log[..j][..i + 1] == log[..i + 1];
  }

  lemma ExtentsDisjoint(unit: nat, logLen: nat, log: seq<Slot>, i: nat, h: nat, j: nat, g: nat)
    requires unit > 0 && Disjoint(unit, Regions(logLen, log)) && i < |log| && j < |log| && (i != j || h != g)
    requires h < |SlotExtents(log[i])| && g < |SlotExtents(log[j])|
    ensures UnitsOf(unit, SlotExtents(log[i])[h]) !! UnitsOf(unit, SlotExtents(log[j])[g])
  {
    hide UnitsOf, Regions, SlotExtents;
    RegionAt(logLen, log, i, h);
    RegionAt(logLen, log, j, g);
    if i < j {
      RegionOrder(logLen, log, i, h, j);
    } else if j < i {
      RegionOrder(logLen, log, j, g, i);
    }
    assert RegionIndex(log, i, h) != RegionIndex(log, j, g);
  }

  /** Byte `b` of the device holds offset `x` of the file that entry `i` of the log creates. */
  predicate Backs(log: seq<Slot>, i: nat, x: nat, b: nat) {
    && FileAt(log, i) && x < log[i].entry.fm.size
    && Mapped(log[i].entry.fm.fmap) && DeviceByte(log[i].entry.fm.fmap, x) == b
  }

  /** Over every run, no device byte backs two places: not two files, not two offsets of one file. */
  lemma NoByteShared(d: Device, logLen: nat, es: seq<Event>, i: nat, x: nat, j: nat, y: nat, b: nat)
    requires Mkfs(d, logLen) && IsRun(es)
    requires var log := After(d, logLen, Formatted, es).log; Backs(log, i, x, b) && Backs(log, j, y, b)
    ensures i == j && x == y
  {
    EveryRunIsSound(d, logLen, es);
    EveryRunHoldsFiles(d, logLen, es);
    hide Disjoint, Regions, EveryFileHeld, IsRun, After;
    SharedByte(d.unit, logLen, After(d, logLen, Formatted, es).log, i, x, j, y);
  }

  /** Over every run, every byte of every logged file has a place, inside one of its extents. */
  lemma EveryByteBacked(d: Device, logLen: nat, es: seq<Event>, i: nat, x: nat) returns (b: nat, e: Extent)
    requires Mkfs(d, logLen) && IsRun(es)
    requires var log := After(d, logLen, Formatted, es).log; FileAt(log, i) && x < log[i].entry.fm.size
    ensures var log := After(d, logLen, Formatted, es).log; Backs(log, i, x, b) && e in SlotExtents(log[i])
    ensures e.offset <= b < e.offset + e.len
  {
    EveryRunHoldsFiles(d, logLen, es);
    hide IsRun, After;
    b, e := ByteBacked(d.unit, After(d, logLen, Formatted, es).log, i, x);
  }

  lemma ByteBacked(unit: nat, log: seq<Slot>, i: nat, x: nat) returns (b: nat, e: Extent)
    requires unit > 0 && EveryFileHeld(unit, log) && FileAt(log, i) && x < log[i].entry.fm.size
    ensures Backs(log, i, x, b) && e in SlotExtents(log[i]) && e.offset <= b < e.offset + e.len
  {
    var fm := log[i].entry.fm;
    ByteInExtent(unit, fm.fmap, fm.size, x);
    b, e := DeviceByte(fm.fmap, x), Extents(fm.fmap)[HomeOf(fm.fmap, x)];
  }

  lemma SharedByte(unit: nat, logLen: nat, log: seq<Slot>, i: nat, x: nat, j: nat, y: nat)
    requires unit > 0 && Disjoint(unit, Regions(logLen, log))
    requires EveryFileHeld(unit, log)
    requires exists b :: Backs(log, i, x, b) && Backs(log, j, y, b)
    ensures i == j && x == y
  {
    var f, g := log[i].entry.fm, log[j].entry.fm;
    assert Mapped(f.fmap) && Mapped(g.fmap);
    hide UnitsOf, Regions, Disjoint, Strip, InStrip, DeviceByte, Holds;
    var b, hx, hy := DeviceByte(f.fmap, x), HomeOf(f.fmap, x), HomeOf(g.fmap, y);
    ByteInExtent(unit, f.fmap, f.size, x);
    ByteInExtent(unit, g.fmap, g.size, y);
    ByteInUnits(unit, Extents(f.fmap)[hx], b);
    ByteInUnits(unit, Extents(g.fmap)[hy], b);
    if i != j || hx != hy {
      ExtentsDisjoint(unit, logLen, log, i, hx, j, hy);
      assert false;
    }
    FileDisjoint(unit, logLen, log, i);
    InjectiveInFile(unit, f.fmap, f.size, x, y);
  }

  lemma FileDisjoint(unit: nat, logLen: nat, log: seq<Slot>, i: nat)
    requires unit > 0 && Disjoint(unit, Regions(logLen, log)) && i < |log|
    ensures Disjoint(unit, SlotExtents(log[i]))
  {
    hide UnitsOf, Regions, SlotExtents;
    forall h, g | 0 <= h < g < |SlotExtents(log[i])|
      ensures UnitsOf(unit, SlotExtents(log[i])[h]) !! UnitsOf(unit, SlotExtents(log[i])[g])
    {
      ExtentsDisjoint(unit, logLen, log, i, h, i, g);
    }
  }
}
