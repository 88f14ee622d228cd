/** The bitmap that famfs_build_bitmap derives from the log, and its accounting. */
module Rebuild {
  import opened Arith
  import opened Bitmap
  import opened Units
  import opened Meta
  import opened Allocator

  /** A log entry together with the verdict of famfs_validate_log_entry on it. */
  datatype Slot = Slot(entry: LogEntry, valid: bool)

  function SlotExtents(slot: Slot): seq<Extent> {
    if slot.valid && slot.entry.LogFile? then Extents(slot.entry.fm.fmap) else []
  }

  function LogExtents(log: seq<Slot>): seq<Extent> {
    if log == [] then [] else LogExtents(log[..|log| - 1]) + SlotExtents(log[|log| - 1])
  }

  /** The superblock and the log itself are in no log entry. */
  function Regions(logLen: nat, log: seq<Slot>): seq<Extent> {
    [Extent(0, 0, FAMFS_SUPERBLOCK_SIZE + logLen)] + LogExtents(log)
  }

  function UnitsOf(unit: nat, e: Extent): set<int>
    requires unit > 0
  {
    Span(e.offset / unit, CeilDiv(e.len, unit))
  }

  /** Units in use, number of units that an earlier extent already had, bytes in use. */
  datatype Tally = Tally(used: set<int>, errors: nat, sum: int)

  ghost function Mark(unit: nat, t: Tally, e: Extent): Tally
    requires unit > 0
  {
    var errors := Overlap(t.used, UnitsOf(unit, e));
    Tally(t.used + UnitsOf(unit, e), t.errors + errors, t.sum + Bytes(unit, CeilDiv(e.len, unit) - errors))
  }

  ghost function MarkAll(unit: nat, t: Tally, es: seq<Extent>): Tally
    requires unit > 0
  {
    if es == [] then t else Mark(unit, MarkAll(unit, t, es[..|es| - 1]), es[|es| - 1])
  }

  const Blank := Tally({}, 0, 0)

  /** How many units the extents ask for, counted with repetition. */
  function Demand(unit: nat, es: seq<Extent>): nat
    requires unit > 0
  {
    if es == [] then 0 else Demand(unit, es[..|es| - 1]) + CeilDiv(es[|es| - 1].len, unit)
  }

  ghost predicate Disjoint(unit: nat, es: seq<Extent>)
    requires unit > 0
  {
    forall i, j :: 0 <= i < j < |es| ==> UnitsOf(unit, es[i]) !! UnitsOf(unit, es[j])
  }

  lemma {:induction false} MarkAllUsed(unit: nat, t: Tally, es: seq<Extent>)
    requires unit > 0
    ensures forall k :: k in MarkAll(unit, t, es).used <==>
      k in t.used || exists i :: 0 <= i < |es| && k in UnitsOf(unit, es[i])
    decreases |es|
  {
    hide UnitsOf, Overlap, Bytes, CeilDiv;
    if es != [] {
      var rest, last := es[..|es| - 1], es[|es| - 1];
      MarkAllUsed(unit, t, rest);
      forall k
        ensures k in MarkAll(unit, t, es).used <==>
                k in t.used || exists i :: 0 <= i < |es| && k in UnitsOf(unit, es[i])
      {
        if i :| 0 <= i < |rest| && k in UnitsOf(unit, rest[i]) {
          assert es[i] == rest[i];
        }
        if i :| 0 <= i < |es| && k in UnitsOf(unit, es[i]) {
          assert i < |rest| ==> es[i] == rest[i];
        }
      }
    }
  }

  lemma MarkCounts(unit: nat, t: Tally, e: Extent)
    requires unit > 0
    ensures var t' := Mark(unit, t, e);
      && |t'.used| + t'.errors == |t.used| + t.errors + CeilDiv(e.len, unit)
      && t'.sum == t.sum + Bytes(unit, |t'.used| - |t.used|)
  {
    hide CeilDiv;
    SpanSize(e.offset / unit, CeilDiv(e.len, unit));
    Split(t.used, UnitsOf(unit, e));
  }

  /** Every unit asked for is either newly in use or an error; the bytes in use are those of the units in use. */
  lemma {:induction false} Accounting(unit: nat, es: seq<Extent>)
    requires unit > 0
    ensures var t := MarkAll(unit, Blank, es);
      Demand(unit, es) == |t.used| + t.errors && t.sum == unit * |t.used|
    decreases |es|
  {
    hide CeilDiv, Mark;
    if es != [] {
      var rest, last := es[..|es| - 1], es[|es| - 1];
      Accounting(unit, rest);
      var t, t' := MarkAll(unit, Blank, rest), MarkAll(unit, Blank, es);
      MarkCounts(unit, t, last);
      MulDistributes(|t'.used|, |t.used|, unit);
    }
  }

  lemma Split(a: set<int>, b: set<int>)
    ensures |a + b| + Overlap(a, b) == |a| + |b|
  {
    assert b == (a * b) + (b - a);
    assert a + b == a + (b - a);
  }

  lemma MarkErrors(unit: nat, t: Tally, e: Extent)
    requires unit > 0
    ensures Mark(unit, t, e).errors == 0 <==> t.errors == 0 && t.used !! UnitsOf(unit, e)
  {
    hide UnitsOf;
    var units := UnitsOf(unit, e);
    if t.used * units == {} {
      forall k | k in t.used
        ensures k !in units
      {
        assert k !in t.used * units;
      }
    }
  }

  /** No error is counted exactly when no two extents share a unit. */
  lemma {:induction false} ErrorsMeanOverlap(unit: nat, es: seq<Extent>)
    requires unit > 0
    ensures MarkAll(unit, Blank, es).errors == 0 <==> Disjoint(unit, es)
    decreases |es|
  {
    hide Mark, UnitsOf;
    if es != [] {
      var rest, last := es[..|es| - 1], es[|es| - 1];
      ErrorsMeanOverlap(unit, rest);
      MarkErrors(unit, MarkAll(unit, Blank, rest), last);
      DisjointNext(unit, rest, last);
      assert es == rest + [last];
    }
  }

  /** The units in use are disjoint from an extent exactly when every marked extent is. */
  lemma UsedDisjoint(unit: nat, es: seq<Extent>, e: Extent)
    requires unit > 0
    ensures MarkAll(unit, Blank, es).used !! UnitsOf(unit, e) <==>
      forall i :: 0 <= i < |es| ==> UnitsOf(unit, es[i]) !! UnitsOf(unit, e)
  {
    MarkAllUsed(unit, Blank, es);
    hide MarkAll, UnitsOf;
    var used, units := MarkAll(unit, Blank, es).used, UnitsOf(unit, e);
    if used !! units {
      forall i | 0 <= i < |es|
        ensures UnitsOf(unit, es[i]) !! units
      {
        assert forall k :: k in UnitsOf(unit, es[i]) ==> k in used;
      }
    }
  }

  lemma DisjointNext(unit: nat, es: seq<Extent>, e: Extent)
    requires unit > 0
    ensures Disjoint(unit, es + [e]) <==> Disjoint(unit, es) && MarkAll(unit, Blank, es).used !! UnitsOf(unit, e)
  {
    UsedDisjoint(unit, es, e);
    hide MarkAll, UnitsOf;
    var all := es + [e];
    assert forall i :: 0 <= i < |es| ==> all[i] == es[i];
    if Disjoint(unit, all) {
      forall i | 0 <= i < |es|
        ensures UnitsOf(unit, es[i]) !! UnitsOf(unit, e)
      {
        assert UnitsOf(unit, all[i]) !! UnitsOf(unit, all[|es|]);
      }
    }
  }

  // ---------- the order of entries does not matter ----------

  lemma {:induction false} DemandRemove(unit: nat, es: seq<Extent>, j: nat)
    requires unit > 0 && j < |es|
    ensures Demand(unit, es) == Demand(unit, es[..j] + es[j + 1..]) + CeilDiv(es[j].len, unit)
    decreases |es|
  {
    hide CeilDiv;
    var last, less := |es| - 1, es[..j] + es[j + 1..];
    if j == last {
      assert less == es[..last];
    } else {
      DemandRemove(unit, es[..last], j);
      assert less[..|less| - 1] == es[..last][..j] + es[..last][j + 1..];
    }
  }

  lemma WithoutOne(es: seq<Extent>, j: nat)
    requires j < |es|
    ensures multiset(es[..j] + es[j + 1..]) == multiset(es) - multiset{es[j]}
  {
    assert es == es[..j] + [es[j]] + es[j + 1..];
  }

  lemma {:induction false} DemandPermutes(unit: nat, es: seq<Extent>, fs: seq<Extent>)
    requires unit > 0 && multiset(es) == multiset(fs)
    ensures Demand(unit, es) == Demand(unit, fs)
    decreases |es|
  {
    if es == [] {
      assert |multiset(fs)| == |fs|;
    } else {
      var last := |es| - 1;
      assert es[last] in multiset(fs);
      var j :| 0 <= j < |fs| && fs[j] == es[last];
      var less := fs[..j] + fs[j + 1..];
      WithoutOne(es, last);
      WithoutOne(fs, j);
      assert es[..last] + es[last + 1..] == es[..last];
      DemandRemove(unit, fs, j);
      DemandPermutes(unit, es[..last], less);
    }
  }

  lemma UsedPermutes(unit: nat, es: seq<Extent>, fs: seq<Extent>)
    requires unit > 0 && multiset(es) == multiset(fs)
    ensures MarkAll(unit, Blank, es).used == MarkAll(unit, Blank, fs).used
  {
    MarkAllUsed(unit, Blank, es);
    MarkAllUsed(unit, Blank, fs);
    hide MarkAll, UnitsOf;
    forall i | 0 <= i < |es|
      ensures es[i] in fs
    {
      assert es[i] in multiset(es);
    }
    forall i | 0 <= i < |fs|
      ensures fs[i] in es
    {
      assert fs[i] in multiset(fs);
    }
  }

  /** Bitmap, errors and bytes depend on which extents there are, not on their order. */
  lemma OrderIndependent(unit: nat, es: seq<Extent>, fs: seq<Extent>)
    requires unit > 0 && multiset(es) == multiset(fs)
    ensures MarkAll(unit, Blank, es) == MarkAll(unit, Blank, fs)
  {
    hide MarkAll;
    UsedPermutes(unit, es, fs);
    DemandPermutes(unit, es, fs);
    Accounting(unit, es);
    Accounting(unit, fs);
  }

  // ---------- famfs_build_bitmap ----------

  /** Every extent is aligned and lies within the bitmap. */
  ghost predicate InDevice(unit: nat, nbits: nat, es: seq<Extent>)
    requires unit > 0
  {
    forall e :: e in es ==> e.offset % unit == 0 && e.offset / unit + CeilDiv(e.len, unit) <= nbits
  }

  lemma {:induction false} MarkAllConcat(unit: nat, t: Tally, es: seq<Extent>, fs: seq<Extent>)
    requires unit > 0
    ensures MarkAll(unit, t, es + fs) == MarkAll(unit, MarkAll(unit, t, es), fs)
    decreases |fs|
  {
    hide Mark;
    if fs == [] {
      assert es + fs == es;
    } else {
      assert (es + fs)[..|es + fs| - 1] == es + fs[..|fs| - 1];
      MarkAllConcat(unit, t, es, fs[..|fs| - 1]);
    }
  }

  function FileBytes(log: seq<Slot>): nat {
    if log == [] then 0
    else FileBytes(log[..|log| - 1]) +
         var slot := log[|log| - 1]; if slot.valid && slot.entry.LogFile? then slot.entry.fm.size else 0
  }

  ghost function TallyOf(bitmap: seq<bv8>, errors: nat, sum: int): Tally {
    Tally(Used(bitmap), errors, sum)
  }

  /** The loop over the extents of one entry. */
  method MarkExtents(bitmap: array<bv8>, unit: nat, es: seq<Extent>, errors: nat, sum: int)
    returns (errors': nat, sum': int)
    requires unit > 0 && InDevice(unit, 8 * bitmap.Length, es)
    modifies bitmap
    ensures TallyOf(bitmap[..], errors', sum') == MarkAll(unit, TallyOf(old(bitmap[..]), errors, sum), es)
  {
    hide Used, CeilDiv, Span, Overlap, Bytes;
    errors', sum' := errors, sum;
    ghost var t := TallyOf(bitmap[..], errors, sum);
    assert es[..0] == [];
    for j := 0 to |es|
      invariant TallyOf(bitmap[..], errors', sum') == MarkAll(unit, t, es[..j])
    {
      ghost var before := TallyOf(bitmap[..], errors', sum');
      var errs;
      assert es[j] in es;
      errs, sum' := SetExtent(bitmap, unit, es[j].offset, es[j].len, sum');
      errors' := errors' + errs;
      assert TallyOf(bitmap[..], errors', sum') == Mark(unit, before, es[j]);
      assert es[..j + 1][..j] == es[..j];
    }
    assert es[..|es|] == es;
  }

  lemma {:induction false} ZeroesAreBlank(s: seq<bv8>)
    requires forall i :: 0 <= i < |s| ==> s[i] == 0
    ensures Used(s) == {}
  {
    forall i | 0 <= i < 8 * |s|
      ensures !Bit(s, i)
    {
    }
  }

  /** The units of the bitmap that is built for a device: it has a byte to spare. */
  function Capacity(nbits: nat): (r: nat)
    ensures nbits + 8 <= r < nbits + 16
  {
    8 * (Size(nbits) + 1)
  }

  /** The loop of famfs_build_bitmap over the log. */
  method MarkLog(bitmap: array<bv8>, unit: nat, log: seq<Slot>, errors: nat, sum: int)
    returns (errors': nat, fsizeTotal: nat, sum': int)
    requires unit > 0 && forall i :: 0 <= i < |log| ==> InDevice(unit, 8 * bitmap.Length, SlotExtents(log[i]))
    modifies bitmap
    ensures TallyOf(bitmap[..], errors', sum') == MarkAll(unit, TallyOf(old(bitmap[..]), errors, sum), LogExtents(log))
    ensures fsizeTotal == FileBytes(log)
  {
    errors', fsizeTotal, sum' := errors, 0, sum;
    ghost var t := TallyOf(bitmap[..], errors, sum);
    assert log[..0] == [] && LogExtents([]) == [];
    MarkNone(unit, t);
    hide Used, MarkAll, InDevice, FileBytes, LogExtents;
    for i := 0 to |log|
      invariant TallyOf(bitmap[..], errors', sum') == MarkAll(unit, t, LogExtents(log[..i]))
      invariant fsizeTotal == FileBytes(log[..i])
    {
      var slot := log[i];
      assert log[..i + 1] == log[..i] + [slot];
      LogExtentsNext(log, i);
      FileBytesNext(log[..i], slot);
      MarkAllConcat(unit, t, LogExtents(log[..i]), SlotExtents(slot));
      if slot.valid && slot.entry.LogFile? {
        errors', sum' := MarkExtents(bitmap, unit, Extents(slot.entry.fm.fmap), errors', sum');
        fsizeTotal := fsizeTotal + slot.entry.fm.size;
      } else {
        MarkNone(unit, TallyOf(bitmap[..], errors', sum'));
      }
    }
    assert log[..|log|] == log;
  }

  /** famfs_build_bitmap. An extent may end past the device, as long as it ends inside the bitmap. */
  method BuildBitmap(log: seq<Slot>, logLen: nat, unit: nat, devSize: nat)
    returns (bitmap: array<bv8>, nbits: nat, errors: nat, fsizeTotal: nat, allocSum: int)
    requires unit > 0 && InDevice(unit, Capacity(CeilDiv(devSize, unit)), Regions(logLen, log))
    ensures fresh(bitmap) && nbits == CeilDiv(devSize, unit) && 8 * bitmap.Length == Capacity(nbits)
    ensures TallyOf(bitmap[..], errors, allocSum) == MarkAll(unit, Blank, Regions(logLen, log))
    ensures Demand(unit, Regions(logLen, log)) == |Used(bitmap[..])| + errors
    ensures allocSum == unit * |Used(bitmap[..])|
    ensures errors == 0 <==> Disjoint(unit, Regions(logLen, log))
    ensures fsizeTotal == FileBytes(log)
  {
    nbits := CeilDiv(devSize, unit);
    bitmap := new bv8[Size(nbits) + 1](_ => 0);
    ZeroesAreBlank(bitmap[..]);
    hide Used, MarkAll, CeilDiv, Demand, Disjoint, InDevice, LogExtents;
    ghost var all := Regions(logLen, log);
    var sb := [Extent(0, 0, FAMFS_SUPERBLOCK_SIZE + logLen)];
    InDeviceParts(unit, 8 * bitmap.Length, logLen, log);
    MarkAllConcat(unit, Blank, sb, LogExtents(log));
    errors, allocSum := MarkExtents(bitmap, unit, sb, 0, 0);
    errors, fsizeTotal, allocSum := MarkLog(bitmap, unit, log, errors, allocSum);
    Accounting(unit, all);
    ErrorsMeanOverlap(unit, all);
  }

  lemma MarkNone(unit: nat, t: Tally)
    requires unit > 0
    ensures MarkAll(unit, t, []) == t
  {
  }

  lemma LogExtentsNext(log: seq<Slot>, i: nat)
    requires i < |log|
    ensures LogExtents(log[..i + 1]) == LogExtents(log[..i]) + SlotExtents(log[i])
  {
    assert log[..i + 1][..i] == log[..i];
  }

  lemma RegionsNext(logLen: nat, log: seq<Slot>, i: nat)
    requires i < |log|
    ensures Regions(logLen, log[..i + 1]) == Regions(logLen, log[..i]) + SlotExtents(log[i])
  {
    LogExtentsNext(log, i);
  }

  lemma {:induction false} SlotInLog(log: seq<Slot>, i: nat, e: Extent)
    requires i < |log| && e in SlotExtents(log[i])
    ensures e in LogExtents(log)
    decreases |log|
  {
    if i < |log| - 1 {
      SlotInLog(log[..|log| - 1], i, e);
    }
  }

  lemma {:induction false} InLogExtents(log: seq<Slot>, e: Extent) returns (i: nat)
    requires e in LogExtents(log)
    ensures i < |log| && e in SlotExtents(log[i])
    decreases |log|
  {
    var last := |log| - 1;
    if e in SlotExtents(log[last]) {
      i := last;
    } else {
      i := InLogExtents(log[..last], e);
    }
  }

  /**
   What a rebuild marks: the first 2 MiB and the log after them, and the extents, or the strips, of
   exactly the files whose entries are valid.
   */
  lemma RegionsExact(logLen: nat, log: seq<Slot>, e: Extent)
    ensures e in Regions(logLen, log) <==>
      || e == Extent(0, 0, 0x200000 + logLen)
      || exists i :: 0 <= i < |log| && log[i].valid && log[i].entry.LogFile?
           && e in match log[i].entry.fm.fmap case Simple(exts) => exts case Interleaved(_, strips) => strips
  {
    hide LogExtents;
    if e in LogExtents(log) {
      var i := InLogExtents(log, e);
      assert e in SlotExtents(log[i]);
    }
    if i :| 0 <= i < |log| && e in SlotExtents(log[i]) {
      SlotInLog(log, i, e);
    }
  }

  /** The sum of file sizes counts each valid file once. */
  lemma FileBytesNext(log: seq<Slot>, slot: Slot)
    ensures FileBytes(log + [slot]) ==
            FileBytes(log) + if slot.valid && slot.entry.LogFile? then slot.entry.fm.size else 0
  {
    assert (log + [slot])[..|log|] == log;
  }

  lemma InDeviceParts(unit: nat, nbits: nat, logLen: nat, log: seq<Slot>)
    requires unit > 0 && InDevice(unit, nbits, Regions(logLen, log))
    ensures InDevice(unit, nbits, [Extent(0, 0, FAMFS_SUPERBLOCK_SIZE + logLen)])
    ensures forall i :: 0 <= i < |log| ==> InDevice(unit, nbits, SlotExtents(log[i]))
  {
    hide CeilDiv;
    var all := Regions(logLen, log);
    assert all[0] in all;
    forall i | 0 <= i < |log|
      ensures InDevice(unit, nbits, SlotExtents(log[i]))
    {
      forall e | e in SlotExtents(log[i])
        ensures e in all
      {
        SlotInLog(log, i, e);
      }
    }
  }

  /** The superblock has unit 0. */
  lemma SuperblockMarked(unit: nat, logLen: nat, log: seq<Slot>)
    requires unit > 0
    ensures 0 in MarkAll(unit, Blank, Regions(logLen, log)).used
  {
    hide UnitsOf, LogExtents, MarkAll;
    var all := Regions(logLen, log);
    MarkAllUsed(unit, Blank, all);
    FirstUnit(unit, FAMFS_SUPERBLOCK_SIZE + logLen);
    assert 0 in UnitsOf(unit, all[0]);
  }

  lemma FirstUnit(unit: nat, len: nat)
    requires unit > 0 && len > 0
    ensures 0 in UnitsOf(unit, Extent(0, 0, len))
  {
    CeilDivCovers(len, unit);
    hide CeilDiv;
    DivModUnique(0, 0, 0, unit);
  }

  /** `es` are new extents on top of `used`, and `used'` has them marked. */
  ghost predicate Allocates(unit: nat, used: set<int>, es: seq<Extent>, used': set<int>)
    requires unit > 0
  {
    && Disjoint(unit, es)
    && (forall i :: 0 <= i < |es| ==> UnitsOf(unit, es[i]) !! used)
    && (forall k :: k in used' <==> k in used || exists i :: 0 <= i < |es| && k in UnitsOf(unit, es[i]))
  }
}
