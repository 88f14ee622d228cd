/** When famfs_file_alloc grants, refuses or stops, by the bitmap before the call (src/famfs_alloc.c). */
module FileAllocExact {
  import opened Arith
  import opened Common
  import opened Units
  import opened Meta
  import opened Rebuild
  import opened Buckets
  import opened Strided
  import opened BucketFits
  import opened FileAlloc

  // ---------- what is granted ----------

  lemma RunInBitmap(unit: nat, cap: nat, r: nat, n: nat)
    requires unit > 0 && r + n <= cap
    ensures InDevice(unit, cap, [Extent(0, r * unit, n * unit)])
  {
    UnitMultiple(unit, r);
    UnitMultiple(unit, n);
  }

  lemma ContiguousSound(d: Device, used: set<int>, cur: nat, size: nat)
    requires d.unit > 0
    ensures var a := Contiguous(d, used, cur, size);
      a.Granted? ==>
        && Allocates(d.unit, used, Extents(a.fmap), a.used) && Holds(d.unit, a.fmap, size)
        && InDevice(d.unit, d.cap, Extents(a.fmap))
  {
    var n := CeilDiv(size, d.unit);
    var r := FirstFit(used, d.nbits, cur / d.unit, d.nbits, n);
    if r != -1 && r + n <= d.cap {
      RunAllocates(d.unit, used, r, n);
      RunHolds(d.unit, r, size);
      RunInBitmap(d.unit, d.cap, r, n);
    }
  }

  lemma StripedSound(d: Device, p: Param, used: set<int>, cur: nat, size: nat, order: seq<nat>)
    requires Striping(d, p) && 0 in used
    ensures var a := Striped(d, p, used, cur, size, order);
      a.Granted? ==>
        && Allocates(d.unit, used, Extents(a.fmap), a.used) && Holds(d.unit, a.fmap, size)
        && InDevice(d.unit, d.cap, Extents(a.fmap))
  {
    ValidParam(p, d.unit, d.size);
    if p.nstrips > 0 {
      var g := GridOf(d, p, size);
      var placed := Place(g, used, order, Want(p));
      PlaceApart(g, used, order, Want(p));
      PlaceInBitmap(g, used, order, Want(p));
      hide Place, ValidateParam, Allocates, Holds, StripUnits, SpanAll;
      if |placed.strips| == p.nstrips {
        StripsAllocate(d.unit, used, placed, g.n);
        StridedHolds(d.unit, size, p, placed.strips);
        StripsInBitmap(d.unit, d.cap, placed.strips, g.n);
      }
    }
  }

  lemma StripsInBitmap(unit: nat, cap: nat, rs: seq<int>, n: nat)
    requires unit > 0 && forall j :: 0 <= j < |rs| ==> 0 <= rs[j] && rs[j] + n <= cap
    ensures InDevice(unit, cap, StripExtents(unit, rs, n))
  {
    var es := StripExtents(unit, rs, n);
    forall e | e in es
      ensures e.offset % unit == 0 && e.offset / unit + CeilDiv(e.len, unit) <= cap
    {
      var j :| 0 <= j < |es| && es[j] == e;
      UnitMultiple(unit, rs[j]);
      UnitMultiple(unit, n);
    }
  }

  /** Whatever is granted is new, holds the file, and lies inside the bitmap, for every request and shuffle. */
  lemma GrantSound(d: Device, p: Param, used: set<int>, cur: nat, size: nat, order: seq<nat>)
    requires d.unit > 0 && 0 in used
    ensures var a := Answer(d, p, used, cur, size, order);
      a.Granted? ==>
        && Allocates(d.unit, used, Extents(a.fmap), a.used) && Holds(d.unit, a.fmap, size)
        && InDevice(d.unit, d.cap, Extents(a.fmap))
  {
    hide ValidateParam, Contiguous, Striped, Allocates, Holds, InDevice;
    if p == Param(0, 0, 0) {
      ContiguousSound(d, used, cur, size);
    } else if ValidateParam(p, d.unit, d.size) == 0 {
      if size < p.chunkSize {
        ContiguousSound(d, used, 0, size);
      } else {
        StripedSound(d, p, used, cur, size, order);
      }
    }
  }

  // ---------- what a grant looks like ----------

  /** Requests that get one extent: interleaving is off, or the file is smaller than a chunk. */
  predicate Whole(p: Param, size: nat) {
    p == Param(0, 0, 0) || size < p.chunkSize
  }

  /** The map that a request asks for. */
  ghost predicate Shape(unit: nat, p: Param, size: nat, fmap: Fmap)
    requires unit > 0
  {
    if Whole(p, size) then
      fmap.Simple? && |fmap.exts| == 1 && fmap.exts[0].devindex == 0 && fmap.exts[0].len == CeilDiv(size, unit) * unit
    else
      && fmap.Interleaved? && fmap.chunkSize == p.chunkSize && |fmap.strips| == p.nstrips > 0 && p.chunkSize > 0
      && forall e :: e in fmap.strips ==>
           e.devindex == 0 && e.len == CeilDiv(size, p.nstrips * p.chunkSize) * p.chunkSize
  }

  lemma StripedShape(d: Device, p: Param, used: set<int>, cur: nat, size: nat, order: seq<nat>)
    requires Striping(d, p) && !Whole(p, size)
    ensures var a := Striped(d, p, used, cur, size, order);
      a.Granted? ==> Shape(d.unit, p, size, a.fmap) && a.cur == cur
  {
    ValidParam(p, d.unit, d.size);
    if p.nstrips > 0 {
      var g := GridOf(d, p, size);
      StripsHoldFile(d.unit, size, p);
      hide Place, ValidateParam, StripUnits, CeilDiv;
      var es := StripExtents(d.unit, Place(g, used, order, Want(p)).strips, g.n);
      assert forall e :: e in es ==> e.devindex == 0 && e.len == g.n * d.unit;
    }
  }

  /**
   A grant has the requested shape: the chunk size and number of strips that were asked for, each
   strip of just enough whole chunks; or one extent of just enough units. The cursor moves to the
   end of a single extent.
   */
  lemma GrantShape(d: Device, p: Param, used: set<int>, cur: nat, size: nat, order: seq<nat>)
    requires d.unit > 0
    ensures var a := Answer(d, p, used, cur, size, order);
      a.Granted? ==>
        && Shape(d.unit, p, size, a.fmap)
        && a.cur == if Whole(p, size) then a.fmap.exts[0].offset + a.fmap.exts[0].len else cur
  {
    hide ValidateParam, Striped, FirstFit, CeilDiv;
    if !Whole(p, size) && ValidateParam(p, d.unit, d.size) == 0 {
      StripedShape(d, p, used, cur, size, order);
    } else if Whole(p, size) {
      OneExtent(d, used, cur, size);
      OneExtent(d, used, 0, size);
    }
  }

  lemma OneExtent(d: Device, used: set<int>, cur: nat, size: nat)
    requires d.unit > 0
    ensures var a := Contiguous(d, used, cur, size);
      a.Granted? ==>
        && a.fmap.Simple? && |a.fmap.exts| == 1 && a.fmap.exts[0].devindex == 0
        && a.fmap.exts[0].len == CeilDiv(size, d.unit) * d.unit
        && a.cur == a.fmap.exts[0].offset + a.fmap.exts[0].len
  {
    hide FirstFit, CeilDiv;
    var n := CeilDiv(size, d.unit);
    var r := FirstFit(used, d.nbits, cur / d.unit, d.nbits, n);
    if r != -1 {
      MulDistributes(r, n, d.unit);
    }
  }

  /** With the superblock in use, no grant for a file with bytes starts at offset 0 or has chunk size 0. */
  lemma GrantOffsets(d: Device, p: Param, used: set<int>, cur: nat, size: nat, order: seq<nat>)
    requires d.unit > 0 && 0 in used && 0 < size
    ensures var a := Answer(d, p, used, cur, size, order);
      a.Granted? ==>
        match a.fmap
        case Simple(exts) => forall e :: e in exts ==> e.offset > 0
        case Interleaved(chunkSize, strips) => chunkSize > 0 && forall e :: e in strips ==> e.offset > 0
  {
    var a := Answer(d, p, used, cur, size, order);
    GrantShape(d, p, used, cur, size, order);
    GrantSound(d, p, used, cur, size, order);
    hide Answer;
    if a.Granted? {
      forall e | e in Extents(a.fmap)
        ensures e.offset > 0
      {
        var i :| 0 <= i < |Extents(a.fmap)| && Extents(a.fmap)[i] == e;
        LongEnough(d.unit, p, size, a.fmap, e);
        NotFirst(d.unit, used, Extents(a.fmap), a.used, i);
      }
    }
  }

  lemma LongEnough(unit: nat, p: Param, size: nat, fmap: Fmap, e: Extent)
    requires unit > 0 && 0 < size && Shape(unit, p, size, fmap) && e in Extents(fmap)
    ensures e.len > 0
  {
    if Whole(p, size) {
      CeilDivCovers(size, unit);
    } else {
      MulMonotone(1, p.nstrips, p.chunkSize);
      var rows := CeilDiv(size, p.nstrips * p.chunkSize);
      CeilDivCovers(size, p.nstrips * p.chunkSize);
      hide CeilDiv;
      if rows == 0 {
        assert false;
      }
      MulMonotone(1, rows, p.chunkSize);
    }
  }

  /** New extents with bytes are not at offset 0 when unit 0 is in use. */
  lemma NotFirst(unit: nat, used: set<int>, es: seq<Extent>, used': set<int>, i: nat)
    requires unit > 0 && 0 in used && Allocates(unit, used, es, used') && i < |es| && es[i].len > 0
    ensures es[i].offset > 0
  {
    if es[i].offset == 0 {
      CeilDivCovers(es[i].len, unit);
      DivModUnique(0, 0, 0, unit);
      hide CeilDiv;
      assert false;
    }
  }

  /** Bitmap and cur_pos as the cursor over units. */
  ghost function InUnits(unit: nat, used: set<int>, cur: nat): Cursor
    requires unit > 0
  {
    Cursor(used, cur / unit)
  }

  /** A contiguous request is a request of a session with a cursor, whose searches CursorSound speaks about. */
  lemma ContiguousIsRequest(d: Device, used: set<int>, cur: nat, size: nat)
    requires d.unit > 0
    ensures var a, s := Contiguous(d, used, cur, size), InUnits(d.unit, used, cur);
      var t := Request(s, d.nbits, CeilDiv(size, d.unit));
      && (a.Granted? ==> t == InUnits(d.unit, a.used, a.cur) && a.cur % d.unit == 0)
      && (a.Refused? ==> t == s && a == Refused(-ENOMEM, cur))
  {
    hide FirstFit, CeilDiv, Span;
    var n := CeilDiv(size, d.unit);
    var r := FirstFit(used, d.nbits, cur / d.unit, d.nbits, n);
    if r != -1 {
      UnitMultiple(d.unit, r + n);
    }
  }

  // ---------- contiguous requests ----------

  /** Refused, past the bitmap, or past the device: each exactly by the free runs from the cursor on. */
  lemma ContiguousExact(d: Device, used: set<int>, cur: nat, size: nat)
    requires Shaped(d) && 0 < size && cur / d.unit + d.nbits < U64
    ensures var a, start, n := Contiguous(d, used, cur, size), cur / d.unit, CeilDiv(size, d.unit);
      && (a == Refused(-ENOMEM, cur) <==> !FitsFrom(used, d.nbits, start, n, start + d.nbits))
      && (a.Refused? ==> a == Refused(-ENOMEM, cur))
      && (a == Stopped(OutsideBitmap) <==> Overruns(used, d.nbits, start, n, d.cap))
      && (a.Granted? ==>
          (InDevice(d.unit, d.nbits, Extents(a.fmap)) <==> !Overruns(used, d.nbits, start, n, d.nbits)))
  {
    var start, n := cur / d.unit, CeilDiv(size, d.unit);
    CeilDivCovers(size, d.unit);
    var r := FirstFit(used, d.nbits, start, d.nbits, n);
    OverrunExact(used, d.nbits, start, n, d.cap);
    OverrunExact(used, d.nbits, start, n, d.nbits);
    RefusedExact(used, d.nbits, start, n);
    hide FirstFit, Overruns, CeilDiv;
    if r != -1 {
      UnitMultiple(d.unit, r);
      UnitMultiple(d.unit, n);
    }
  }

  lemma RefusedExact(used: set<int>, nbits: nat, cur: nat, n: nat)
    requires 0 < n && cur + nbits < U64
    ensures FirstFit(used, nbits, cur, nbits, n) == -1 <==> !FitsFrom(used, nbits, cur, n, cur + nbits)
  {
    OpenScan(used, nbits, cur + nbits, n, cur);
    hide Scan;
  }

  /** One extent is taken at the lowest free run: from the cursor on, or from the start for a small file. */
  lemma WholeLowest(d: Device, p: Param, used: set<int>, cur: nat, size: nat, order: seq<nat>)
    requires Shaped(d) && 0 < size && Whole(p, size) && cur / d.unit + d.nbits < U64
    ensures var a, n := Answer(d, p, used, cur, size, order), CeilDiv(size, d.unit);
      a.Granted? ==>
        && a.fmap.Simple? && |a.fmap.exts| == 1
        && var start, r := if p == Param(0, 0, 0) then cur / d.unit else 0, a.fmap.exts[0].offset / d.unit;
          && start <= r < d.nbits && Free(used, r, n) && (forall k :: start <= k < r ==> !Free(used, k, n))
          && a.fmap.exts[0].offset == r * d.unit && a.used == used + Span(r, n)
  {
    hide ValidateParam, Span;
    DivModUnique(0, 0, 0, d.unit);
    RunLowest(d, used, cur, size);
    RunLowest(d, used, 0, size);
    hide Contiguous;
  }

  lemma RunLowest(d: Device, used: set<int>, cur: nat, size: nat)
    requires Shaped(d) && 0 < size && cur / d.unit + d.nbits < U64
    ensures var a, start, n := Contiguous(d, used, cur, size), cur / d.unit, CeilDiv(size, d.unit);
      a.Granted? ==>
        && a.fmap.Simple? && |a.fmap.exts| == 1
        && var r := a.fmap.exts[0].offset / d.unit;
          && start <= r < d.nbits && Free(used, r, n) && (forall k :: start <= k < r ==> !Free(used, k, n))
          && a.fmap.exts[0].offset == r * d.unit && a.used == used + Span(r, n)
  {
    var start, n := cur / d.unit, CeilDiv(size, d.unit);
    CeilDivCovers(size, d.unit);
    OpenScan(used, d.nbits, start + d.nbits, n, start);
    hide Scan, CeilDiv, Span;
    var r := FirstFit(used, d.nbits, start, d.nbits, n);
    if r != -1 {
      UnitMultiple(d.unit, r);
    }
  }

  /** Refusals carry the verdict on the parameters, or -ENOMEM. A small file leaves the cursor at the start. */
  lemma RefusalExact(d: Device, p: Param, used: set<int>, cur: nat, size: nat, order: seq<nat>)
    requires d.unit > 0
    ensures var a, rc := Answer(d, p, used, cur, size, order), ValidateParam(p, d.unit, d.size);
      a.Refused? ==>
        && a.rc == (if rc != 0 then rc else -12)
        && a.cur == if p != Param(0, 0, 0) && rc == 0 && size < p.chunkSize then 0 else cur
  {
    hide FirstFit, Place;
  }

  // ---------- strided requests ----------

  /** Accepted parameters divide by zero exactly when they have no strips and the file has a chunk. */
  lemma DivisionExact(d: Device, p: Param, used: set<int>, cur: nat, size: nat, order: seq<nat>)
    requires Striping(d, p)
    ensures Answer(d, p, used, cur, size, order) == Stopped(DividesByZero) <==> p.nstrips == 0 && size >= p.chunkSize
  {
    hide ValidateParam, Place;
  }

  /** Sizes that the source's 64-bit arithmetic can hold. */
  predicate Representable(p: Param, size: nat) {
    size + p.nstrips * p.chunkSize < U64
  }

  lemma GridRegular(d: Device, p: Param, size: nat)
    requires Shaped(d) && 2 <= d.unit && Striping(d, p)
    requires p.nstrips > 0 && size >= p.chunkSize && Representable(p, size)
    ensures p.nbuckets > 0 && p.chunkSize / d.unit > 0 && Regular(GridOf(d, p, size), p.nbuckets)
  {
    ValidParam(p, d.unit, d.size);
    hide ValidateParam;
    BucketsFit(d, p.nbuckets);
    StripSize(d.unit, size, p);
  }

  lemma BucketsFit(d: Device, nbuckets: nat)
    requires Shaped(d) && nbuckets > 0 && d.size / nbuckets >= GiB
    ensures d.size / d.unit / nbuckets > 0 && nbuckets * (d.size / d.unit / nbuckets) <= d.nbits
  {
    var units := d.size / d.unit;
    CeilDivCovers(d.size, d.unit);
    FloorBelow(d.size, d.unit, d.nbits);
    BigEnough(d.size, d.unit, nbuckets);
    DivMod(units, nbuckets);
    hide CeilDiv;
    if units / nbuckets <= 0 {
      MulMonotone(units / nbuckets, 0, nbuckets);
    }
  }

  lemma FloorBelow(size: nat, unit: nat, n: nat)
    requires unit > 0 && size <= n * unit
    ensures size / unit <= n
  {
    var units := size / unit;
    DivMod(size, unit);
    if units > n {
      MulMonotone(n + 1, units, unit);
      MulDistributes(n, 1, unit);
    }
  }

  lemma BigEnough(size: nat, unit: nat, nbuckets: nat)
    requires 0 < unit <= GiB && nbuckets > 0 && size / nbuckets >= GiB
    ensures size / unit >= nbuckets
  {
    var units := size / unit;
    DivMod(size, nbuckets);
    DivMod(size, unit);
    MulMonotone(GiB, size / nbuckets, nbuckets);
    if units < nbuckets {
      MulMonotone(units + 1, nbuckets, unit);
      MulDistributes(units, 1, unit);
      MulMonotone(unit, GiB, nbuckets);
    }
  }

  lemma StripSize(unit: nat, size: nat, p: Param)
    requires 2 <= unit && p.nstrips > 0 && p.chunkSize / unit > 0 && p.chunkSize % unit == 0
    requires size >= p.chunkSize && Representable(p, size)
    ensures 0 < StripUnits(unit, size, p) && StripUnits(unit, size, p) + U32 < U64
  {
    StripsHoldFile(unit, size, p);
    hide StripUnits;
    var n := StripUnits(unit, size, p);
    assert p.chunkSize > 0 by {
      DivMod(p.chunkSize, unit);
      MulMonotone(1, p.chunkSize / unit, unit);
    }
    MulMonotone(1, p.nstrips, n * unit);
    MulMonotone(2, unit, n);
  }

  /**
   Leaving the bitmap, and the failed assertion of the rollback, each exactly by the bitmap that
   some round finds. A strip that sticks out does no harm to a request that gets all its strips.
   */
  lemma StripedExact(d: Device, p: Param, used: set<int>, cur: nat, size: nat, order: seq<nat>)
    requires Shaped(d) && 2 <= d.unit && Striping(d, p)
    requires p.nstrips > 0 && size >= p.chunkSize && Representable(p, size)
    requires 0 in used && Permutation(order, Iota(0, p.nbuckets))
    ensures p.nbuckets > 0 && p.chunkSize / d.unit > 0
    ensures var a, g, want := Striped(d, p, used, cur, size, order), GridOf(d, p, size), Want(p);
      var few := |Place(g, used, order, want).strips| < want;
      && (a == Stopped(OutsideBitmap) <==> exists i :: RoundLeavesBitmap(g, used, order, want, i))
      && (a == Stopped(AssertionFails) <==>
          few && (exists i :: RoundSticksOut(g, used, order, want, i))
          && !exists i :: RoundLeavesBitmap(g, used, order, want, i))
  {
    GridRegular(d, p, size);
    var g, want := GridOf(d, p, size), Want(p);
    PermutationIsList(order, p.nbuckets);
    OutsideExact(g, p.nbuckets, used, order, want);
    SticksOutExact(g, p.nbuckets, used, order, want);
    PlaceInBitmap(g, used, order, want);
    hide Place, RoundSticksOut, RoundLeavesBitmap, Regular, ValidateParam, Permutation, SticksOut;
  }

  /**
   With no bucket at risk, which the bitmap before the call decides, every shuffle gets the same
   answer: all strips if enough buckets have room, and otherwise a refusal that leaves the bitmap
   as it was. More than 16 strips, or a refusal over more than 16 buckets, leave the strip array.
   */
  lemma NoRiskAnswer(d: Device, p: Param, used: set<int>, cur: nat, size: nat, order: seq<nat>)
    requires Shaped(d) && 2 <= d.unit && Striping(d, p)
    requires p.nstrips > 0 && size >= p.chunkSize && Representable(p, size)
    requires 0 in used && Permutation(order, Iota(0, p.nbuckets))
    ensures p.nbuckets > 0 && p.chunkSize / d.unit > 0
    ensures var a, g := Striped(d, p, used, cur, size, order), GridOf(d, p, size);
      (forall b :: !AtRisk(g, p.nbuckets, used, Want(p), b)) ==>
        var roomy := |RoomyBuckets(g, p.nbuckets, used)|;
        && (a.Granted? <==> p.nstrips <= FAMFS_MAX_SIMPLE_EXTENTS && roomy >= p.nstrips)
        && (a == Refused(-ENOMEM, cur) <==> p.nbuckets <= FAMFS_MAX_SIMPLE_EXTENTS && roomy < p.nstrips)
        && (a == Stopped(OutsideStrips) <==>
            p.nstrips > FAMFS_MAX_SIMPLE_EXTENTS || (p.nbuckets > FAMFS_MAX_SIMPLE_EXTENTS && roomy < p.nstrips))
  {
    GridRegular(d, p, size);
    ValidParam(p, d.unit, d.size);
    var g, want := GridOf(d, p, size), Want(p);
    if forall b :: !AtRisk(g, p.nbuckets, used, want, b) {
      NoRiskOutcome(g, p.nbuckets, used, want, order);
    }
    hide Place, Regular, ValidateParam, Permutation, RoomyBuckets, AtRisk, SticksOut;
  }

  /** The extent lies in that bucket; buckets are equal parts of the device, in bytes. */
  predicate InBucket(d: Device, p: Param, e: Extent, bucket: nat)
    requires d.unit > 0 && p.nbuckets > 0
  {
    var bytes := d.size / d.unit / p.nbuckets * d.unit;
    bucket * bytes <= e.offset && e.offset + e.len <= bucket * bytes + bytes
  }

  lemma RunInBucket(d: Device, p: Param, r: nat, n: nat, b: nat)
    requires d.unit > 0 && p.nbuckets > 0
    requires var size := d.size / d.unit / p.nbuckets; b * size <= r && r + n <= b * size + size
    ensures InBucket(d, p, Extent(0, r * d.unit, n * d.unit), b)
  {
    var size := d.size / d.unit / p.nbuckets;
    MulAssociates(b, size, d.unit);
    MulMonotone(b * size, r, d.unit);
    MulMonotone(r + n, b * size + size, d.unit);
    MulDistributes(r, n, d.unit);
    MulDistributes(b * size, size, d.unit);
  }

  /**
   With no bucket at risk, a grant takes its strips from different buckets, in the order of the
   shuffle, and passes over none that has room.
   */
  lemma StripsSpread(d: Device, p: Param, used: set<int>, cur: nat, size: nat, order: seq<nat>)
    returns (places: seq<nat>)
    requires Shaped(d) && 2 <= d.unit && Striping(d, p)
    requires p.nstrips > 0 && size >= p.chunkSize && Representable(p, size)
    requires 0 in used && Permutation(order, Iota(0, p.nbuckets)) && Striped(d, p, used, cur, size, order).Granted?
    requires p.nbuckets > 0 && p.chunkSize / d.unit > 0
    requires forall b :: !AtRisk(GridOf(d, p, size), p.nbuckets, used, Want(p), b)
    ensures var fmap := Striped(d, p, used, cur, size, order).fmap;
      && fmap.Interleaved? && |places| == |fmap.strips|
      && (forall j :: 0 <= j < |places| ==>
            places[j] < |order| && InBucket(d, p, fmap.strips[j], order[places[j]]))
      && (forall i, j :: 0 <= i < j < |places| ==> places[i] < places[j])
      && Passed(GridOf(d, p, size), used, order, Want(p), places)
  {
    GridRegular(d, p, size);
    var g, want := GridOf(d, p, size), Want(p);
    NoRiskPlaces(g, p.nbuckets, used, want, order);
    places := OwnPlaces(g, p.nbuckets, used, order, want);
    hide Place, Own, Regular, ValidateParam, Permutation, AtRisk, StripUnits, SticksOut;
    var strips := Own(g, used, order, want).strips;
    forall j | 0 <= j < |places|
      ensures InBucket(d, p, StripExtents(d.unit, strips, g.n)[j], order[places[j]])
    {
      RunInBucket(d, p, strips[j], g.n, order[places[j]]);
    }
  }

  // ---------- grants that end past the device ----------

  /** The request meets a free run that ends past the device before it meets one inside. */
  ghost predicate PastDevice(d: Device, p: Param, used: set<int>, cur: nat, size: nat, order: seq<nat>)
    requires d.unit > 0
  {
    if p == Param(0, 0, 0) || size < p.chunkSize then
      Overruns(used, d.nbits, if p == Param(0, 0, 0) then cur / d.unit else 0, CeilDiv(size, d.unit), d.nbits)
    else
      && Striping(d, p) && p.nstrips > 0 && p.nbuckets > 0 && p.chunkSize / d.unit > 0
      && exists i :: RoundSticksOut(GridOf(d, p, size), used, order, Want(p), i)
  }

  lemma StripsInDevice(d: Device, g: Grid, placed: Placed)
    requires d.unit > 0 && g.nbits == d.nbits && forall j :: 0 <= j < |placed.strips| ==> placed.strips[j] >= 0
    ensures InDevice(d.unit, d.nbits, StripExtents(d.unit, placed.strips, g.n)) <==>
            !exists j :: SticksOut(g, placed, j)
  {
    var es := StripExtents(d.unit, placed.strips, g.n);
    if exists j :: SticksOut(g, placed, j) {
      var j :| SticksOut(g, placed, j);
      UnitMultiple(d.unit, placed.strips[j]);
      UnitMultiple(d.unit, g.n);
      assert es[j] in es;
    } else {
      forall j | 0 <= j < |placed.strips|
        ensures placed.strips[j] + g.n <= d.nbits
      {
        assert !SticksOut(g, placed, j);
      }
      StripsInBitmap(d.unit, d.nbits, placed.strips, g.n);
    }
  }

  /** What is granted lies inside the device exactly unless the bitmap before the call sends it past the end. */
  lemma GrantInDevice(d: Device, p: Param, used: set<int>, cur: nat, size: nat, order: seq<nat>)
    requires Shaped(d) && 2 <= d.unit && 0 < size && Representable(p, size) && cur / d.unit <= d.cap
    requires 0 in used && Permutation(order, Iota(0, p.nbuckets))
    ensures var a := Answer(d, p, used, cur, size, order);
      a.Granted? ==>
        (InDevice(d.unit, d.nbits, Extents(a.fmap)) <==> !PastDevice(d, p, used, cur, size, order))
  {
    if p == Param(0, 0, 0) {
      ContiguousExact(d, used, cur, size);
    } else if ValidateParam(p, d.unit, d.size) == 0 {
      if size < p.chunkSize {
        assert 0 / d.unit == 0;
        ContiguousExact(d, used, 0, size);
      } else if p.nstrips > 0 {
        StripedInDevice(d, p, used, cur, size, order);
      }
    }
    hide ValidateParam, Overruns, Contiguous, Striped, RoundSticksOut, InDevice, Permutation;
  }

  lemma StripedInDevice(d: Device, p: Param, used: set<int>, cur: nat, size: nat, order: seq<nat>)
    requires Shaped(d) && 2 <= d.unit && Striping(d, p)
    requires p.nstrips > 0 && size >= p.chunkSize && Representable(p, size)
    requires 0 in used && Permutation(order, Iota(0, p.nbuckets))
    ensures p.nbuckets > 0 && p.chunkSize / d.unit > 0
    ensures var a := Striped(d, p, used, cur, size, order);
      a.Granted? ==>
        (InDevice(d.unit, d.nbits, Extents(a.fmap)) <==>
         !exists i :: RoundSticksOut(GridOf(d, p, size), used, order, Want(p), i))
  {
    StripedCases(d, p, used, cur, size, order);
    GridRegular(d, p, size);
    var g, want := GridOf(d, p, size), Want(p);
    hide Place, RoundSticksOut, Regular, ValidateParam, Permutation, SticksOut, InDevice, StripExtents, Striped;
    PermutationIsList(order, p.nbuckets);
    SticksOutExact(g, p.nbuckets, used, order, want);
    PlaceApart(g, used, order, want);
    StripsInDevice(d, g, Place(g, used, order, want));
  }
}
