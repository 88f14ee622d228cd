/** What famfs_file_alloc answers, as a function of the bitmap, the cursor and the shuffle (src/famfs_alloc.c). */
module FileAlloc {
  import opened Arith
  import opened Common
  import opened Units
  import opened Meta
  import opened Rebuild
  import opened Strided
  import opened BucketFits

  const GiB := 0x4000_0000

  /** round_size_to_alloc_unit */
  function RoundToAllocUnit(size: nat): nat {
    CeilDiv(size, FAMFS_ALLOC_UNIT) * FAMFS_ALLOC_UNIT
  }

  /** x & (x - 1) == 0 */
  predicate PowerOfTwoOrZero(x: nat) {
    x <= 1 || (x % 2 == 0 && PowerOfTwoOrZero(x / 2))
  }

  function Pow2(k: nat): nat {
    if k == 0 then 1 else 2 * Pow2(k - 1)
  }

  lemma {:induction false} PowerIsAccepted(k: nat)
    ensures Pow2(k) > 0 && PowerOfTwoOrZero(Pow2(k))
  {
    if k > 0 {
      PowerIsAccepted(k - 1);
      assert Pow2(k) % 2 == 0 && Pow2(k) / 2 == Pow2(k - 1);
    }
  }

  lemma {:induction false} AcceptedIsPower(x: nat) returns (k: nat)
    requires x > 0 && PowerOfTwoOrZero(x)
    ensures x == Pow2(k)
    decreases x
  {
    if x == 1 {
      k := 0;
    } else {
      k := AcceptedIsPower(x / 2);
      k := k + 1;
    }
  }

  /** The bit trick tells powers of two. */
  lemma PowerOfTwoExact(x: nat)
    ensures PowerOfTwoOrZero(x) <==> x == 0 || exists k: nat :: x == Pow2(k)
  {
    if x > 0 && PowerOfTwoOrZero(x) {
      var k := AcceptedIsPower(x);
    }
    if k: nat :| x == Pow2(k) {
      PowerIsAccepted(k);
    }
  }

  /** famfs_validate_interleave_param: 0 is good. */
  function ValidateParam(p: Param, unit: nat, devsize: nat): int
    requires unit > 0
  {
    if p == Param(0, 0, 0) then 0
    else if !PowerOfTwoOrZero(p.chunkSize) || p.chunkSize % unit != 0 then -EINVAL
    else
      (if p.chunkSize == 0 then 1 else 0)
      + (if p.nstrips > p.nbuckets then 1 else 0)
      + (if p.nbuckets == 0 then 1 else 0)
      + (if p.nbuckets > FAMFS_MAX_NBUCKETS then 1 else 0)
      + (if p.nbuckets == 0 || devsize / p.nbuckets < GiB then 1 else 0)
  }

  /** What a good verdict says of parameters that ask for interleaving. */
  lemma ValidParam(p: Param, unit: nat, devsize: nat)
    requires unit > 0 && p != Param(0, 0, 0)
    ensures ValidateParam(p, unit, devsize) == 0 <==>
      && (exists k: nat :: p.chunkSize == Pow2(k)) && p.chunkSize % unit == 0
      && p.nstrips <= p.nbuckets && 0 < p.nbuckets <= FAMFS_MAX_NBUCKETS && devsize / p.nbuckets >= GiB
    ensures ValidateParam(p, unit, devsize) == 0 ==> p.chunkSize > 0 && p.chunkSize / unit > 0
    ensures p.chunkSize > 0 && (p.chunkSize % unit != 0 || !exists k: nat :: p.chunkSize == Pow2(k)) ==>
              ValidateParam(p, unit, devsize) == -22
  {
    PowerOfTwoExact(p.chunkSize);
    NoPowerIsZero(p.chunkSize);
    if p.chunkSize > 0 && p.chunkSize % unit == 0 {
      DivMod(p.chunkSize, unit);
    }
  }

  lemma NoPowerIsZero(x: nat)
    ensures (exists k: nat :: x == Pow2(k)) ==> x > 0
  {
    if k: nat :| x == Pow2(k) {
      PowerIsAccepted(k);
    }
  }

  /** Zero strips pass validation, although the size computation then divides by zero. */
  lemma ZeroStripsPass()
    ensures ValidateParam(Param(1, 0, FAMFS_ALLOC_UNIT), FAMFS_ALLOC_UNIT, GiB) == 0
  {
    PowersOfTwo();
  }

  lemma PowersOfTwo()
    ensures PowerOfTwoOrZero(FAMFS_ALLOC_UNIT)
  {
    assert PowerOfTwoOrZero(0x20);
    assert PowerOfTwoOrZero(0x400);
    assert PowerOfTwoOrZero(0x8000);
    assert PowerOfTwoOrZero(0x100000);
  }

  /** The strip extents of runs of `n` units. */
  function StripExtents(unit: nat, rs: seq<int>, n: nat): seq<Extent>
  {
    seq(|rs|, i requires 0 <= i < |rs| => Extent(0, if rs[i] >= 0 then rs[i] * unit else 0, n * unit))
  }

  lemma UnitMultiple(unit: nat, k: nat)
    requires unit > 0
    ensures (k * unit) / unit == k && (k * unit) % unit == 0 && CeilDiv(k * unit, unit) == k
  {
    DivModUnique(k * unit, k, 0, unit);
    CeilDivUnique(k * unit, unit, k);
  }

  lemma RunAllocates(unit: nat, used: set<int>, r: nat, n: nat)
    requires unit > 0 && Free(used, r, n)
    ensures Allocates(unit, used, [Extent(0, r * unit, n * unit)], used + Span(r, n))
  {
    UnitMultiple(unit, r);
    UnitMultiple(unit, n);
    hide Span;
    var es := [Extent(0, r * unit, n * unit)];
    assert UnitsOf(unit, es[0]) == Span(r, n);
  }

  lemma RunHolds(unit: nat, r: nat, size: nat)
    requires unit > 0
    ensures Holds(unit, Simple([Extent(0, r * unit, CeilDiv(size, unit) * unit)]), size)
  {
    CeilDivCovers(size, unit);
    UnitMultiple(unit, r);
  }

  lemma StripsAllocate(unit: nat, used: set<int>, p: Placed, n: nat)
    requires unit > 0 && PlacedFrom(used, p, n)
    ensures Allocates(unit, used, StripExtents(unit, p.strips, n), p.used)
  {
    hide Span;
    var es := StripExtents(unit, p.strips, n);
    forall i | 0 <= i < |es|
      ensures UnitsOf(unit, es[i]) == Span(p.strips[i], n)
    {
      UnitMultiple(unit, p.strips[i]);
      UnitMultiple(unit, n);
    }
  }

  /** What a successful strided allocation returns holds the file. */
  lemma StridedHolds(unit: nat, size: nat, p: Param, rs: seq<int>)
    requires unit > 0 && p.nstrips > 0 && p.chunkSize / unit > 0 && p.chunkSize % unit == 0
    requires |rs| == p.nstrips && forall i :: 0 <= i < |rs| ==> rs[i] >= 0
    ensures Holds(unit, Interleaved(p.chunkSize, StripExtents(unit, rs, StripUnits(unit, size, p))), size)
  {
    StripsHoldFile(unit, size, p);
    hide StripUnits, CeilDiv;
    var rows := CeilDiv(size, p.nstrips * p.chunkSize);
    var strips := StripExtents(unit, rs, StripUnits(unit, size, p));
    Reorder(p.nstrips, rows, p.chunkSize);
    forall e | e in strips
      ensures e.offset % unit == 0 && e.len == rows * p.chunkSize
    {
      var i :| 0 <= i < |strips| && strips[i] == e;
      UnitMultiple(unit, rs[i]);
    }
  }

  // ---------- requests ----------

  /** What ends the process, or takes it out of its arrays. */
  datatype Stop = DividesByZero | AssertionFails | OutsideBitmap | OutsideStrips

  datatype Outcome =
    | Granted(fmap: Fmap, used: set<int>, cur: nat)
    | Refused(rc: int, cur: nat)
    | Stopped(why: Stop)

  /** Allocation unit, bytes of the device, and units of the device and of the bitmap. */
  datatype Device = Device(unit: nat, size: nat, nbits: nat, cap: nat)

  ghost predicate Shaped(d: Device) {
    0 < d.unit <= GiB && d.nbits == CeilDiv(d.size, d.unit) && d.nbits <= d.cap <= U32
  }

  /** famfs_file_alloc_contiguous with the cursor at byte `cur`. */
  ghost function Contiguous(d: Device, used: set<int>, cur: nat, size: nat): Outcome
    requires d.unit > 0
  {
    var n := CeilDiv(size, d.unit);
    var r := FirstFit(used, d.nbits, cur / d.unit, d.nbits, n);
    if r == -1 then Refused(-ENOMEM, cur)
    else if r + n > d.cap then Stopped(OutsideBitmap)
    else Granted(Simple([Extent(0, r * d.unit, n * d.unit)]), used + Span(r, n), (r + n) * d.unit)
  }

  function GridOf(d: Device, p: Param, size: nat): Grid
    requires d.unit > 0 && p.nbuckets > 0 && p.nstrips > 0 && p.chunkSize / d.unit > 0
  {
    Grid(d.nbits, d.cap, d.size / d.unit / p.nbuckets, StripUnits(d.unit, size, p))
  }

  /** The loop ends with this many strips: as many as asked for, or the one that the array has no room for. */
  function Want(p: Param): nat {
    if p.nstrips <= FAMFS_MAX_SIMPLE_EXTENTS then p.nstrips else FAMFS_MAX_SIMPLE_EXTENTS + 1
  }

  predicate Striping(d: Device, p: Param) {
    d.unit > 0 && p != Param(0, 0, 0) && ValidateParam(p, d.unit, d.size) == 0
  }

  /** The part of famfs_file_strided_alloc that takes strips; a failed one gives them back. */
  ghost function Striped(d: Device, p: Param, used: set<int>, cur: nat, size: nat, order: seq<nat>): Outcome
    requires Striping(d, p)
  {
    ValidParam(p, d.unit, d.size);
    if p.nstrips == 0 then Stopped(DividesByZero)
    else
      var g := GridOf(d, p, size);
      var placed := Place(g, used, order, Want(p));
      if placed.outside then Stopped(OutsideBitmap)
      else if |placed.strips| > FAMFS_MAX_SIMPLE_EXTENTS then Stopped(OutsideStrips)
      else if |placed.strips| == p.nstrips then
        Granted(Interleaved(p.chunkSize, StripExtents(d.unit, placed.strips, g.n)), placed.used, cur)
      else if exists j :: SticksOut(g, placed, j) then Stopped(AssertionFails)
      else if p.nbuckets > FAMFS_MAX_SIMPLE_EXTENTS then Stopped(OutsideStrips)
      else Refused(-ENOMEM, cur)
  }

  /** How a request that takes strips ends, by the strips that the loop takes. */
  lemma StripedCases(d: Device, p: Param, used: set<int>, cur: nat, size: nat, order: seq<nat>)
    requires Striping(d, p) && p.nstrips > 0
    ensures p.nbuckets > 0 && p.chunkSize / d.unit > 0 && p.nstrips <= p.nbuckets
    ensures var g := GridOf(d, p, size);
      var placed := Place(g, used, order, Want(p));
      Striped(d, p, used, cur, size, order) ==
        if placed.outside then Stopped(OutsideBitmap)
        else if |placed.strips| > FAMFS_MAX_SIMPLE_EXTENTS then Stopped(OutsideStrips)
        else if |placed.strips| == p.nstrips then
          Granted(Interleaved(p.chunkSize, StripExtents(d.unit, placed.strips, g.n)), placed.used, cur)
        else if exists j :: SticksOut(g, placed, j) then Stopped(AssertionFails)
        else if p.nbuckets > FAMFS_MAX_SIMPLE_EXTENTS then Stopped(OutsideStrips)
        else Refused(-ENOMEM, cur)
  {
    ValidParam(p, d.unit, d.size);
    hide Place, ValidateParam, StripUnits, SticksOut, StripExtents;
  }

  /** famfs_file_alloc; small files of interleaved sessions are allocated from the start of the device. */
  ghost function Answer(d: Device, p: Param, used: set<int>, cur: nat, size: nat, order: seq<nat>): Outcome
    requires d.unit > 0
  {
    var rc := ValidateParam(p, d.unit, d.size);
    if p == Param(0, 0, 0) then Contiguous(d, used, cur, size)
    else if rc != 0 then Refused(rc, cur)
    else if size < p.chunkSize then Contiguous(d, used, 0, size)
    else Striped(d, p, used, cur, size, order)
  }
}
