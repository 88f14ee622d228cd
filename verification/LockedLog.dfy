/** famfs_file_alloc and what it calls, on the in-memory bitmap of a locked-log session (src/famfs_alloc.c). */
module LockedLog {
  import opened Arith
  import opened Common
  import opened Bitmap
  import opened Units
  import opened Meta
  import opened Allocator
  import opened Rebuild
  import opened Buckets
  import opened Strided
  import opened BucketFits
  import opened FileAlloc

  const NoExtent := Extent(0, 0, 0)

  /** What a request ends in: a map, an error number, or the end of the process. */
  datatype Result = Ok(fmap: Fmap) | Error(rc: int) | Halt(why: Stop)

  class Session {
    const unit: nat
    const devsize: nat
    const param: Param
    const nbits: nat
    var bitmap: array<bv8>
    var curPos: nat

    ghost predicate Valid()
      reads this, bitmap
    {
      && unit == FAMFS_ALLOC_UNIT && nbits == CeilDiv(devsize, unit)
      && 8 * bitmap.Length == Capacity(nbits) <= U32 && 0 in Used(bitmap[..])
    }

    ghost function InUse(): set<int>
      reads this, bitmap
    {
      Used(bitmap[..])
    }

    ghost function Dev(): Device
      reads this, bitmap
    {
      Device(unit, devsize, nbits, 8 * bitmap.Length)
    }

    /** A session whose first request has just made famfs_file_alloc build the bitmap. */
    constructor (log: seq<Slot>, logLen: nat, devsize: nat, param: Param)
      requires Capacity(CeilDiv(devsize, FAMFS_ALLOC_UNIT)) <= U32
      requires InDevice(FAMFS_ALLOC_UNIT, Capacity(CeilDiv(devsize, FAMFS_ALLOC_UNIT)), Regions(logLen, log))
      ensures Valid() && fresh(bitmap) && curPos == 0 && this.devsize == devsize && this.param == param
      ensures Used(bitmap[..]) == MarkAll(unit, Blank, Regions(logLen, log)).used
    {
      hide MarkAll, CeilDiv, Disjoint, Demand, Capacity, Used;
      var built, units, errors, fsizeTotal, allocSum := BuildBitmap(log, logLen, FAMFS_ALLOC_UNIT, devsize);
      SuperblockMarked(FAMFS_ALLOC_UNIT, logLen, log);
      this.unit := FAMFS_ALLOC_UNIT;
      this.devsize := devsize;
      this.param := param;
      this.nbits := units;
      this.bitmap := built;
      this.curPos := 0;
    }

    /** famfs_file_alloc_contiguous */
    method AllocFile(size: nat) returns (result: Result)
      requires Valid()
      modifies this`curPos, bitmap
      ensures Answers(result, Contiguous(old(Dev()), old(Used(bitmap[..])), old(curPos), size))
    {
      hide Used, Span, CeilDiv, FirstFit, Capacity;
      var offset, pos, outside := AllocContiguous(bitmap, nbits, unit, size, curPos, 0);
      curPos := pos;
      if outside {
        return Halt(OutsideBitmap);
      }
      if offset < 0 {
        return Error(-ENOMEM);
      }
      return Ok(Simple([Extent(0, offset, RoundToAllocUnit(size))]));
    }

    ghost predicate Matches(g: Grid)
      reads this, bitmap
    {
      Valid() && g.nbits == nbits && g.cap == 8 * bitmap.Length
    }

    /** One round of the loop: try to take a strip from bucket `b`. */
    method TryStrip(b: nat, bucket: nat, n: nat, ghost g: Grid, ghost p: Placed) returns (offset: int, outside: bool)
      requires Matches(g) && g.bucket == bucket && g.n == n && Used(bitmap[..]) == p.used && !p.outside
      modifies bitmap
      ensures var t := TryBucket(g, p, b);
        && Matches(g) && Used(bitmap[..]) == t.used && outside == t.outside
        && (if offset > 0 then t.strips == p.strips + [offset / unit] && offset == (offset / unit) * unit
            else t.strips == p.strips)
      ensures offset > 0 ==> offset / unit > 0
    {
      hide Used, Span, CeilDiv, FirstFit, Capacity;
      UnitMultiple(unit, n);
      UnitMultiple(unit, b * bucket);
      UnitMultiple(unit, bucket);
      var pos;
      offset, pos, outside := AllocContiguous(bitmap, nbits, unit, n * unit, b * bucket * unit, bucket * unit);
      if offset >= 0 {
        ghost var r := FirstFit(p.used, nbits, b * bucket, Window(g), n);
        UnitMultiple(unit, r);
      }
    }

    /** The first strips of the array are those that were taken; the others are zero. */
    ghost predicate Holding(strips: array<Extent>, rs: seq<int>, n: nat)
      reads strips
    {
      && |rs| <= strips.Length == FAMFS_MAX_SIMPLE_EXTENTS
      && (forall j :: 0 <= j < |rs| ==> rs[j] > 0 && strips[j] == Extent(0, rs[j] * unit, n * unit))
      && (forall j :: |rs| <= j < strips.Length ==> strips[j] == NoExtent)
    }

    lemma Filled(strips: array<Extent>, rs: seq<int>, n: nat)
      requires Holding(strips, rs, n)
      ensures strips[..|rs|] == StripExtents(unit, rs, n)
    {
    }

    /** The loop over the buckets. It ends early when it would read or write outside an array. */
    method TakeStrips(bs: BucketSeries, bucket: nat, n: nat, strips: array<Extent>, ghost g: Grid)
      returns (count: nat, stop: Option<Stop>, ghost p: Placed)
      requires Matches(g) && g.bucket == bucket && g.n == n && bs.current == 0
      requires bs.buckets.Length == param.nbuckets && 0 < param.nstrips
      requires bitmap as object != strips && bitmap as object != bs.buckets && strips as object != bs.buckets
      requires Holding(strips, [], 0)
      modifies bs`current, bitmap, strips
      ensures Matches(g) && Used(bitmap[..]) == p.used
      ensures p == Place(g, old(Used(bitmap[..])), bs.buckets[..], Want(param))
      ensures bs.buckets[..] == old(bs.buckets[..])
      ensures stop == if p.outside then Some(OutsideBitmap)
                      else if |p.strips| > FAMFS_MAX_SIMPLE_EXTENTS then Some(OutsideStrips) else None
      ensures stop.None? ==> count == |p.strips| <= param.nstrips && Holding(strips, p.strips, n)
    {
      hide Used, TryBucket, Place, Capacity, CeilDiv;
      ghost var used, order, want := Used(bitmap[..]), bs.buckets[..], Want(param);
      count, p := 0, Placed(used, [], false);
      PlaceNone(g, used, order, want);
      for i := 0 to param.nbuckets
        invariant Matches(g) && bs.current == i && bs.buckets[..] == order
        invariant count == |p.strips| < want && !p.outside && count <= FAMFS_MAX_SIMPLE_EXTENTS
        invariant Used(bitmap[..]) == p.used && p == Place(g, used, order[..i], want)
        invariant Holding(strips, p.strips, n)
      {
        var b := bs.Next();
        PlaceNext(g, used, order, want, i);
        var offset, outside := TryStrip(b, bucket, n, g, p);
        p := TryBucket(g, p, b);
        if outside {
          PlaceStops(g, used, order, want, i + 1);
          PlaceInBitmap(g, used, order, want);
          return count, Some(OutsideBitmap), p;
        }
        if offset > 0 {
          if count == FAMFS_MAX_SIMPLE_EXTENTS {
            PlaceStops(g, used, order, want, i + 1);
            return count, Some(OutsideStrips), p;
          }
          strips[count] := Extent(0, offset, n * unit);
          count := count + 1;
          if count >= param.nstrips {
            PlaceStops(g, used, order, want, i + 1);
            return count, None, p;
          }
        }
      }
      assert order[..param.nbuckets] == order;
      stop := None;
    }

    /** The rollback: one call per bucket, so the array is left when there are more buckets than strips in it. */
    method Rollback(strips: array<Extent>, ghost used: set<int>, ghost p: Placed, ghost g: Grid)
      returns (stop: Option<Stop>)
      requires Matches(g) && 0 in used && PlacedFrom(used, p, g.n) && Used(bitmap[..]) == p.used
      requires Holding(strips, p.strips, g.n) && |p.strips| <= param.nbuckets && bitmap as object != strips
      modifies bitmap
      ensures stop == if exists j :: SticksOut(g, p, j) then Some(AssertionFails)
                      else if param.nbuckets > FAMFS_MAX_SIMPLE_EXTENTS then Some(OutsideStrips) else None
      ensures stop != Some(AssertionFails) ==> Matches(g) && Used(bitmap[..]) == used
    {
      hide Used, Span, CeilDiv, SpanAll, Apart, Capacity;
      ghost var rs, left := p.strips, p.strips;
      for j := 0 to param.nbuckets
        invariant Matches(g) && Apart(used, left, g.n) && Used(bitmap[..]) == used + SpanAll(left, g.n)
        invariant left == (if j < |rs| then rs[j..] else []) && j <= FAMFS_MAX_SIMPLE_EXTENTS
        invariant forall i :: 0 <= i < j ==> !SticksOut(g, p, i)
      {
        if j >= FAMFS_MAX_SIMPLE_EXTENTS {
          NoStrips(used, g.n);
          return Some(OutsideStrips);
        }
        if left != [] {
          assert left[0] == rs[j];
          FreeFirst(used, left, g.n);
          UnitMultiple(unit, g.n);
          FirstIsUsed(used, left, g.n);
          UnitMultiple(unit, left[0]);
          left := left[1..];
        } else {
          NothingToFree(unit);
        }
        var ok := FreeContiguous(bitmap, nbits, unit, strips[j].offset, strips[j].len);
        if !ok {
          assert SticksOut(g, p, j);
          return Some(AssertionFails);
        }
      }
      NoStrips(used, g.n);
      stop := None;
    }

    /** A strided allocation once the buckets are shuffled and the strip array is zeroed. */
    method FromBuckets(size: nat, bs: BucketSeries, strips: array<Extent>) returns (result: Result)
      requires Valid() && Striping(Dev(), param) && param.nstrips > 0
      requires bs.current == 0 && bs.buckets.Length == param.nbuckets && Holding(strips, [], 0)
      requires bitmap as object != strips && bitmap as object != bs.buckets && strips as object != bs.buckets
      modifies bitmap, strips, bs`current
      ensures Answers(result, Striped(old(Dev()), param, old(Used(bitmap[..])), old(curPos), size, old(bs.buckets[..])))
    {
      hide Used, Place, SpanAll, Apart, StripUnits, ValidateParam, Capacity, CeilDiv, SticksOut, StripExtents;
      hide Striped, PlacedFrom;
      StripedCases(Dev(), param, Used(bitmap[..]), curPos, size, bs.buckets[..]);
      var bucket, n := devsize / unit / param.nbuckets, StripUnits(unit, size, param);
      ghost var used, g, order := Used(bitmap[..]), GridOf(Dev(), param, size), bs.buckets[..];
      var count, stop, p := TakeStrips(bs, bucket, n, strips, g);
      if stop.Some? {
        return Halt(stop.value);
      }
      if count >= param.nstrips {
        Filled(strips, p.strips, n);
        return Ok(Interleaved(param.chunkSize, strips[..count]));
      }
      PlaceApart(g, used, order, Want(param));
      OneEach(g, used, order, Want(param));
      stop := Rollback(strips, used, p, g);
      if stop.Some? {
        return Halt(stop.value);
      }
      SameBytes(bitmap[..], old(bitmap[..]));
      return Error(-ENOMEM);
    }

    /** The part of famfs_file_strided_alloc that takes strips, for any outcomes of rand(). */
    method AllocStrided(size: nat, rand: nat -> nat) returns (result: Result, ghost order: seq<nat>)
      requires Valid() && Striping(Dev(), param)
      modifies bitmap
      ensures Permutation(order, Iota(0, param.nbuckets))
      ensures Answers(result, Striped(old(Dev()), param, old(Used(bitmap[..])), old(curPos), size, order))
    {
      hide Used, Place, StripUnits, ValidateParam, Permutation, Capacity, CeilDiv;
      var bs := new BucketSeries(param.nbuckets, 0, rand);
      order := bs.buckets[..];
      if param.nstrips == 0 {
        return Halt(DividesByZero), order;
      }
      hide Striped;
      var strips := new Extent[FAMFS_MAX_SIMPLE_EXTENTS](_ => NoExtent);
      result := FromBuckets(size, bs, strips);
    }

    /**
     famfs_file_alloc. For every request it ends exactly as the answer says, for some order of the
     buckets: a map and the bitmap with it, a refusal and the bitmap as it was, or a stop.
     */
    method Alloc(size: nat, rand: nat -> nat) returns (result: Result, ghost order: seq<nat>)
      requires Valid()
      modifies this`curPos, bitmap
      ensures Permutation(order, Iota(0, param.nbuckets))
      ensures Answers(result, Answer(old(Dev()), param, old(Used(bitmap[..])), old(curPos), size, order))
    {
      hide Used, Contiguous, Striped, ValidateParam, Capacity, CeilDiv;
      order := Iota(0, param.nbuckets);
      if param == Param(0, 0, 0) {
        result := AllocFile(size);
        return;
      }
      var rc := ValidateParam(param, unit, devsize);
      if rc != 0 {
        return Error(rc), order;
      }
      if size < param.chunkSize {
        curPos := 0;
        result := AllocFile(size);
        return;
      }
      result, order := AllocStrided(size, rand);
    }

    /** The session and the result are what the answer says. */
    twostate predicate Answers(result: Result, a: Outcome)
      requires old(Valid())
      reads this, bitmap
    {
      && bitmap == old(bitmap)
      && match a
         case Granted(fmap, used, cur) => result == Ok(fmap) && Valid() && Used(bitmap[..]) == used && curPos == cur
         case Refused(rc, cur) => result == Error(rc) && Valid() && bitmap[..] == old(bitmap[..]) && curPos == cur
         case Stopped(why) => result == Halt(why)
    }
  }

  lemma PlaceNone(g: Grid, used: set<int>, order: seq<nat>, want: nat)
    ensures Place(g, used, order[..0], want) == Placed(used, [], false)
  {
  }

  lemma {:induction false} OneEach(g: Grid, used: set<int>, order: seq<nat>, want: nat)
    ensures |Place(g, used, order, want).strips| <= |order|
    decreases |order|
  {
    if order != [] {
      OneEach(g, used, order[..|order| - 1], want);
    }
  }

  /** A run that was taken is marked. */
  lemma FirstIsUsed(used: set<int>, rs: seq<int>, n: nat)
    requires rs != [] && Apart(used, rs, n)
    ensures rs[0] > 0 && Span(rs[0], n) <= used + SpanAll(rs, n)
  {
    assert forall k :: k in Span(rs[0], n) ==> k in SpanAll(rs, n);
  }

  lemma NothingToFree(unit: nat)
    requires unit > 0
    ensures CeilDiv(0, unit) == 0 && 0 / unit == 0 && 0 % unit == 0 && Span(0, 0) == {}
  {
    CeilDivCovers(0, unit);
    DivModUnique(0, 0, 0, unit);
  }
}
