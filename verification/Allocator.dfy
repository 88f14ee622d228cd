/** The allocator's operations on the byte-array bitmap (src/famfs_alloc.c). */
module Allocator {
  import opened Arith
  import opened Bitmap
  import opened Common
  import opened Units

  /**
   set_extent_in_bitmap: marks the units of an extent. A unit that was already marked is an
   error; every other unit adds to the sum of allocated bytes.
   */
  method SetExtent(bitmap: array<bv8>, unit: nat, offset: nat, len: nat, allocSum: int)
    returns (errors: nat, sum: int)
    requires unit > 0 && offset % unit == 0
    requires offset / unit + CeilDiv(len, unit) <= 8 * bitmap.Length
    modifies bitmap
    ensures var span := Span(offset / unit, CeilDiv(len, unit));
      && Used(bitmap[..]) == old(Used(bitmap[..])) + span
      && errors == Overlap(old(Used(bitmap[..])), span)
      && sum == allocSum + Bytes(unit, CeilDiv(len, unit) - errors)
  {
    hide Used, Span, CeilDiv, Overlap, Bytes;
    errors, sum := MarkUnits(bitmap, unit, offset / unit, CeilDiv(len, unit), allocSum);
  }

  method MarkUnits(bitmap: array<bv8>, unit: nat, page: nat, np: nat, allocSum: int) returns (errors: nat, sum: int)
    requires page + np <= 8 * bitmap.Length
    modifies bitmap
    ensures Used(bitmap[..]) == old(Used(bitmap[..])) + Span(page, np)
    ensures errors == Overlap(old(Used(bitmap[..])), Span(page, np))
    ensures sum == allocSum + Bytes(unit, np - errors)
  {
    hide Used, Span, Overlap, Bytes;
    errors, sum := 0, allocSum;
    ghost var was, added := Used(bitmap[..]), 0;
    NothingYet(unit, was, page);
    for k := page to page + np
      invariant Used(bitmap[..]) == was + Span(page, k - page)
      invariant errors == Overlap(was, Span(page, k - page)) && added == k - page - errors
      invariant sum == allocSum + Bytes(unit, added)
    {
      var rc := TestAndSet(bitmap, k);
      SpanNext(page, k - page);
      OverlapNext(was, Span(page, k - page), k);
      if rc == 0 {
        errors := errors + 1;
      } else {
        BytesNext(unit, added);
        sum, added := sum + unit, added + 1;
      }
    }
  }

  function Bytes(unit: nat, units: int): int {
    unit * units
  }

  lemma BytesNext(unit: nat, units: nat)
    ensures Bytes(unit, units + 1) == Bytes(unit, units) + unit
  {
    MulDistributes(units, 1, unit);
  }

  lemma NothingYet(unit: nat, was: set<int>, page: nat)
    ensures Bytes(unit, 0) == 0 && Overlap(was, Span(page, 0)) == 0 && was + Span(page, 0) == was
  {
    assert was * Span(page, 0) == {};
  }

  ghost function Overlap(was: set<int>, span: set<int>): nat {
    |was * span|
  }

  lemma OverlapNext(was: set<int>, span: set<int>, k: int)
    requires k !in span
    ensures Overlap(was, span + {k}) == Overlap(was, span) + if k in was then 1 else 0
  {
    assert was * (span + {k}) == if k in was then was * span + {k} else was * span;
  }

  /**
   bitmap_alloc_contiguous. `outside` stands for what the source does not check: the search
   reads a unit past the end of the bitmap. It does so exactly when the run that it is about to
   return does not end inside the bitmap, and before it marks anything.
   */
  method AllocContiguous(bitmap: array<bv8>, nbits: nat, unit: nat, allocSize: nat, curPos: nat, rangeSize: nat)
    returns (offset: int, pos: nat, outside: bool)
    requires unit > 0 && nbits <= 8 * bitmap.Length <= U32
    modifies bitmap
    ensures var n := CeilDiv(allocSize, unit);
      var r := FirstFit(old(Used(bitmap[..])), nbits, curPos / unit, Range(nbits, unit, rangeSize), n);
      && (outside <==> r != -1 && r + n > 8 * bitmap.Length)
      && (outside || r == -1 ==> offset == -1 && pos == curPos && bitmap[..] == old(bitmap[..]))
      && (!outside && r != -1 ==>
          offset == r * unit && pos == (r + n) * unit && Used(bitmap[..]) == old(Used(bitmap[..])) + Span(r, n))
  {
    hide Used, Span, CeilDiv, Range, FirstFit;
    var n := CeilDiv(allocSize, unit);
    var r;
    r, outside := TakeRun(bitmap, nbits, curPos / unit, Range(nbits, unit, rangeSize), n);
    if r == -1 {
      return -1, curPos, outside;
    }
    return r * unit, (r + n) * unit, false;
  }

  /** The same in units. */
  method TakeRun(bitmap: array<bv8>, nbits: nat, start: nat, range: nat, n: nat) returns (r: int, outside: bool)
    requires nbits <= 8 * bitmap.Length <= U32
    modifies bitmap
    ensures var fit := FirstFit(old(Used(bitmap[..])), nbits, start, range, n);
      && (outside <==> fit != -1 && fit + n > 8 * bitmap.Length) && r == (if outside then -1 else fit)
      && (r == -1 ==> bitmap[..] == old(bitmap[..]))
      && (r != -1 ==> r >= 0 && Used(bitmap[..]) == old(Used(bitmap[..])) + Span(r, n))
  {
    FirstFitIsScan(Used(bitmap[..]), nbits, start, range, n);
    hide Used, Span, FirstFit, Scan, Free;
    r, outside := Search(bitmap, nbits, start + range, n, start);
    if r != -1 {
      MarkRun(bitmap, r, n);
    }
  }

  lemma FirstFitIsScan(used: set<int>, nbits: nat, start: nat, range: nat, n: nat)
    ensures FirstFit(used, nbits, start, range, n) == Scan(used, nbits, start + range, n, start)
  {
  }

  /** The loops that look for a run. */
  method Search(bitmap: array<bv8>, nbits: nat, end: nat, n: nat, start: nat) returns (r: int, outside: bool)
    requires nbits <= 8 * bitmap.Length
    ensures var scan := Scan(Used(bitmap[..]), nbits, end, n, start);
      && (outside <==> scan != -1 && scan + n > 8 * bitmap.Length)
      && r == if outside then -1 else scan
  {
    hide Used, Scan, Free;
    ghost var used := Used(bitmap[..]);
    var i := start;
    while i < nbits
      invariant start <= i
      invariant Scan(used, nbits, end, n, start) == Scan(used, nbits, end, n, i)
      decreases nbits - i
    {
      ScanStep(used, nbits, end, n, i);
      if !Test(bitmap, i) {
        if n > (end - i) % U64 {
          return -1, false;
        }
        var free, past := RunIsFree(bitmap, i, n);
        if past {
          return -1, true;
        }
        if free {
          return i, false;
        }
      }
      i := i + 1;
    }
    ScanStep(used, nbits, end, n, i);
    return -1, false;
  }

  /** One round of the scan. */
  lemma ScanStep(used: set<int>, nbits: nat, end: nat, n: nat, i: nat)
    ensures Scan(used, nbits, end, n, i) ==
      if i >= nbits then -1
      else if i in used then Scan(used, nbits, end, n, i + 1)
      else if n > (end - i) % U64 then -1
      else if Free(used, i, n) then i
      else Scan(used, nbits, end, n, i + 1)
  {
    hide Free;
  }

  /** The number of units in the window: the whole bitmap if no range is given. */
  function Range(nbits: nat, unit: nat, rangeSize: nat): nat
    requires unit > 0
  {
    if rangeSize == 0 then nbits else CeilDiv(rangeSize, unit)
  }

  /** The inner loop. It runs past the bitmap exactly when everything from `i` to its end is free. */
  method RunIsFree(bitmap: array<bv8>, i: nat, n: nat) returns (free: bool, past: bool)
    ensures free <==> Free(Used(bitmap[..]), i, n) && i + n <= 8 * bitmap.Length
    ensures past <==> Free(Used(bitmap[..]), i, n) && i + n > 8 * bitmap.Length
  {
    assert forall k :: k in Used(bitmap[..]) ==> k < 8 * bitmap.Length;
    hide Used;
    for j := i to i + n
      invariant forall k :: i <= k < j ==> k !in Used(bitmap[..])
      invariant n > 0 && j > i ==> j <= 8 * bitmap.Length
    {
      if j >= 8 * bitmap.Length {
        return false, true;
      }
      if Test(bitmap, j) {
        return false, false;
      }
    }
    return i + n <= 8 * bitmap.Length, i + n > 8 * bitmap.Length;
  }

  method MarkRun(bitmap: array<bv8>, i: nat, n: nat)
    requires i + n <= 8 * bitmap.Length && i + n <= U32
    modifies bitmap
    ensures Used(bitmap[..]) == old(Used(bitmap[..])) + Span(i, n)
  {
    hide Used, Span;
    for j := i to i + n
      invariant Used(bitmap[..]) == old(Used(bitmap[..])) + Span(i, j - i)
    {
      assert j % U32 == j;
      Set32(bitmap, j);
      SpanNext(i, j - i);
    }
  }

  /** bitmap_free_contiguous: false stands for one of its assertions. */
  method FreeContiguous(bitmap: array<bv8>, nbits: nat, unit: nat, offset: nat, len: nat) returns (ok: bool)
    requires unit > 0 && nbits <= 8 * bitmap.Length
    modifies bitmap
    ensures var run := Span(offset / unit, CeilDiv(len, unit));
      && (ok <==>
          && offset / unit + CeilDiv(len, unit) <= nbits && offset % unit == 0
          && run <= old(Used(bitmap[..])))
      && (ok ==> Used(bitmap[..]) == old(Used(bitmap[..])) - run)
  {
    hide Used, Span, CeilDiv;
    var start, n := offset / unit, CeilDiv(len, unit);
    ghost var used := Used(bitmap[..]);
    if start + n > nbits || offset % unit != 0 {
      return false;
    }
    for i := start to start + n
      invariant Used(bitmap[..]) == used - Span(start, i - start) && Span(start, i - start) <= used
    {
      assert i in Span(start, n);
      SpanNext(start, i - start);
      var rc := TestAndClear(bitmap, i);
      if rc == 0 {
        return false;
      }
    }
    return true;
  }
}
