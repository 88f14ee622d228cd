/**
 Sets of allocation units, and the first-fit scan of bitmap_alloc_contiguous on them.
 A set of units is unbounded: it says nothing about where the device ends.
 */
module Units {
  import opened Arith
  import opened Common

  function CeilDiv(len: nat, unit: nat): nat
    requires unit > 0
  {
    (len + unit - 1) / unit
  }

  /** The least multiple of the unit that covers the length. */
  lemma CeilDivCovers(len: nat, unit: nat)
    requires unit > 0
    ensures CeilDiv(len, unit) * unit >= len
    ensures CeilDiv(len, unit) * unit < len + unit
    ensures CeilDiv(len, unit) == 0 <==> len == 0
  {
    DivMod(len + unit - 1, unit);
    if len == 0 {
      DivModUnique(unit - 1, 0, unit - 1, unit);
    }
  }

  lemma CeilDivUnique(len: nat, unit: nat, q: nat)
    requires unit > 0 && len <= q * unit < len + unit
    ensures CeilDiv(len, unit) == q
  {
    DivModUnique(len + unit - 1, q, len + unit - 1 - q * unit, unit);
  }

  /** The units [i, i + n). */
  function Span(i: int, n: int): (r: set<int>)
    ensures forall k :: k in r <==> i <= k < i + n
    decreases n
  {
    if n <= 0 then {} else Span(i, n - 1) + {i + n - 1}
  }

  lemma {:induction false} SpanSize(i: int, n: nat)
    ensures |Span(i, n)| == n
  {
    if n == 0 {
      assert Span(i, n) == {};
    } else {
      SpanSize(i, n - 1);
      assert Span(i, n) == Span(i, n - 1) + {i + n - 1};
    }
  }

  lemma SpanNext(i: int, n: nat)
    ensures Span(i, n + 1) == Span(i, n) + {i + n} && i + n !in Span(i, n)
  {
  }

  ghost predicate Free(used: set<int>, i: int, n: int) {
    forall k :: i <= k < i + n ==> k !in used
  }

  /**
   Where bitmap_alloc_contiguous ends up when it looks at unit `i` next: a unit, or -1.
   `end` is start_idx + range_size_nbits, and the subtraction from it wraps.
   */
  ghost function Scan(used: set<int>, nbits: nat, end: nat, n: nat, i: nat): (r: int)
    ensures r == -1 || (i <= r < nbits && r !in used && Free(used, r, n))
    decreases nbits - i
  {
    if i >= nbits then -1
    else if i in used then Scan(used, nbits, end, n, i + 1)
    else if n > (end - i) % U64 then -1
    else if Free(used, i, n) then i
    else Scan(used, nbits, end, n, i + 1)
  }

  /** The scan over the window of `range` units at `start`. */
  ghost function FirstFit(used: set<int>, nbits: nat, start: nat, range: nat, n: nat): (r: int)
    ensures r == -1 || (start <= r < nbits && r !in used && Free(used, r, n))
  {
    Scan(used, nbits, start + range, n, start)
  }

  /** `r` is the lowest start of a free run of `n` units that lies in [start, end). */
  ghost predicate Lowest(used: set<int>, start: int, end: int, n: int, r: int) {
    && start <= r && r + n <= end && Free(used, r, n)
    && forall i :: start <= i < r ==> !Free(used, i, n)
  }

  ghost predicate Fits(used: set<int>, start: int, end: int, n: int) {
    exists i :: start <= i && i + n <= end && Free(used, i, n)
  }

  /** The window ends at the last unit, or the unit just past it is free. */
  ghost predicate Closed(used: set<int>, nbits: nat, end: nat) {
    end == nbits || (end < nbits && end !in used)
  }

  /** Every unit from which a run of `n` would stick out of the window, and the one past it, is taken. */
  ghost predicate Walled(used: set<int>, start: int, end: int, n: int) {
    forall k :: start <= k <= end && end < k + n ==> k in used
  }

  lemma {:induction false} PastWindow(used: set<int>, nbits: nat, end: nat, n: nat, i: nat)
    requires 0 < n && nbits + n < U64 && end < i
    ensures var r := Scan(used, nbits, end, n, i);
      if r == -1 then forall k :: i <= k < nbits ==> !Free(used, k, n)
      else i <= r < nbits && Free(used, r, n) && forall k :: i <= k < r ==> !Free(used, k, n)
    decreases nbits - i
  {
    if i < nbits {
      DivModUnique(end - i, -1, end - i + U64, U64);
      if i in used || !Free(used, i, n) {
        PastWindow(used, nbits, end, n, i + 1);
      }
    }
  }

  lemma {:induction false} WindowFit(used: set<int>, nbits: nat, end: nat, n: nat, i: nat)
    requires 0 < n && nbits < U64 && i <= end <= nbits && Fits(used, i, end, n)
    ensures Lowest(used, i, end, n, Scan(used, nbits, end, n, i))
    decreases nbits - i
  {
    if i in used || !Free(used, i, n) {
      assert !Free(used, i, n);
      WindowFit(used, nbits, end, n, i + 1);
    }
  }

  lemma {:induction false} WindowStuck(used: set<int>, nbits: nat, end: nat, n: nat, i: nat)
    requires 0 < n && nbits < U64 && i <= end <= nbits
    requires !Fits(used, i, end, n) && !Walled(used, i, end, n)
    ensures Scan(used, nbits, end, n, i) == -1
    decreases nbits - i
  {
    if i < nbits && (i in used || n <= end - i) {
      assert !(end < i + n) || i in used;
      WindowStuck(used, nbits, end, n, i + 1);
    }
  }

  lemma {:induction false} WindowWalled(used: set<int>, nbits: nat, end: nat, n: nat, i: nat)
    requires 0 < n && nbits < U64 && i <= end <= nbits
    requires !Fits(used, i, end, n) && Walled(used, i, end, n)
    ensures Scan(used, nbits, end, n, i) == Scan(used, nbits, end, n, end + 1)
    decreases nbits - i
  {
    if i < end {
      WindowWalled(used, nbits, end, n, i + 1);
    }
  }

  /** When a bucket-limited allocation leaves its bucket, and where it then lands. */
  lemma EscapeExact(used: set<int>, nbits: nat, start: nat, range: nat, n: nat)
    requires 0 < n && nbits + n < U64 && start + range <= nbits
    ensures var r, end := FirstFit(used, nbits, start, range, n), start + range;
      && ((r != -1 && r + n <= end) <==> Fits(used, start, end, n))
      && (Fits(used, start, end, n) ==> Lowest(used, start, end, n, r))
      && ((r != -1 && r + n > end) <==>
          (&& !Fits(used, start, end, n) && Walled(used, start, end, n)
           && exists k :: end < k < nbits && Free(used, k, n)))
  {
    var end := start + range;
    if Fits(used, start, end, n) {
      WindowFit(used, nbits, end, n, start);
    } else if Walled(used, start, end, n) {
      WindowWalled(used, nbits, end, n, start);
      PastWindow(used, nbits, end, n, end + 1);
    } else {
      WindowStuck(used, nbits, end, n, start);
    }
  }

  /** A search that leaves its bucket: the bucket and the unit past it are full, the two after that are free. */
  lemma EscapeHappens()
    ensures FirstFit({0, 1, 2, 3, 4}, 12, 0, 4, 2) == 5
  {
    var used := {0, 1, 2, 3, 4};
    EscapeExact(used, 12, 0, 4, 2);
    assert Walled(used, 0, 4, 2) && Free(used, 5, 2) && !Fits(used, 0, 4, 2);
    PastWindow(used, 12, 4, 2, 5);
    WindowWalled(used, 12, 4, 2, 0);
  }

  /** A run of `n` units that starts in the device and ends at or before `limit` is free somewhere in (end, limit]. */
  ghost predicate FitsPast(used: set<int>, nbits: int, end: int, n: int, limit: int) {
    exists k :: end < k < nbits && k + n <= limit && Free(used, k, n)
  }

  /** What a bucket-limited search must find in the bitmap to return a run that ends past `limit`. */
  ghost predicate Protrudes(used: set<int>, nbits: int, start: int, range: int, n: int, limit: int) {
    && !Fits(used, start, start + range, n) && Walled(used, start, start + range, n)
    && (exists k :: start + range < k < nbits && Free(used, k, n))
    && !FitsPast(used, nbits, start + range, n, limit)
  }

  /** When a bucket-limited search runs past the end of the device, or of the bitmap. */
  lemma ProtrudesExact(used: set<int>, nbits: nat, start: nat, range: nat, n: nat, limit: nat)
    requires 0 < n && nbits + n < U64 && start + range <= nbits <= limit
    ensures var r := FirstFit(used, nbits, start, range, n);
      (r != -1 && r + n > limit) <==> Protrudes(used, nbits, start, range, n, limit)
  {
    var end := start + range;
    EscapeExact(used, nbits, start, range, n);
    PastWindow(used, nbits, end, n, end + 1);
    if !Fits(used, start, end, n) && Walled(used, start, end, n) {
      WindowWalled(used, nbits, end, n, start);
    }
    hide Scan, Fits, Walled;
  }

  /** In a closed window the allocation is first fit, complete in both directions. */
  lemma FirstFitExact(used: set<int>, nbits: nat, start: nat, range: nat, n: nat)
    requires 0 < n && nbits + n < U64 && Closed(used, nbits, start + range)
    ensures var r, end := FirstFit(used, nbits, start, range, n), start + range;
      if Fits(used, start, end, n) then Lowest(used, start, end, n, r) else r == -1
  {
    EscapeExact(used, nbits, start, range, n);
  }

  // ---------- the cursor ----------

  lemma {:induction false} OpenScan(used: set<int>, nbits: nat, end: nat, n: nat, i: nat)
    requires 0 < n && end < U64 && nbits <= end
    ensures var r := Scan(used, nbits, end, n, i);
      if r == -1 then forall k :: i <= k < nbits && k + n <= end ==> !Free(used, k, n)
      else Lowest(used, i, end, n, r)
    decreases nbits - i
  {
    if i < nbits && (i in used || (n <= end - i && !Free(used, i, n))) {
      OpenScan(used, nbits, end, n, i + 1);
      assert !Free(used, i, n);
    }
  }

  ghost predicate NoneBefore(used: set<int>, cur: int, n: int) {
    forall i :: 0 <= i < cur ==> !Free(used, i, n)
  }

  /** In-memory bitmap and cur_pos, in units, during a session of contiguous requests. */
  datatype Cursor = Cursor(used: set<int>, cur: nat)

  ghost function Request(s: Cursor, nbits: nat, n: nat): Cursor {
    var r := FirstFit(s.used, nbits, s.cur, nbits, n);
    if r == -1 then s else Cursor(s.used + Span(r, n), r + n)
  }

  ghost function Requests(s: Cursor, nbits: nat, ns: seq<nat>): Cursor {
    if ns == [] then s else Request(Requests(s, nbits, ns[..|ns| - 1]), nbits, ns[|ns| - 1])
  }

  predicate NonDecreasing(ns: seq<nat>) {
    forall i, j :: 0 <= i < j < |ns| ==> ns[i] <= ns[j]
  }

  lemma RequestKeepsNoneBefore(s: Cursor, nbits: nat, n: nat, m: nat)
    requires 0 < n <= m && 4 * nbits < U64 && s.cur <= 2 * nbits && NoneBefore(s.used, s.cur, n)
    ensures NoneBefore(Request(s, nbits, n).used, Request(s, nbits, n).cur, m)
    ensures Request(s, nbits, n).cur <= 2 * nbits
  {
    OpenScan(s.used, nbits, s.cur + nbits, n, s.cur);
    var t := Request(s, nbits, n);
    forall i | 0 <= i < t.cur
      ensures !Free(t.used, i, m)
    {
      assert Free(t.used, i, m) ==> Free(s.used, i, n);
      assert t != s && i >= t.cur - n ==> i in t.used;
    }
  }

  /** What the session has established before its next request, which asks for `n`. */
  lemma {:induction false} RequestsKeepNoneBefore(used: set<int>, nbits: nat, ns: seq<nat>, n: nat)
    requires 4 * nbits < U64 && NonDecreasing(ns + [n]) && (forall i :: 0 <= i < |ns| ==> 0 < ns[i])
    ensures var s := Requests(Cursor(used, 0), nbits, ns); s.cur <= 2 * nbits && NoneBefore(s.used, s.cur, n)
    decreases |ns|
  {
    if ns != [] {
      var last, rest := ns[|ns| - 1], ns[..|ns| - 1];
      assert ns == rest + [last];
      assert (ns + [n])[|ns| - 1] <= (ns + [n])[|ns|];
      assert forall i :: 0 <= i < |ns| ==> (ns + [n])[i] == ns[i];
      assert NonDecreasing(ns);
      RequestsKeepNoneBefore(used, nbits, rest, last);
      RequestKeepsNoneBefore(Requests(Cursor(used, 0), nbits, rest), nbits, last, n);
    }
  }

  /**
   The cursor loses nothing exactly when no run that the request could use starts before it:
   then, and only then, a search from the cursor agrees with a search from the start.
   */
  lemma CursorExact(used: set<int>, nbits: nat, cur: nat, n: nat)
    requires 0 < n && cur + nbits < U64
    ensures var fromStart, fromCur := FirstFit(used, nbits, 0, nbits, n), FirstFit(used, nbits, cur, nbits, n);
      && (fromStart != -1 <==> Fits(used, 0, nbits, n))
      && (fromStart != -1 ==> (fromCur == fromStart <==> !FitsBefore(used, nbits, cur, n)))
  {
    OpenScan(used, nbits, cur + nbits, n, cur);
    OpenScan(used, nbits, nbits, n, 0);
    hide Scan;
  }

  /** A free run of `n` units that lies in the device starts before `cur`. */
  ghost predicate FitsBefore(used: set<int>, nbits: int, cur: int, n: int) {
    exists i :: 0 <= i < cur && i + n <= nbits && Free(used, i, n)
  }

  /**
   Requests of non-decreasing size never leave such a run behind: a search from the cursor
   lands inside the device exactly when a search from the start succeeds, and on the same unit.
   */
  lemma CursorSound(used: set<int>, nbits: nat, ns: seq<nat>, n: nat)
    requires 0 < n && 4 * nbits < U64 && NonDecreasing(ns + [n]) && (forall i :: 0 <= i < |ns| ==> 0 < ns[i])
    ensures var s := Requests(Cursor(used, 0), nbits, ns);
      var fromStart, fromCur := FirstFit(s.used, nbits, 0, nbits, n), FirstFit(s.used, nbits, s.cur, nbits, n);
      && !FitsBefore(s.used, nbits, s.cur, n)
      && (fromStart != -1 <==> fromCur != -1 && fromCur + n <= nbits)
      && (fromStart != -1 ==> fromCur == fromStart)
  {
    RequestsKeepNoneBefore(used, nbits, ns, n);
    hide Requests, NonDecreasing, Scan;
    var s := Requests(Cursor(used, 0), nbits, ns);
    assert !FitsBefore(s.used, nbits, s.cur, n);
    hide NoneBefore, FitsBefore;
    CursorExact(s.used, nbits, s.cur, n);
    OverrunExact(s.used, nbits, s.cur, n, nbits);
    OpenScan(s.used, nbits, s.cur + nbits, n, s.cur);
  }

  /** A smaller request after a larger one skips the holes that the larger one passed over. */
  lemma CursorSkipsHoles()
    ensures var s := Requests(Cursor({0, 2}, 0), 10, [3]);
      FirstFit(s.used, 10, 0, 10, 1) == 1 && FirstFit(s.used, 10, s.cur, 10, 1) == 6
  {
    OpenScan({0, 2}, 10, 10, 3, 0);
    assert Free({0, 2}, 3, 3);
    assert [3][..0] == [];
    var s := Requests(Cursor({0, 2}, 0), 10, [3]);
    assert s.used == {0, 2} + Span(3, 3);
    OpenScan(s.used, 10, 10, 1, 0);
    OpenScan(s.used, 10, 16, 1, 6);
    assert Free(s.used, 1, 1) && Free(s.used, 6, 1) && !Free(s.used, 0, 1);
  }

  /** A run of `n` units that starts in the device, from `cur` on, and ends at or before `limit` is free. */
  ghost predicate FitsFrom(used: set<int>, nbits: int, cur: int, n: int, limit: int) {
    exists k :: cur <= k < nbits && k + n <= limit && Free(used, k, n)
  }

  /** What a search from the cursor must find in the bitmap to return a run that ends past `limit`. */
  ghost predicate Overruns(used: set<int>, nbits: int, cur: int, n: int, limit: int) {
    FitsFrom(used, nbits, cur, n, cur + nbits) && !FitsFrom(used, nbits, cur, n, limit)
  }

  /** When a contiguous allocation runs past the end of the device, or of the bitmap. */
  lemma OverrunExact(used: set<int>, nbits: nat, cur: nat, n: nat, limit: nat)
    requires 0 < n && cur + nbits < U64
    ensures var r := FirstFit(used, nbits, cur, nbits, n);
      (r != -1 && r + n > limit) <==> Overruns(used, nbits, cur, n, limit)
  {
    OpenScan(used, nbits, cur + nbits, n, cur);
    hide Scan;
  }

  /** A session that overruns: ten units, six used, then requests for two units and for four. */
  lemma OverrunHappens()
    ensures var s := Requests(Cursor(Span(0, 6), 0), 10, [2]);
      s.cur == 8 && FirstFit(s.used, 10, s.cur, 10, 4) == 8
  {
    assert Span(0, 6) == {0, 1, 2, 3, 4, 5};
    OpenScan(Span(0, 6), 10, 10, 2, 0);
    assert Free(Span(0, 6), 6, 2);
    assert [2][..0] == [];
    var s := Requests(Cursor(Span(0, 6), 0), 10, [2]);
    assert s.used == Span(0, 6) + Span(6, 2);
    OpenScan(s.used, 10, 18, 4, 8);
    assert Free(s.used, 8, 4);
  }
}
