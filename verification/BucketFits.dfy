/** Which buckets give a strip, and when a strip leaves its bucket, the device or the bitmap (src/famfs_alloc.c). */
module BucketFits {
  import opened Arith
  import opened Common
  import opened Units
  import opened Strided
  import opened Buckets

  /** Buckets that lie in the device, and strips of at least one unit. */
  ghost predicate Regular(g: Grid, nbuckets: nat) {
    0 < g.bucket && 0 < g.n && nbuckets * g.bucket <= g.nbits <= g.cap && g.nbits + g.n < U64
  }

  lemma BucketInside(g: Grid, nbuckets: nat, b: nat)
    requires Regular(g, nbuckets) && b < nbuckets
    ensures b * g.bucket + g.bucket <= g.nbits
  {
    MulMonotone(b + 1, nbuckets, g.bucket);
    MulDistributes(b, 1, g.bucket);
  }

  ghost predicate Roomy(g: Grid, used: set<int>, b: nat) {
    Fits(used, b * g.bucket, b * g.bucket + g.bucket, g.n)
  }

  /** With these units in use, the search of bucket `b` returns a run outside the bucket. */
  ghost predicate Escapes(g: Grid, used: set<int>, b: nat) {
    var start, end := b * g.bucket, b * g.bucket + g.bucket;
    !Fits(used, start, end, g.n) && Walled(used, start, end, g.n) && exists k :: end < k < g.nbits && Free(used, k, g.n)
  }

  /** With these units in use, the search of bucket `b` returns a run that ends past `limit`. */
  ghost predicate Leaves(g: Grid, used: set<int>, b: nat, limit: nat) {
    Protrudes(used, g.nbits, b * g.bucket, g.bucket, g.n, limit)
  }

  /** What the search of a bucket returns; the lowest run of a bucket that has room. */
  ghost function OwnRun(g: Grid, used: set<int>, b: nat): int {
    FirstFit(used, g.nbits, b * g.bucket, g.bucket, g.n)
  }

  /** What one round of the loop does, by the bitmap before it. */
  lemma RoundExact(g: Grid, nbuckets: nat, p: Placed, b: nat)
    requires Regular(g, nbuckets) && b < nbuckets && 0 in p.used && !p.outside
    ensures var t := TryBucket(g, p, b);
      && (t.outside <==> Leaves(g, p.used, b, g.cap))
      && (t == p <==> !Roomy(g, p.used, b) && !Escapes(g, p.used, b))
      && (t != p && !t.outside ==>
          var r := OwnRun(g, p.used, b);
          && t == Placed(p.used + Span(r, g.n), p.strips + [r], false)
          && (r + g.n > g.nbits <==> Leaves(g, p.used, b, g.nbits)))
  {
    BucketInside(g, nbuckets, b);
    EscapeExact(p.used, g.nbits, b * g.bucket, g.bucket, g.n);
    ProtrudesExact(p.used, g.nbits, b * g.bucket, g.bucket, g.n, g.cap);
    ProtrudesExact(p.used, g.nbits, b * g.bucket, g.bucket, g.n, g.nbits);
    hide FirstFit, Protrudes, Fits, Walled, Span, Free;
  }

  /** The loop gets to bucket number `i` of the order. */
  ghost predicate Visits(g: Grid, used: set<int>, order: seq<nat>, want: nat, i: int) {
    0 <= i < |order| && !Over(Place(g, used, order[..i], want), want)
  }

  /** The bitmap when it gets there. */
  ghost function Before(g: Grid, used: set<int>, order: seq<nat>, want: nat, i: int): set<int>
    requires 0 <= i < |order|
  {
    Place(g, used, order[..i], want).used
  }

  /** Round `i` gives a run that ends past the device but inside the bitmap. */
  ghost predicate RoundSticksOut(g: Grid, used: set<int>, order: seq<nat>, want: nat, i: int) {
    && Visits(g, used, order, want, i)
    && Leaves(g, Before(g, used, order, want, i), order[i], g.nbits)
    && !Leaves(g, Before(g, used, order, want, i), order[i], g.cap)
  }

  ghost predicate RoundLeavesBitmap(g: Grid, used: set<int>, order: seq<nat>, want: nat, i: int) {
    Visits(g, used, order, want, i) && Leaves(g, Before(g, used, order, want, i), order[i], g.cap)
  }

  /** A search leaves the bitmap exactly when it does in the round of some bucket that the loop gets to. */
  lemma {:induction false} OutsideExact(g: Grid, nbuckets: nat, used: set<int>, order: seq<nat>, want: nat)
    requires Regular(g, nbuckets) && 0 in used && (forall i :: 0 <= i < |order| ==> order[i] < nbuckets)
    ensures Place(g, used, order, want).outside <==> exists i :: RoundLeavesBitmap(g, used, order, want, i)
    decreases |order|
  {
    hide Regular, Leaves, TryBucket;
    if order != [] {
      var last, rest := |order| - 1, order[..|order| - 1];
      OutsideExact(g, nbuckets, used, rest, want);
      KeepsSuperblock(g, used, rest, want);
      assert forall i :: 0 <= i < last ==> rest[..i] == order[..i] && rest[i] == order[i];
      assert order[..last] == rest;
      if !Over(Place(g, used, rest, want), want) {
        RoundExact(g, nbuckets, Place(g, used, rest, want), order[last]);
        assert RoundLeavesBitmap(g, used, order, want, last) <==> Place(g, used, order, want).outside;
      }
      assert forall i :: i < last ==>
        (RoundLeavesBitmap(g, used, rest, want, i) <==> RoundLeavesBitmap(g, used, order, want, i));
    }
  }

  lemma KeepsSuperblock(g: Grid, used: set<int>, order: seq<nat>, want: nat)
    requires 0 in used
    ensures 0 in Place(g, used, order, want).used
  {
    PlaceApart(g, used, order, want);
  }

  ghost predicate SticksOut(g: Grid, p: Placed, j: int) {
    0 <= j < |p.strips| && p.strips[j] + g.n > g.nbits
  }

  /** A strip that was taken sticks out of the device exactly when some round's bitmap makes it. */
  lemma {:induction false} SticksOutExact(g: Grid, nbuckets: nat, used: set<int>, order: seq<nat>, want: nat)
    requires Regular(g, nbuckets) && 0 in used && (forall i :: 0 <= i < |order| ==> order[i] < nbuckets)
    ensures (exists j :: SticksOut(g, Place(g, used, order, want), j)) <==>
            exists i :: RoundSticksOut(g, used, order, want, i)
    decreases |order|
  {
    hide Regular, Leaves, TryBucket;
    if order != [] {
      var last, rest := |order| - 1, order[..|order| - 1];
      var p, t := Place(g, used, rest, want), Place(g, used, order, want);
      SticksOutExact(g, nbuckets, used, rest, want);
      KeepsSuperblock(g, used, rest, want);
      assert forall i :: 0 <= i < last ==> rest[..i] == order[..i] && rest[i] == order[i];
      assert order[..last] == rest;
      PlaceGrows(g, used, order, want);
      assert forall j :: SticksOut(g, p, j) ==> SticksOut(g, t, j);
      if !Over(p, want) {
        NewStrip(g, nbuckets, p, order[last]);
        assert RoundSticksOut(g, used, order, want, last) <==> SticksOut(g, t, |p.strips|);
      }
      assert forall j :: SticksOut(g, t, j) ==> SticksOut(g, p, j) || j == |p.strips|;
      assert forall i :: i < last ==>
        (RoundSticksOut(g, used, rest, want, i) <==> RoundSticksOut(g, used, order, want, i));
    }
  }

  lemma PlaceGrows(g: Grid, used: set<int>, order: seq<nat>, want: nat)
    requires order != []
    ensures Place(g, used, order[..|order| - 1], want).strips <= Place(g, used, order, want).strips
    ensures |Place(g, used, order, want).strips| <= |Place(g, used, order[..|order| - 1], want).strips| + 1
  {
    hide FirstFit;
  }

  /** The strip of one round sticks out exactly when the bitmap before makes it. */
  lemma NewStrip(g: Grid, nbuckets: nat, p: Placed, b: nat)
    requires Regular(g, nbuckets) && b < nbuckets && 0 in p.used && !p.outside
    ensures SticksOut(g, TryBucket(g, p, b), |p.strips|) <==>
            Leaves(g, p.used, b, g.nbits) && !Leaves(g, p.used, b, g.cap)
  {
    RoundExact(g, nbuckets, p, b);
    LeavesMeansEscapes(g, p.used, b, g.nbits);
    hide TryBucket, Leaves, Escapes, Roomy, FirstFit;
  }

  lemma LeavesMeansEscapes(g: Grid, used: set<int>, b: nat, limit: nat)
    ensures Leaves(g, used, b, limit) ==> Escapes(g, used, b)
  {
    hide Fits, Walled;
  }

  // ---------- strips that stay in their buckets ----------

  /** The strips if every bucket gave what it has itself. */
  ghost function Own(g: Grid, used: set<int>, order: seq<nat>, want: nat): Placed {
    if order == [] then Placed(used, [], false)
    else
      var q, b := Own(g, used, order[..|order| - 1], want), order[|order| - 1];
      if Over(q, want) || !Roomy(g, used, b) then q
      else Placed(q.used + Span(OwnRun(g, used, b), g.n), q.strips + [OwnRun(g, used, b)], false)
  }

  lemma OwnRunInside(g: Grid, nbuckets: nat, used: set<int>, b: nat)
    requires Regular(g, nbuckets) && b < nbuckets && Roomy(g, used, b)
    ensures Lowest(used, b * g.bucket, b * g.bucket + g.bucket, g.n, OwnRun(g, used, b))
  {
    BucketInside(g, nbuckets, b);
    EscapeExact(used, g.nbits, b * g.bucket, g.bucket, g.n);
    hide FirstFit;
  }

  lemma WindowsApart(g: Grid, b: nat, c: nat)
    requires b < c
    ensures b * g.bucket + g.bucket <= c * g.bucket
  {
    MulMonotone(b + 1, c, g.bucket);
    MulDistributes(b, 1, g.bucket);
  }

  /** A unit that is in use through some bucket's own strip. */
  ghost predicate OwnUnit(g: Grid, used: set<int>, order: seq<nat>, i: int, k: int) {
    0 <= i < |order| && Roomy(g, used, order[i]) && k in Span(OwnRun(g, used, order[i]), g.n)
  }

  /** Own strips use nothing but own runs of visited buckets, each as a whole. */
  lemma {:induction false} OwnUses(g: Grid, used: set<int>, order: seq<nat>, want: nat, k: int) returns (i: nat)
    requires k in Own(g, used, order, want).used && k !in used
    ensures OwnUnit(g, used, order, i, k) && Own(g, used, order, want).strips != []
    ensures Span(OwnRun(g, used, order[i]), g.n) <= Own(g, used, order, want).used
    decreases |order|
  {
    hide Roomy, OwnRun, Span;
    var last, rest := |order| - 1, order[..|order| - 1];
    if k in Own(g, used, rest, want).used {
      i := OwnUses(g, used, rest, want, k);
    } else {
      i := last;
    }
  }

  lemma {:induction false} OwnKeeps(g: Grid, used: set<int>, order: seq<nat>, want: nat)
    ensures used <= Own(g, used, order, want).used && !Own(g, used, order, want).outside
    ensures |Own(g, used, order, want).strips| <= want
    decreases |order|
  {
    hide Roomy, OwnRun;
    if order != [] {
      OwnKeeps(g, used, order[..|order| - 1], want);
    }
  }

  /** The window of a bucket that was not visited is as it was. */
  lemma OwnWindow(g: Grid, nbuckets: nat, used: set<int>, order: seq<nat>, want: nat, b: nat, k: int)
    requires Regular(g, nbuckets) && (forall i :: 0 <= i < |order| ==> order[i] < nbuckets && order[i] != b)
    requires b * g.bucket <= k < b * g.bucket + g.bucket
    ensures k in Own(g, used, order, want).used <==> k in used
  {
    OwnKeeps(g, used, order, want);
    if k in Own(g, used, order, want).used && k !in used {
      var i := OwnUses(g, used, order, want, k);
      OwnRunInside(g, nbuckets, used, order[i]);
      hide Own, OwnRun, Roomy;
      if order[i] < b {
        WindowsApart(g, order[i], b);
      } else {
        WindowsApart(g, b, order[i]);
      }
    }
  }

  lemma SameWindow(used: set<int>, more: set<int>, start: int, end: int, n: nat)
    requires forall k :: start <= k < end ==> (k in used <==> k in more)
    ensures forall i :: start <= i && i + n <= end ==> (Free(used, i, n) <==> Free(more, i, n))
    ensures Fits(used, start, end, n) <==> Fits(more, start, end, n)
  {
  }

  lemma LowestUnique(used: set<int>, more: set<int>, start: int, end: int, n: nat, r: int, q: int)
    requires forall k :: start <= k < end ==> (k in used <==> k in more)
    requires Lowest(used, start, end, n, r) && Lowest(more, start, end, n, q)
    ensures r == q
  {
    SameWindow(used, more, start, end, n);
  }

  /** In the round of a bucket that was not visited, by the own strips so far. */
  lemma OwnRound(g: Grid, nbuckets: nat, used: set<int>, order: seq<nat>, want: nat, b: nat)
    requires Regular(g, nbuckets) && b < nbuckets && 0 in used
    requires forall i :: 0 <= i < |order| ==> order[i] < nbuckets && order[i] != b
    ensures var q := Own(g, used, order, want);
      && (Roomy(g, q.used, b) <==> Roomy(g, used, b))
      && (Roomy(g, used, b) ==> OwnRun(g, q.used, b) == OwnRun(g, used, b) && !Leaves(g, q.used, b, g.cap))
  {
    var q, start, end := Own(g, used, order, want), b * g.bucket, b * g.bucket + g.bucket;
    forall k | start <= k < end
      ensures k in used <==> k in q.used
    {
      OwnWindow(g, nbuckets, used, order, want, b, k);
    }
    SameWindow(used, q.used, start, end, g.n);
    hide Own, OwnRun;
    if Roomy(g, used, b) {
      OwnRunInside(g, nbuckets, used, b);
      OwnRunInside(g, nbuckets, q.used, b);
      LowestUnique(used, q.used, start, end, g.n, OwnRun(g, used, b), OwnRun(g, q.used, b));
    }
  }

  ghost predicate Distinct(order: seq<nat>) {
    forall i, j :: 0 <= i < j < |order| ==> order[i] != order[j]
  }

  ghost predicate BucketList(order: seq<nat>, nbuckets: nat) {
    Distinct(order) && forall i :: 0 <= i < |order| ==> order[i] < nbuckets
  }

  /** Throughout the loop, every strip is in the bucket in whose round it was taken. */
  ghost predicate Stays(g: Grid, used: set<int>, order: seq<nat>, want: nat) {
    forall i :: 0 <= i <= |order| ==> Place(g, used, order[..i], want) == Own(g, used, order[..i], want)
  }

  /** The first strip to leave its bucket leaves it in round `i`, if none did before. */
  ghost predicate WouldEscape(g: Grid, used: set<int>, order: seq<nat>, want: nat, i: int) {
    && 0 <= i < |order| && |Own(g, used, order[..i], want).strips| < want
    && Escapes(g, Own(g, used, order[..i], want).used, order[i])
  }

  lemma OwnNext(g: Grid, used: set<int>, order: seq<nat>, want: nat, i: nat)
    requires i < |order|
    ensures var q, b := Own(g, used, order[..i], want), order[i];
      Own(g, used, order[..i + 1], want) ==
      if Over(q, want) || !Roomy(g, used, b) then q
      else Placed(q.used + Span(OwnRun(g, used, b), g.n), q.strips + [OwnRun(g, used, b)], false)
  {
    assert order[..i + 1][..i] == order[..i];
  }

  lemma PrefixBuckets(order: seq<nat>, nbuckets: nat, i: nat)
    requires BucketList(order, nbuckets) && i <= |order|
    ensures BucketList(order[..i], nbuckets)
    ensures forall j :: 0 <= j < i && i < |order| ==> order[..i][j] != order[i]
  {
  }

  /** One round on top of own strips: the next own strip, or a strip outside the bucket. */
  lemma StayRound(g: Grid, nbuckets: nat, used: set<int>, order: seq<nat>, want: nat, i: nat)
    requires Regular(g, nbuckets) && 0 in used && BucketList(order, nbuckets) && i < |order|
    requires Place(g, used, order[..i], want) == Own(g, used, order[..i], want)
    ensures Place(g, used, order[..i + 1], want) == Own(g, used, order[..i + 1], want)
            <==> !WouldEscape(g, used, order, want, i)
  {
    var p, b := Own(g, used, order[..i], want), order[i];
    PlaceNext(g, used, order, want, i);
    OwnNext(g, used, order, want, i);
    OwnKeeps(g, used, order[..i], want);
    PrefixBuckets(order, nbuckets, i);
    if !Over(p, want) {
      OwnRound(g, nbuckets, used, order[..i], want, b);
      RoundExact(g, nbuckets, p, b);
      RoomyIsNoEscape(g, used, p.used, b);
      hide Place, Own, Regular, Roomy, Escapes, Leaves, BucketList, TryBucket;
    }
  }

  lemma RoomyIsNoEscape(g: Grid, used: set<int>, more: set<int>, b: nat)
    ensures Roomy(g, more, b) ==> !Escapes(g, more, b)
  {
  }

  /** Every strip stays in its bucket exactly when no round, by the bitmap before the call, would let one out. */
  lemma {:induction false} StaysExact(g: Grid, nbuckets: nat, used: set<int>, order: seq<nat>, want: nat)
    requires Regular(g, nbuckets) && 0 in used && BucketList(order, nbuckets)
    ensures Stays(g, used, order, want) <==> forall i :: !WouldEscape(g, used, order, want, i)
  {
    hide Place, Own, Regular, BucketList, WouldEscape;
    if forall i :: !WouldEscape(g, used, order, want, i) {
      forall i | 0 <= i <= |order|
        ensures Place(g, used, order[..i], want) == Own(g, used, order[..i], want)
      {
        StaysUpTo(g, nbuckets, used, order, want, i);
      }
    } else {
      var i :| WouldEscape(g, used, order, want, i);
      assert 0 <= i < |order| by {
        InOrder(g, used, order, want, i);
      }
      if Stays(g, used, order, want) {
        StayRound(g, nbuckets, used, order, want, i);
      }
    }
  }

  lemma InOrder(g: Grid, used: set<int>, order: seq<nat>, want: nat, i: int)
    requires WouldEscape(g, used, order, want, i)
    ensures 0 <= i < |order|
  {
  }

  lemma {:induction false} StaysUpTo(g: Grid, nbuckets: nat, used: set<int>, order: seq<nat>, want: nat, m: nat)
    requires Regular(g, nbuckets) && 0 in used && BucketList(order, nbuckets) && m <= |order|
    requires forall i :: !WouldEscape(g, used, order, want, i)
    ensures Place(g, used, order[..m], want) == Own(g, used, order[..m], want)
    decreases m
  {
    hide Regular, BucketList, WouldEscape;
    if m == 0 {
      assert order[..0] == [];
    } else {
      hide Place, Own;
      StaysUpTo(g, nbuckets, used, order, want, m - 1);
      StayRound(g, nbuckets, used, order, want, m - 1);
    }
  }

  /** The buckets of an order that have room for a strip, by the bitmap before the call. */
  ghost function RoomyIn(g: Grid, used: set<int>, order: seq<nat>): set<nat> {
    set b | b in order && Roomy(g, used, b)
  }

  lemma {:induction false} OwnCount(g: Grid, used: set<int>, order: seq<nat>, want: nat)
    requires Distinct(order)
    ensures |Own(g, used, order, want).strips| ==
      if |RoomyIn(g, used, order)| < want then |RoomyIn(g, used, order)| else want
    decreases |order|
  {
    hide Roomy, OwnRun;
    if order == [] {
      assert RoomyIn(g, used, order) == {};
    } else {
      var b, rest := order[|order| - 1], order[..|order| - 1];
      OwnCount(g, used, rest, want);
      OwnKeeps(g, used, rest, want);
      assert b !in rest;
      assert RoomyIn(g, used, order) ==
             if Roomy(g, used, b) then RoomyIn(g, used, rest) + {b} else RoomyIn(g, used, rest);
    }
  }

  // ---------- over all shuffles ----------

  /**
   What the bitmap before the call must be for some shuffle to let a strip out of bucket `b`:
   the search of `b` escapes at once, or it does after the next bucket gave a strip at its start.
   */
  ghost predicate AtRisk(g: Grid, nbuckets: nat, used: set<int>, want: nat, b: nat) {
    && b < nbuckets && want >= 1
    && (Escapes(g, used, b) ||
        (&& want >= 2 && b + 1 < nbuckets && Roomy(g, used, b + 1) && OwnRun(g, used, b + 1) == b * g.bucket + g.bucket
         && Escapes(g, used + Span(b * g.bucket + g.bucket, g.n), b)))
  }

  /** A strip can only leave a bucket that is at risk. */
  lemma EscapeMeansRisk(g: Grid, nbuckets: nat, used: set<int>, order: seq<nat>, want: nat, i: nat)
    requires Regular(g, nbuckets) && BucketList(order, nbuckets) && WouldEscape(g, used, order, want, i)
    ensures AtRisk(g, nbuckets, used, want, order[i])
  {
    var q, b := Own(g, used, order[..i], want), order[i];
    var start, end := b * g.bucket, b * g.bucket + g.bucket;
    PrefixBuckets(order, nbuckets, i);
    forall k | start <= k < end
      ensures k in used <==> k in q.used
    {
      OwnWindow(g, nbuckets, used, order[..i], want, b, k);
    }
    OwnKeeps(g, used, order[..i], want);
    hide Own, OwnRun;
    if end in used {
      EscapesFewer(g, used, q.used, b);
    } else {
      assert end in q.used;
      var j := OwnUses(g, used, order[..i], want, end);
      NextBucket(g, nbuckets, used, b, order[j]);
      EscapesFewer(g, used + Span(end, g.n), q.used, b);
    }
  }

  lemma EscapesFewer(g: Grid, used: set<int>, more: set<int>, b: nat)
    requires used <= more && Escapes(g, more, b) && b * g.bucket + g.bucket in used
    requires forall k :: b * g.bucket <= k < b * g.bucket + g.bucket ==> (k in used <==> k in more)
    ensures Escapes(g, used, b)
  {
    SameWindow(used, more, b * g.bucket, b * g.bucket + g.bucket, g.n);
    var k :| b * g.bucket + g.bucket < k < g.nbits && Free(more, k, g.n);
    assert Free(used, k, g.n);
  }

  /** Only the next bucket's own run can hold the first unit past a bucket, and then it starts there. */
  lemma NextBucket(g: Grid, nbuckets: nat, used: set<int>, b: nat, c: nat)
    requires Regular(g, nbuckets) && c < nbuckets && Roomy(g, used, c)
    requires b * g.bucket + g.bucket in Span(OwnRun(g, used, c), g.n)
    ensures c == b + 1 && OwnRun(g, used, c) == b * g.bucket + g.bucket
  {
    OwnRunInside(g, nbuckets, used, c);
    hide OwnRun, Roomy;
    MulDistributes(b, 1, g.bucket);
    if c <= b {
      MulMonotone(c, b, g.bucket);
    } else if c > b + 1 {
      MulMonotone(b + 2, c, g.bucket);
      MulDistributes(b, 2, g.bucket);
    }
  }

  lemma MovedToFront(front: seq<nat>, mid: seq<nat>, back: seq<nat>, first: seq<nat>)
    requires Permutation(first, mid)
    ensures Permutation(first + (front + back), front + mid + back)
  {
  }

  lemma Swapped(b: nat, two: bool) returns (mid: seq<nat>, first: seq<nat>)
    ensures Permutation(first, mid)
    ensures if two then mid == [b, b + 1] && first == [b + 1, b] else mid == first == [b]
  {
    if two {
      mid, first := [b, b + 1], [b + 1, b];
    } else {
      mid, first := [b], [b];
    }
  }

  /** An order that starts with the given one or two buckets. */
  lemma StartWith(nbuckets: nat, b: nat, two: bool) returns (order: seq<nat>)
    requires b < nbuckets && (two ==> b + 1 < nbuckets)
    ensures Permutation(order, Iota(0, nbuckets)) && |order| == nbuckets
    ensures if two then order[..2] == [b + 1, b] else order[..1] == [b]
  {
    var all := Iota(0, nbuckets);
    var front, back := all[..b], all[if two then b + 2 else b + 1..];
    var mid, first := Swapped(b, two);
    assert all == front + mid + back;
    order := first + (front + back);
    hide Permutation, Iota;
    MovedToFront(front, mid, back, first);
  }

  lemma PermutationIsList(order: seq<nat>, nbuckets: nat)
    requires Permutation(order, Iota(0, nbuckets))
    ensures BucketList(order, nbuckets) && |order| == nbuckets && forall b: nat :: b in order <==> b < nbuckets
  {
    VisitsOnce(order, 0, nbuckets);
    hide Permutation;
    assert forall i :: 0 <= i < |order| ==> order[i] in order;
  }

  lemma RiskHappens(g: Grid, nbuckets: nat, used: set<int>, want: nat, b: nat) returns (order: seq<nat>)
    requires Regular(g, nbuckets) && 0 in used && AtRisk(g, nbuckets, used, want, b)
    ensures Permutation(order, Iota(0, nbuckets)) && !Stays(g, used, order, want)
  {
    var two := !Escapes(g, used, b);
    order := StartWith(nbuckets, b, two);
    PermutationIsList(order, nbuckets);
    hide Escapes, OwnRun, Roomy;
    if two {
      OwnNext(g, used, order, want, 0);
      assert order[..0] == [] && order[..2][0] == order[0] && order[..2][1] == order[1];
      assert Own(g, used, order[..1], want).used == used + Span(b * g.bucket + g.bucket, g.n);
      assert WouldEscape(g, used, order, want, 1);
    } else {
      assert order[..0] == [] && order[..1][0] == order[0];
      assert WouldEscape(g, used, order, want, 0);
    }
    StaysExact(g, nbuckets, used, order, want);
  }

  /**
   Whether a strided allocation can leave a bucket, for some shuffle, is decided by the bitmap
   before the call: exactly if some bucket is at risk.
   */
  lemma ShuffleExact(g: Grid, nbuckets: nat, used: set<int>, want: nat)
    requires Regular(g, nbuckets) && 0 in used
    ensures (exists order :: Permutation(order, Iota(0, nbuckets)) && !Stays(g, used, order, want)) <==>
            exists b :: AtRisk(g, nbuckets, used, want, b)
  {
    hide Regular, Stays, AtRisk, WouldEscape, Permutation;
    if order :| Permutation(order, Iota(0, nbuckets)) && !Stays(g, used, order, want) {
      PermutationIsList(order, nbuckets);
      StaysExact(g, nbuckets, used, order, want);
      var i :| WouldEscape(g, used, order, want, i);
      InOrder(g, used, order, want, i);
      EscapeMeansRisk(g, nbuckets, used, order, want, i);
    }
    if b :| AtRisk(g, nbuckets, used, want, b) {
      var order := RiskHappens(g, nbuckets, used, want, b);
    }
  }

  /** The buckets of the device that have room for a strip. */
  ghost function RoomyBuckets(g: Grid, nbuckets: nat, used: set<int>): set<nat> {
    set b: nat | b < nbuckets && Roomy(g, used, b)
  }

  /**
   With no bucket at risk, no shuffle lets a strip out of its bucket, the device or the bitmap,
   and every shuffle takes the same number of strips: as many as wanted, or one per bucket with room.
   */
  lemma NoRiskOutcome(g: Grid, nbuckets: nat, used: set<int>, want: nat, order: seq<nat>)
    requires Regular(g, nbuckets) && 0 in used && Permutation(order, Iota(0, nbuckets))
    requires forall b :: !AtRisk(g, nbuckets, used, want, b)
    ensures var p, roomy := Place(g, used, order, want), |RoomyBuckets(g, nbuckets, used)|;
      !p.outside && !(exists j :: SticksOut(g, p, j)) && |p.strips| == if roomy < want then roomy else want
  {
    hide AtRisk, Permutation;
    ShuffleExact(g, nbuckets, used, want);
    assert Stays(g, used, order, want);
    assert order[..|order|] == order;
    PermutationIsList(order, nbuckets);
    OwnCount(g, used, order, want);
    OwnKeeps(g, used, order, want);
    assert RoomyIn(g, used, order) == RoomyBuckets(g, nbuckets, used);
    hide Place, Stays;
    StripsInside(g, nbuckets, used, order, want);
  }

  lemma {:induction false} StripsInside(g: Grid, nbuckets: nat, used: set<int>, order: seq<nat>, want: nat)
    requires Regular(g, nbuckets) && BucketList(order, nbuckets)
    ensures forall j :: !SticksOut(g, Own(g, used, order, want), j)
    decreases |order|
  {
    hide Roomy, OwnRun;
    if order != [] {
      var b := order[|order| - 1];
      PrefixBuckets(order, nbuckets, |order| - 1);
      StripsInside(g, nbuckets, used, order[..|order| - 1], want);
      var q := Own(g, used, order[..|order| - 1], want);
      assert forall j :: !SticksOut(g, q, j);
      var t := Own(g, used, order, want);
      assert forall j :: SticksOut(g, t, j) && j < |q.strips| ==> SticksOut(g, q, j);
      if Roomy(g, used, b) {
        OwnRunInside(g, nbuckets, used, b);
        BucketInside(g, nbuckets, b);
        assert !SticksOut(g, t, |q.strips|);
      }
    }
  }

  lemma NoRiskPlaces(g: Grid, nbuckets: nat, used: set<int>, want: nat, order: seq<nat>)
    requires Regular(g, nbuckets) && 0 in used && Permutation(order, Iota(0, nbuckets))
    requires forall b :: !AtRisk(g, nbuckets, used, want, b)
    ensures BucketList(order, nbuckets) && Place(g, used, order, want) == Own(g, used, order, want)
  {
    hide AtRisk, Permutation, Regular, Place, Own;
    ShuffleExact(g, nbuckets, used, want);
    assert Stays(g, used, order, want);
    assert order[..|order|] == order;
    PermutationIsList(order, nbuckets);
  }

  /** A bucket that gave no strip had no room, unless enough strips had been taken before its turn. */
  ghost predicate Passed(g: Grid, used: set<int>, order: seq<nat>, want: nat, places: seq<nat>) {
    forall i :: 0 <= i < |order| && i !in places && (|places| < want || exists j :: j in places && i < j) ==>
      !Roomy(g, used, order[i])
  }

  /** Own strips come from different buckets, in order. */
  lemma {:induction false} OwnPlaces(g: Grid, nbuckets: nat, used: set<int>, order: seq<nat>, want: nat)
    returns (places: seq<nat>)
    requires Regular(g, nbuckets) && BucketList(order, nbuckets)
    ensures var strips := Own(g, used, order, want).strips;
      && |places| == |strips|
      && (forall j :: 0 <= j < |places| ==> places[j] < |order| && InWindow(g, strips[j], order[places[j]]))
      && (forall i, j :: 0 <= i < j < |places| ==> places[i] < places[j])
      && Passed(g, used, order, want, places)
    decreases |order|
  {
    hide Roomy, OwnRun, Regular, InWindow, BucketList, Passed;
    if order == [] {
      places := [];
      NonePassed(g, used, want);
    } else {
      var last, rest := |order| - 1, order[..|order| - 1];
      PrefixBuckets(order, nbuckets, last);
      var before := OwnPlaces(g, nbuckets, used, rest, want);
      var q := Own(g, used, rest, want);
      LastBucket(order, nbuckets);
      if !Over(q, want) && Roomy(g, used, order[last]) {
        OwnInWindow(g, nbuckets, used, order[last]);
        places := before + [last];
      } else {
        places := before;
        NotOutside(g, used, rest, want);
      }
      PassedNext(g, used, order, want, before, places);
    }
  }

  lemma NonePassed(g: Grid, used: set<int>, want: nat)
    ensures Passed(g, used, [], want, [])
  {
  }

  lemma LastBucket(order: seq<nat>, nbuckets: nat)
    requires order != [] && BucketList(order, nbuckets)
    ensures order[|order| - 1] < nbuckets
  {
  }

  lemma {:induction false} NotOutside(g: Grid, used: set<int>, order: seq<nat>, want: nat)
    ensures !Own(g, used, order, want).outside
    decreases |order|
  {
    hide Roomy, OwnRun;
    if order != [] {
      NotOutside(g, used, order[..|order| - 1], want);
    }
  }

  lemma PassedNext(g: Grid, used: set<int>, order: seq<nat>, want: nat, before: seq<nat>, places: seq<nat>)
    requires order != [] && Passed(g, used, order[..|order| - 1], want, before)
    requires forall j :: j in before ==> j < |order| - 1
    requires var last := |order| - 1;
      || (places == before + [last] && |before| < want)
      || (places == before && (|before| >= want || !Roomy(g, used, order[last])))
    ensures Passed(g, used, order, want, places)
  {
    hide Roomy;
    var last, rest := |order| - 1, order[..|order| - 1];
    forall i | 0 <= i < |order| && i !in places && (|places| < want || exists j :: j in places && i < j)
      ensures !Roomy(g, used, order[i])
    {
      if i < last {
        assert rest[i] == order[i] && i !in before;
        if places == before && |places| >= want {
          var j :| j in places && i < j;
        }
      }
    }
  }

  /** A run lies in bucket `b`. */
  predicate InWindow(g: Grid, r: int, b: nat) {
    0 <= b * g.bucket <= r && r + g.n <= b * g.bucket + g.bucket
  }

  lemma OwnInWindow(g: Grid, nbuckets: nat, used: set<int>, b: nat)
    requires Regular(g, nbuckets) && b < nbuckets && Roomy(g, used, b)
    ensures InWindow(g, OwnRun(g, used, b), b)
  {
    OwnRunInside(g, nbuckets, used, b);
    MulMonotone(0, b, g.bucket);
    hide OwnRun;
  }
}
