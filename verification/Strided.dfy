/** Strided allocation over randomly ordered buckets, with rollback (src/famfs_alloc.c). */
module Strided {
  import opened Arith
  import opened Bitmap
  import opened Units

  /** The units of runs of `n` units each. */
  ghost function SpanAll(rs: seq<int>, n: nat): set<int> {
    set i, k | 0 <= i < |rs| && k in Span(rs[i], n) :: k
  }

  lemma SpanAllNext(rs: seq<int>, r: int, n: nat)
    ensures SpanAll(rs + [r], n) == SpanAll(rs, n) + Span(r, n)
  {
    hide Span;
    var all := rs + [r];
    assert forall i :: 0 <= i < |rs| ==> all[i] == rs[i];
    forall k | k in SpanAll(rs, n) + Span(r, n)
      ensures k in SpanAll(all, n)
    {
      if k in Span(r, n) {
        assert k in Span(all[|rs|], n);
      } else {
        var i :| 0 <= i < |rs| && k in Span(rs[i], n);
        assert k in Span(all[i], n);
      }
    }
  }

  /** Runs that share no unit with each other or with `used`. */
  ghost predicate Apart(used: set<int>, rs: seq<int>, n: nat) {
    && (forall i :: 0 <= i < |rs| ==> rs[i] > 0 && Span(rs[i], n) !! used)
    && (forall i, j :: 0 <= i < j < |rs| ==> Span(rs[i], n) !! Span(rs[j], n))
  }

  /** Units of the device and of the bitmap, and of a bucket and a strip. */
  datatype Grid = Grid(nbits: nat, cap: nat, bucket: nat, n: nat)

  /** The units in use, the strips taken, and whether a search left the bitmap, which ends the loop. */
  datatype Placed = Placed(used: set<int>, strips: seq<int>, outside: bool)

  /** The window of a bucket; a range of zero would mean all of the device. */
  function Window(g: Grid): nat {
    if g.bucket == 0 then g.nbits else g.bucket
  }

  /** One round of the loop. A run at unit 0 would be marked but not taken. */
  ghost function TryBucket(g: Grid, p: Placed, b: nat): Placed {
    var r := FirstFit(p.used, g.nbits, b * g.bucket, Window(g), g.n);
    if r == -1 then p
    else if r + g.n > g.cap then p.(outside := true)
    else p.(used := p.used + Span(r, g.n), strips := if r > 0 then p.strips + [r] else p.strips)
  }

  predicate Over(p: Placed, want: nat) {
    |p.strips| >= want || p.outside
  }

  /** The strips that the loop over `order` takes, one per bucket that has room, until it has `want` of them. */
  ghost function Place(g: Grid, used: set<int>, order: seq<nat>, want: nat): Placed {
    if order == [] then Placed(used, [], false)
    else
      var p := Place(g, used, order[..|order| - 1], want);
      if Over(p, want) then p else TryBucket(g, p, order[|order| - 1])
  }

  ghost predicate PlacedFrom(used: set<int>, p: Placed, n: nat) {
    Apart(used, p.strips, n) && p.used == used + SpanAll(p.strips, n)
  }

  /** Because the superblock holds unit 0, every run that is marked is also taken. */
  lemma TryBucketApart(g: Grid, used: set<int>, p: Placed, b: nat)
    requires 0 in used && PlacedFrom(used, p, g.n)
    ensures PlacedFrom(used, TryBucket(g, p, b), g.n)
    ensures p.strips <= TryBucket(g, p, b).strips
  {
    hide Span, SpanAll, Apart;
    var r := FirstFit(p.used, g.nbits, b * g.bucket, Window(g), g.n);
    if r != -1 && r + g.n <= g.cap {
      assert r != 0;
      FreeIsApart(p.used, r, g.n);
      AddRun(used, p, r, g.n);
    }
  }

  lemma FreeIsApart(used: set<int>, r: int, n: nat)
    requires Free(used, r, n)
    ensures Span(r, n) !! used
  {
  }

  lemma AddRun(used: set<int>, p: Placed, r: int, n: nat)
    requires PlacedFrom(used, p, n) && r > 0 && Span(r, n) !! p.used
    ensures PlacedFrom(used, p.(used := p.used + Span(r, n), strips := p.strips + [r]), n)
  {
    hide Span;
    var rs := p.strips + [r];
    SpanAllNext(p.strips, r, n);
    assert forall i :: 0 <= i < |p.strips| ==> Span(p.strips[i], n) <= SpanAll(p.strips, n);
    hide SpanAll;
    assert forall i :: 0 <= i < |p.strips| ==> rs[i] == p.strips[i];
    forall i, j | 0 <= i < j < |rs|
      ensures Span(rs[i], n) !! Span(rs[j], n)
    {
      if j == |p.strips| {
        assert Span(rs[i], n) <= p.used;
      }
    }
  }

  lemma {:induction false} PlaceApart(g: Grid, used: set<int>, order: seq<nat>, want: nat)
    requires 0 in used
    ensures PlacedFrom(used, Place(g, used, order, want), g.n)
    decreases |order|
  {
    hide SpanAll, Apart, TryBucket;
    if order == [] {
      NoStrips(used, g.n);
    } else {
      var rest, last := order[..|order| - 1], order[|order| - 1];
      PlaceApart(g, used, rest, want);
      TryBucketApart(g, used, Place(g, used, rest, want), last);
    }
  }

  /** Every strip ends inside the bitmap. */
  lemma {:induction false} PlaceInBitmap(g: Grid, used: set<int>, order: seq<nat>, want: nat)
    ensures var strips := Place(g, used, order, want).strips;
      forall j :: 0 <= j < |strips| ==> strips[j] + g.n <= g.cap
    ensures |Place(g, used, order, want).strips| <= want
    decreases |order|
  {
    if order != [] {
      PlaceInBitmap(g, used, order[..|order| - 1], want);
    }
  }

  lemma NoStrips(used: set<int>, n: nat)
    ensures PlacedFrom(used, Placed(used, [], false), n)
  {
    assert used + {} == used;
  }

  lemma PlaceNext(g: Grid, used: set<int>, order: seq<nat>, want: nat, i: nat)
    requires i < |order|
    ensures var p := Place(g, used, order[..i], want);
      Place(g, used, order[..i + 1], want) == if Over(p, want) then p else TryBucket(g, p, order[i])
  {
    assert order[..i + 1][..i] == order[..i];
  }

  /** Once the loop is over, the remaining buckets change nothing. */
  lemma {:induction false} PlaceStops(g: Grid, used: set<int>, order: seq<nat>, want: nat, i: nat)
    requires i <= |order| && Over(Place(g, used, order[..i], want), want)
    ensures Place(g, used, order, want) == Place(g, used, order[..i], want)
    decreases |order| - i
  {
    hide TryBucket;
    if i == |order| {
      assert order[..i] == order;
    } else {
      PlaceNext(g, used, order, want, i);
      PlaceStops(g, used, order, want, i + 1);
    }
  }

  /** Taking back the first of several runs that are apart leaves the others. */
  lemma FreeFirst(used: set<int>, rs: seq<int>, n: nat)
    requires rs != [] && Apart(used, rs, n)
    ensures (used + SpanAll(rs, n)) - Span(rs[0], n) == used + SpanAll(rs[1..], n)
    ensures Apart(used, rs[1..], n)
  {
    hide Span;
    var rest := rs[1..];
    forall k
      ensures k in SpanAll(rs, n) <==> k in Span(rs[0], n) || k in SpanAll(rest, n)
    {
      if k in SpanAll(rs, n) {
        var i :| 0 <= i < |rs| && k in Span(rs[i], n);
        assert i > 0 ==> rs[i] == rest[i - 1];
      }
      if k in SpanAll(rest, n) {
        var i :| 0 <= i < |rest| && k in Span(rest[i], n);
        assert rest[i] == rs[i + 1];
      }
    }
    forall k | k in SpanAll(rest, n)
      ensures k !in Span(rs[0], n)
    {
      var i :| 0 <= i < |rest| && k in Span(rest[i], n);
      assert rest[i] == rs[i + 1];
    }
  }

  // ---------- sizes ----------

  datatype Param = Param(nbuckets: nat, nstrips: nat, chunkSize: nat)

  /** The strip size of a file, in units: whole chunks, the same number in every strip. */
  function StripUnits(unit: nat, size: nat, p: Param): nat
    requires unit > 0 && p.nstrips > 0 && p.chunkSize / unit > 0
  {
    var chunk := p.chunkSize / unit;
    CeilDiv(CeilDiv(size, unit), p.nstrips * chunk) * chunk
  }

  /** Rounding up twice is rounding up once. */
  lemma CeilTwice(size: nat, unit: nat, m: nat)
    requires unit > 0 && m > 0
    ensures m * unit > 0 && CeilDiv(CeilDiv(size, unit), m) == CeilDiv(size, m * unit)
  {
    var a := CeilDiv(size, unit);
    var q := CeilDiv(a, m);
    CeilDivCovers(size, unit);
    CeilDivCovers(a, m);
    MulMonotone(1, m, unit);
    MulMonotone(a, q * m, unit);
    assert q * m <= a + m - 1;
    MulMonotone(q * m, a + m - 1, unit);
    MulDistributes(a, m - 1, unit);
    MulDistributes(m, 1, unit);
    MulAssociates(q, m, unit);
    CeilDivUnique(size, m * unit, q);
  }

  lemma MulAssociates(a: int, b: int, c: int)
    ensures (a * b) * c == a * (b * c)
  {
  }

  /** Together the strips hold the file and waste less than one stripe. */
  lemma StripsHoldFile(unit: nat, size: nat, p: Param)
    requires unit > 0 && p.nstrips > 0 && p.chunkSize / unit > 0 && p.chunkSize % unit == 0
    ensures var stripe, rows := p.nstrips * p.chunkSize, CeilDiv(size, p.nstrips * p.chunkSize);
      && stripe > 0 && StripUnits(unit, size, p) * unit == rows * p.chunkSize
      && size <= p.nstrips * (StripUnits(unit, size, p) * unit) < size + stripe
  {
    var chunk := p.chunkSize / unit;
    DivMod(p.chunkSize, unit);
    assert chunk * unit == p.chunkSize;
    MulMonotone(1, p.nstrips, chunk);
    CeilTwice(size, unit, p.nstrips * chunk);
    MulAssociates(p.nstrips, chunk, unit);
    var stripe, rows := p.nstrips * p.chunkSize, CeilDiv(size, p.nstrips * p.chunkSize);
    MulAssociates(rows, chunk, unit);
    CeilDivCovers(size, stripe);
    Reorder(p.nstrips, rows, p.chunkSize);
  }

  lemma Reorder(a: int, b: int, c: int)
    ensures a * (b * c) == b * (a * c)
  {
    MulAssociates(a, b, c);
    MulAssociates(b, a, c);
  }

  // ---------- the code ----------

  /** Two bitmaps that mark the same units are the same bytes. */
  lemma SameBytes(s: seq<bv8>, t: seq<bv8>)
    requires |s| == |t| && Used(s) == Used(t)
    ensures s == t
  {
    forall b | 0 <= b < |s|
      ensures s[b] == t[b]
    {
      forall k | 0 <= k < 8
        ensures Has(s[b], k) == Has(t[b], k)
      {
        hide Has;
        var i := 8 * b + k;
        assert i / 8 == b && i % 8 == k;
        assert Bit(s, i) == (i in Used(s));
        assert Bit(t, i) == (i in Used(t));
      }
      SameByte(s[b], t[b]);
    }
  }

  lemma SameByte(a: bv8, b: bv8)
    requires forall k :: 0 <= k < 8 ==> Has(a, k) == Has(b, k)
    ensures a == b
  {
    assert Has(a, 0) == Has(b, 0) && Has(a, 1) == Has(b, 1) && Has(a, 2) == Has(b, 2) && Has(a, 3) == Has(b, 3);
    assert Has(a, 4) == Has(b, 4) && Has(a, 5) == Has(b, 5) && Has(a, 6) == Has(b, 6) && Has(a, 7) == Has(b, 7);
  }
}
