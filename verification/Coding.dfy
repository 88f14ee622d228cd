/** A format that can be read back and whose checksums do not collide: the two assumptions agree. */
module Coding {
  import opened Meta
  import opened Journal

  function Pair(x: nat, y: nat): (r: nat)
    ensures r > 0
  {
    if x == 0 then 2 * y + 1 else 2 * Pair(x - 1, y)
  }

  lemma {:induction false} PairInjective(x: nat, y: nat, u: nat, v: nat)
    requires Pair(x, y) == Pair(u, v)
    ensures x == u && y == v
    decreases x
  {
    if x > 0 && u > 0 {
      PairInjective(x - 1, y, u - 1, v);
    }
  }

  function Code(s: seq<nat>): nat {
    if s == [] then 0 else Pair(s[0], Code(s[1..]))
  }

  lemma {:induction false} CodeInjective(a: seq<nat>, b: seq<nat>)
    requires Code(a) == Code(b)
    ensures a == b
    decreases |a|
  {
    if a != [] && b != [] {
      PairInjective(a[0], Code(a[1..]), b[0], Code(b[1..]));
      CodeInjective(a[1..], b[1..]);
      assert a == [a[0]] + a[1..] && b == [b[0]] + b[1..];
    }
  }

  function Chars(path: string): (r: seq<nat>)
    ensures |r| == |path| && forall i :: 0 <= i < |path| ==> r[i] == path[i] as int
  {
    seq(|path|, i requires 0 <= i < |path| => path[i] as int)
  }

  function ExtentCodes(es: seq<Extent>): (r: seq<nat>)
    ensures |r| == |es| && forall i :: 0 <= i < |es| ==> r[i] == Code([es[i].devindex, es[i].offset, es[i].len])
  {
    seq(|es|, i requires 0 <= i < |es| => Code([es[i].devindex, es[i].offset, es[i].len]))
  }

  /** The fields of an entry, the tag first. */
  function Fields(e: LogEntry): seq<nat> {
    match e
    case LogFile(fm) =>
      [1, if fm.fmap.Simple? then 0 else 1, Code(Chars(fm.path)), fm.size, fm.flags, fm.mode, fm.uid, fm.gid,
       if fm.fmap.Simple? then 0 else fm.fmap.chunkSize, Code(ExtentCodes(Extents(fm.fmap)))]
    case LogMkdir(path, mode, uid, gid) => [2, Code(Chars(path)), mode, uid, gid]
    case LogOther => [0]
  }

  function EntryCode(e: LogEntry): nat {
    Code(Fields(e))
  }

  lemma CharsInjective(p: string, q: string)
    requires Code(Chars(p)) == Code(Chars(q))
    ensures p == q
  {
    CodeInjective(Chars(p), Chars(q));
    assert forall i :: 0 <= i < |p| ==> Chars(p)[i] == Chars(q)[i];
  }

  lemma ExtentsInjective(a: seq<Extent>, b: seq<Extent>)
    requires Code(ExtentCodes(a)) == Code(ExtentCodes(b))
    ensures a == b
  {
    CodeInjective(ExtentCodes(a), ExtentCodes(b));
    forall i | 0 <= i < |a|
      ensures a[i] == b[i]
    {
      assert ExtentCodes(a)[i] == ExtentCodes(b)[i];
      var x, y := [a[i].devindex, a[i].offset, a[i].len], [b[i].devindex, b[i].offset, b[i].len];
      CodeInjective(x, y);
      assert x[0] == y[0] && x[1] == y[1] && x[2] == y[2];
    }
  }

  lemma FmapInjective(a: Fmap, b: Fmap)
    requires a.Simple? == b.Simple? && (a.Interleaved? ==> a.chunkSize == b.chunkSize) && Extents(a) == Extents(b)
    ensures a == b
  {
  }

  lemma EntryInjective(e: LogEntry, f: LogEntry)
    requires EntryCode(e) == EntryCode(f)
    ensures e == f
  {
    hide Code, Chars, ExtentCodes;
    var x, y := Fields(e), Fields(f);
    CodeInjective(x, y);
    if e.LogFile? && f.LogFile? {
      CharsInjective(e.fm.path, f.fm.path);
      ExtentsInjective(Extents(e.fm.fmap), Extents(f.fm.fmap));
      FmapInjective(e.fm.fmap, f.fm.fmap);
    } else if e.LogMkdir? && f.LogMkdir? {
      CharsInjective(e.path, f.path);
    }
  }

  /** Reads back what EntryCode has written. */
  ghost function Decoded(words: seq<int>): LogEntry {
    if exists e :: [EntryCode(e)] == words then (var e :| [EntryCode(e)] == words; e) else LogOther
  }

  lemma DecodedBack(e: LogEntry)
    ensures Decoded([EntryCode(e)]) == e
  {
    var words: seq<int> := [EntryCode(e)];
    var f := Decoded(words);
    assert [EntryCode(f)] == words;
    assert EntryCode(f) == words[0];
    EntryInjective(e, f);
  }

  function ZigZag(x: int): nat {
    if x >= 0 then 2 * x else -2 * x - 1
  }

  function Checksum(body: seq<int>): int {
    if |body| == 2 then Pair(ZigZag(body[0]), ZigZag(body[1])) else 0
  }

  lemma ChecksumInjective(a: seq<int>, b: seq<int>)
    requires |a| == 2 && |b| == 2 && Checksum(a) == Checksum(b)
    ensures a == b
  {
    PairInjective(ZigZag(a[0]), ZigZag(a[1]), ZigZag(b[0]), ZigZag(b[1]));
  }

  /** Some format meets everything that is asked of one. */
  lemma FormatExists() returns (fmt: Format)
    ensures Faithful(fmt) && CollisionFree(fmt)
  {
    fmt := Format(3, e => [EntryCode(e)], words => Decoded(words), Checksum, (_, _, _) => 0, 0, 1);
    forall e: LogEntry
      ensures fmt.parse(fmt.image(e)) == e
    {
      DecodedBack(e);
    }
    forall a: seq<int>, b: seq<int> | |a| == 2 && |b| == 2 && fmt.crc(a) == fmt.crc(b)
      ensures a == b
    {
      ChecksumInjective(a, b);
    }
  }
}
