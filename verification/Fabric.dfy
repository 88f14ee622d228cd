/**
 Shared memory without hardware coherence.

 Every host sees the memory through its own write-back cache. A cell is the unit in which
 the model tracks values: whatever an operation does to a 64-byte line is a series of
 operations on the cells of that line. Hardware may fill, write back or evict a cell at
 any moment, so a cached cell may be arbitrarily old.
 */
module Fabric {

  datatype Line = Line(val: int, dirty: bool)

  type Memory<!A> = map<A, int>
  type Cache<!A> = map<A, Line>

  function Peek<A>(mem: Memory<A>, a: A): int {
    if a in mem then mem[a] else 0
  }

  /** What a load of `a` returns on the host that owns the cache. */
  function View<A>(mem: Memory<A>, cache: Cache<A>, a: A): int {
    if a in cache then cache[a].val else Peek(mem, a)
  }

  predicate Dirty<A>(cache: Cache<A>, a: A) {
    a in cache && cache[a].dirty
  }

  function Store<A>(cache: Cache<A>, a: A, v: int): Cache<A> {
    cache[a := Line(v, true)]
  }

  function Fill<A>(mem: Memory<A>, cache: Cache<A>, a: A): Cache<A> {
    if a in cache then cache else cache[a := Line(Peek(mem, a), false)]
  }

  function WriteBack<A>(mem: Memory<A>, cache: Cache<A>, a: A): Memory<A> {
    if Dirty(cache, a) then mem[a := cache[a].val] else mem
  }

  /** The cache after a flush. CLWB keeps a clean copy; CLFLUSH and CLFLUSHOPT keep none. */
  function Flushed<A>(cache: Cache<A>, a: A, keep: bool): Cache<A> {
    if keep && a in cache then cache[a := cache[a].(dirty := false)] else cache - {a}
  }

  /**
   A cell was written back, so that memory has what the host stored, and is clean or gone
   afterwards; other cells are as before.
   */
  ghost predicate WrittenBack<A(!new)>(m: Memory<A>, c: Cache<A>, m': Memory<A>, c': Cache<A>, a: A, keep: bool) {
    && (forall b :: Peek(m', b) == if b == a && Dirty(c, b) then View(m, c, b) else Peek(m, b))
    && (forall b :: b in c' <==> b in c && (b != a || keep))
    && (forall b :: b in c' ==> View(m', c', b) == View(m, c, b) && (Dirty(c', b) <==> b != a && Dirty(c, b)))
  }

  /** A cell is cached, with what memory has unless the host had a copy; other cells are as before. */
  ghost predicate Fetched<A(!new)>(m: Memory<A>, c: Cache<A>, c': Cache<A>, a: A) {
    && (forall b :: b in c' <==> b in c || b == a)
    && (forall b :: View(m, c', b) == View(m, c, b) && (Dirty(c', b) <==> Dirty(c, b)))
  }

  lemma FlushExact<A(!new)>(m: Memory<A>, c: Cache<A>, a: A, keep: bool)
    ensures WrittenBack(m, c, WriteBack(m, c, a), Flushed(c, a, keep), a, keep)
  {
    var m', c' := WriteBack(m, c, a), Flushed(c, a, keep);
    assert forall b :: b in c' ==> c'[b] == if b == a then c[b].(dirty := false) else c[b];
  }

  lemma FillExact<A(!new)>(m: Memory<A>, c: Cache<A>, a: A)
    ensures Fetched(m, c, Fill(m, c, a), a)
  {
  }

  lemma FlushedIsClean<A>(cache: Cache<A>, a: A, keep: bool)
    ensures !Dirty(Flushed(cache, a, keep), a)
  {
  }

  const CACHELINE_SIZE := 64

  /** The range [start, start + len) has a byte in line number `line`. */
  ghost predicate Touches(line: int, start: nat, len: nat) {
    exists b :: start <= b < start + len && line == b / CACHELINE_SIZE
  }

  /** x86_flush_range: the numbers of the lines it flushes, in the order it flushes them. */
  method FlushRange(start: nat, len: nat) returns (lines: seq<nat>)
    ensures forall line :: line in lines <==> Touches(line, start, len)
    ensures forall i, j :: 0 <= i < j < |lines| ==> lines[i] < lines[j]
  {
    lines := [];
    if len == 0 {
      return;
    }
    var ptr := start - start % CACHELINE_SIZE;
    var end := start + len;
    var first := ptr / CACHELINE_SIZE;
    while ptr < end
      invariant ptr == (first + |lines|) * CACHELINE_SIZE
      invariant |lines| > 0 ==> ptr - CACHELINE_SIZE < end
      invariant forall i :: 0 <= i < |lines| ==> lines[i] == first + i
      decreases end + CACHELINE_SIZE - ptr
    {
      lines := lines + [ptr / CACHELINE_SIZE];
      ptr := ptr + CACHELINE_SIZE;
    }
    forall line
      ensures line in lines <==> Touches(line, start, len)
    {
      if line in lines {
        var b := if line == first then start else line * CACHELINE_SIZE;
        assert start <= b < start + len && line == b / CACHELINE_SIZE;
      }
      if Touches(line, start, len) {
        assert lines[line - first] == line;
      }
    }
  }
}
