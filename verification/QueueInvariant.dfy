/** What every event of the queue keeps. */
module QueueInvariant {
  import opened Arith
  import opened Fabric
  import opened Queue

  function Slot(cfg: Config, k: nat): nat
    requires cfg.nbuckets > 0
  {
    k % cfg.nbuckets
  }

  lemma SlotNext(cfg: Config, k: nat)
    requires cfg.nbuckets > 0
    ensures (Slot(cfg, k) + 1) % cfg.nbuckets == Slot(cfg, k + 1)
  {
    var n, q, r := cfg.nbuckets, k / cfg.nbuckets, k % cfg.nbuckets;
    DivMod(k, n);
    if r + 1 == n {
      MulDistributes(q, 1, n);
      DivModUnique(k + 1, q + 1, 0, n);
      DivModUnique(n, 1, 0, n);
    } else {
      DivModUnique(k + 1, q, r + 1, n);
      DivModUnique(r + 1, 0, r + 1, n);
    }
  }

  /** Counters less than a lap apart sit in different slots. */
  lemma SlotApart(cfg: Config, i: nat, j: nat)
    requires cfg.nbuckets > 0 && i < j < i + cfg.nbuckets
    ensures Slot(cfg, i) != Slot(cfg, j)
  {
    var n, q := cfg.nbuckets, i / cfg.nbuckets;
    DivMod(i, n);
    var r := i % n + (j - i);
    if r < n {
      DivModUnique(j, q, r, n);
    } else {
      MulDistributes(q, 1, n);
      DivModUnique(j, q + 1, r - n, n);
    }
  }

  /** A whole lap leads back to the same slot. */
  lemma SlotLap(cfg: Config, k: nat, laps: nat)
    requires cfg.nbuckets > 0
    ensures Slot(cfg, k + laps * cfg.nbuckets) == Slot(cfg, k)
  {
    var n := cfg.nbuckets;
    DivMod(k, n);
    MulDistributes(k / n, laps, n);
    DivModUnique(k + laps * n, k / n + laps, k % n, n);
  }

  type Mem = Memory<Cell>
  type Lines = Cache<Cell>
  type Puts = seq<seq<int>>

  /** A put has taken its sequence number and not yet stored producer_index. */
  predicate Busy(prod: Producer) {
    prod.PCopy? || prod.PFlush? || prod.PPublish?
  }

  /** Between finding the queue non-empty and accepting a copy of the bucket. */
  predicate Fetching(cons: Consumer) {
    cons.CCopy? || cons.CVerify? || cons.CInvalidate?
  }

  /** Between taking the next sequence number and storing consumer_index. */
  predicate Expecting(cons: Consumer) {
    Fetching(cons) || cons.CCheckSeq? || cons.CAdvance?
  }

  /** Messages whose producer_index store is done. */
  function Stored(prod: Producer, puts: Puts): int {
    if Busy(prod) then |puts| - 1 else |puts|
  }

  /** The same, as main memory has it. */
  function Published(pc: Lines, prod: Producer, puts: Puts): int {
    Stored(prod, puts) - if Dirty(pc, ProducerIndex) then 1 else 0
  }

  /** Messages taken, as main memory has it. */
  function Released(cc: Lines, taken: nat): int {
    taken - if Dirty(cc, ConsumerIndex) then 1 else 0
  }

  function Entry(cfg: Config, puts: Puts, k: nat): seq<int>
    requires k < |puts|
  {
    Sealed(cfg, puts[k], k)
  }

  /** `x` is the slot of a counter in [lo, hi]. */
  ghost predicate Lag(cfg: Config, x: int, lo: int, hi: int)
    requires Shaped(cfg)
  {
    exists k: nat :: lo <= k <= hi && x == Slot(cfg, k)
  }

  /** `v` may stand in the checksum word of bucket `b`: junk, or the checksum of an entry put there. */
  ghost predicate Stamp(cfg: Config, puts: Puts, b: int, v: int)
    requires Shaped(cfg)
  {
    || Junk(cfg, v)
    || exists k: nat :: k < |puts| && Slot(cfg, k) == b && v == cfg.crc(puts[k] + [k])
  }

  /** Only the owner of a cell has it dirty, and the owner's clean copies are current. */
  ghost predicate Owned(mem: Mem, pc: Lines, cc: Lines) {
    && (forall a :: a in pc && pc[a].dirty ==> ProducerOwned(a))
    && (forall a :: a in pc && !pc[a].dirty && ProducerOwned(a) ==> pc[a].val == Peek(mem, a))
    && (forall a :: a in cc && cc[a].dirty ==> !ProducerOwned(a))
    && (forall a :: a in cc && !cc[a].dirty && !ProducerOwned(a) ==> cc[a].val == Peek(mem, a))
  }

  ghost predicate Sized(cfg: Config, prod: Producer, puts: Puts) {
    && (forall k :: 0 <= k < |puts| ==> |puts[k]| + 2 == cfg.words)
    && (prod.PLoadIndex? || prod.PLoadLimit? || prod.PFull? || prod.PAssign? ==> |prod.msg| + 2 == cfg.words)
    && (prod.PCopy? || prod.PFlush? ==> prod.todo <= AllWords(cfg))
  }

  /** The counters that the producer's index cells stand for, in its cache and in memory. */
  ghost predicate ProducerCounts(cfg: Config, mem: Mem, pc: Lines, prod: Producer, puts: Puts)
    requires Shaped(cfg)
  {
    && (Busy(prod) ==> puts != [])
    && 0 <= Published(pc, prod, puts)
    && View(mem, pc, ProducerIndex) == Slot(cfg, Stored(prod, puts))
    && Peek(mem, ProducerIndex) == Slot(cfg, Published(pc, prod, puts))
    && (Dirty(pc, ProducerIndex) ==> prod.PFlushIndex?)
    && View(mem, pc, ProducerSeq) == |puts|
  }

  ghost predicate ConsumerCounts(cfg: Config, mem: Mem, cc: Lines, cons: Consumer, taken: nat)
    requires Shaped(cfg)
  {
    && 0 <= Released(cc, taken)
    && View(mem, cc, ConsumerIndex) == Slot(cfg, taken)
    && Peek(mem, ConsumerIndex) == Slot(cfg, Released(cc, taken))
    && (Dirty(cc, ConsumerIndex) ==> cons.CFlushIndex?)
    && (!cons.CBadSeq? ==> View(mem, cc, ConsumerSeq) == if Expecting(cons) then taken + 1 else taken)
  }

  /** However old the producer's copy of consumer_index, the ring has room for what it puts. */
  ghost predicate Room(cfg: Config, pc: Lines, prod: Producer, stored: int, released: int)
    requires Shaped(cfg)
  {
    var target := if prod.PAssign? || Busy(prod) then stored + 1 else stored;
    var full := cfg.nbuckets - 1;
    && 0 <= stored && target <= released + full
    && (ConsumerIndex in pc ==> Lag(cfg, pc[ConsumerIndex].val, target - full, released))
    && (prod.PLoadLimit? || prod.PAssign? || Busy(prod) ==> prod.index == Slot(cfg, stored))
  }

  /** How much of the entry being put has reached the producer's cache, and memory. */
  ghost predicate Writing(cfg: Config, mem: Mem, pc: Lines, prod: Producer, puts: Puts)
    requires Busy(prod) ==> puts != []
  {
    && (Busy(prod) ==>
        var entry := Entry(cfg, puts, |puts| - 1);
        && (prod.PCopy? ==> prod.entry == entry)
        && forall w :: 0 <= w < |entry| && (prod.PCopy? ==> w !in prod.todo) ==>
             View(mem, pc, Word(prod.index, w)) == entry[w])
    && (forall b, w :: Dirty(pc, Word(b, w)) ==>
        ((prod.PCopy? && 0 <= w < cfg.words) || (prod.PFlush? && w in prod.todo)) && b == prod.index)
  }

  /** Memory holds every message that was put and not yet taken. */
  ghost predicate Held(cfg: Config, mem: Mem, puts: Puts, taken: nat, stored: int)
    requires Shaped(cfg) && stored <= |puts|
  {
    forall k: nat, w :: taken <= k < stored && 0 <= w < |Entry(cfg, puts, k)| ==>
      Peek(mem, Word(Slot(cfg, k), w)) == Entry(cfg, puts, k)[w]
  }

  /** Every checksum word anywhere is junk or belongs to an entry put into that bucket. */
  ghost predicate Stamped(cfg: Config, mem: Mem, pc: Lines, cc: Lines, puts: Puts)
    requires Shaped(cfg)
  {
    && (forall b :: Stamp(cfg, puts, b, Peek(mem, CrcCell(cfg, b))))
    && (forall b :: CrcCell(cfg, b) in pc ==> Stamp(cfg, puts, b, pc[CrcCell(cfg, b)].val))
    && (forall b :: CrcCell(cfg, b) in cc ==> Stamp(cfg, puts, b, cc[CrcCell(cfg, b)].val))
  }

  /** The same for the checksum word that a get has copied. */
  ghost predicate Copying(cfg: Config, cons: Consumer, puts: Puts)
    requires Shaped(cfg)
  {
    && (Expecting(cons) || cons.CFlushIndex? ==> |cons.buf| == cfg.words)
    && (cons.CCopy? || cons.CInvalidate? ==> cons.todo <= AllWords(cfg))
    && ((cons.CCopy? && cfg.words - 1 !in cons.todo) || cons.CVerify? ==>
        Stamp(cfg, puts, cons.index, cons.buf[cfg.words - 1]))
  }

  /** What the consumer knows at each point of a get. */
  ghost predicate Reading(cfg: Config, cc: Lines, cons: Consumer, taken: nat, published: int)
    requires Shaped(cfg)
  {
    && taken <= published
    && (cons.CInvalidateIndex? || cons.CLoadLimit? || cons.CExpect? || Fetching(cons) ==>
        cons.index == Slot(cfg, taken))
    && (cons.CLoadLimit? && ProducerIndex in cc ==> Lag(cfg, cc[ProducerIndex].val, taken, published))
    && (cons.CExpect? || Expecting(cons) || cons.CBadSeq? ==> taken < published)
    && (Fetching(cons) || cons.CCheckSeq? || cons.CBadSeq? ==> cons.want == taken)
  }

  /** Once words of the bucket were invalidated, every cached or copied word of them is current. */
  ghost predicate Fresh(cfg: Config, cc: Lines, cons: Consumer, entry: seq<int>)
    requires Fetching(cons)
  {
    && |cons.buf| == |entry|
    && (forall w :: 0 <= w < |entry| && Word(cons.index, w) in cc && (cons.CInvalidate? ==> w !in cons.todo) ==>
        cc[Word(cons.index, w)].val == entry[w])
    && (forall w :: 0 <= w < |entry| && !cons.CInvalidate? && (cons.CCopy? ==> w !in cons.todo) ==>
        cons.buf[w] == entry[w])
  }

  /** Copies made after an invalidate are fresh, so no second invalidate happens. */
  ghost predicate Retrying(cfg: Config, cc: Lines, cons: Consumer, puts: Puts, taken: nat) {
    && !cons.CBadCrc?
    && (Fetching(cons) ==> taken < |puts| && cons.retries <= CONSUMER_NRETRIES)
    && (Fetching(cons) && (cons.CInvalidate? || cons.retries < CONSUMER_NRETRIES) ==>
        Fresh(cfg, cc, cons, Entry(cfg, puts, taken)))
    && (cons.CInvalidate? ==> cons.retries == CONSUMER_NRETRIES)
  }

  /** A copy that the checksum accepts is a whole entry of its bucket. */
  ghost predicate Accepted(cfg: Config, puts: Puts, b: int, buf: seq<int>)
    requires Shaped(cfg)
  {
    exists k: nat :: k < |puts| && Slot(cfg, k) == b && buf == Entry(cfg, puts, k)
  }

  ghost predicate Delivered(cfg: Config, cons: Consumer, puts: Puts, taken: nat, got: seq<(seq<int>, int)>)
    requires Shaped(cfg)
  {
    && (cons.CCheckSeq? || cons.CBadSeq? ==> Accepted(cfg, puts, Slot(cfg, taken), cons.buf))
    && (cons.CBadSeq? ==> |cons.buf| >= 2 && cons.buf[|cons.buf| - 2] != taken)
    && (cons.CAdvance? ==> taken < |puts| && cons.buf == Entry(cfg, puts, taken))
    && (cons.CFlushIndex? ==> 0 < taken <= |puts| && cons.buf == Entry(cfg, puts, taken - 1))
    && |got| == (if cons.CFlushIndex? then taken - 1 else taken) <= |puts|
    && forall i :: 0 <= i < |got| ==> got[i] == (puts[i], i)
  }

  ghost predicate Cells(cfg: Config, s: State)
    requires Shaped(cfg)
  {
    && Owned(s.mem, s.pcache, s.ccache)
    && Stamped(cfg, s.mem, s.pcache, s.ccache, s.puts)
    && Held(cfg, s.mem, s.puts, s.taken, Stored(s.prod, s.puts))
  }

  ghost predicate ProducerSide(cfg: Config, s: State)
    requires Shaped(cfg)
  {
    && Sized(cfg, s.prod, s.puts)
    && ProducerCounts(cfg, s.mem, s.pcache, s.prod, s.puts)
    && Room(cfg, s.pcache, s.prod, Stored(s.prod, s.puts), Released(s.ccache, s.taken))
    && Writing(cfg, s.mem, s.pcache, s.prod, s.puts)
  }

  ghost predicate ConsumerSide(cfg: Config, s: State)
    requires Shaped(cfg)
  {
    && ConsumerCounts(cfg, s.mem, s.ccache, s.cons, s.taken)
    && Reading(cfg, s.ccache, s.cons, s.taken, Published(s.pcache, s.prod, s.puts))
    && Copying(cfg, s.cons, s.puts)
    && Retrying(cfg, s.ccache, s.cons, s.puts, s.taken)
    && Delivered(cfg, s.cons, s.puts, s.taken, s.got)
  }

  ghost predicate Inv(cfg: Config, s: State)
    requires Shaped(cfg)
  {
    Cells(cfg, s) && ProducerSide(cfg, s) && ConsumerSide(cfg, s)
  }

  lemma InitInv(cfg: Config, s: State)
    requires Shaped(cfg) && Init(cfg, s)
    ensures Inv(cfg, s)
  {
    hide Init, Cells, ProducerSide, ConsumerSide;
    InitCells(cfg, s);
    InitProducer(cfg, s);
    InitConsumer(cfg, s);
  }

  lemma InitCells(cfg: Config, s: State)
    requires Shaped(cfg) && Init(cfg, s)
    ensures Cells(cfg, s)
  {
  }

  lemma InitProducer(cfg: Config, s: State)
    requires Shaped(cfg) && Init(cfg, s)
    ensures ProducerSide(cfg, s)
  {
    hide Junk;
    assert Slot(cfg, 0) == 0;
  }

  lemma InitConsumer(cfg: Config, s: State)
    requires Shaped(cfg) && Init(cfg, s)
    ensures ConsumerSide(cfg, s)
  {
    hide Junk;
    assert Slot(cfg, 0) == 0;
  }
}
