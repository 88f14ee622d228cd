/** The invariant of the queue is inductive: hardware steps, then producer, then consumer. */
module QueueProof {
  import opened Fabric
  import opened Queue
  import opened QueueInvariant

  // ---------- what caches do by themselves ----------

  lemma ProducerEvictCells(mem: Mem, pc: Lines, cc: Lines, a: Cell, keep: bool)
    requires Owned(mem, pc, cc)
    ensures var mem', pc' := WriteBack(mem, pc, a), Flushed(pc, a, keep);
      && Owned(mem', pc', cc)
      && (forall b :: ProducerOwned(b) ==> View(mem', pc', b) == View(mem, pc, b))
      && (forall b :: !ProducerOwned(b) ==> Peek(mem', b) == Peek(mem, b))
      && (forall b :: Dirty(pc', b) <==> Dirty(pc, b) && b != a)
      && (forall b :: b in pc' ==> b in pc && pc'[b].val == pc[b].val)
      && (forall b :: Peek(mem', b) == if b == a && Dirty(pc, a) then pc[a].val else Peek(mem, b))
  {
  }

  lemma ConsumerEvictCells(mem: Mem, pc: Lines, cc: Lines, a: Cell, keep: bool)
    requires Owned(mem, pc, cc)
    ensures var mem', cc' := WriteBack(mem, cc, a), Flushed(cc, a, keep);
      && Owned(mem', pc, cc')
      && (forall b :: !ProducerOwned(b) ==> View(mem', cc', b) == View(mem, cc, b))
      && (forall b :: ProducerOwned(b) ==> Peek(mem', b) == Peek(mem, b))
      && (forall b :: Dirty(cc', b) <==> Dirty(cc, b) && b != a)
      && (forall b :: b in cc' ==> b in cc && cc'[b].val == cc[b].val)
      && (forall b :: Peek(mem', b) == if b == a && Dirty(cc, a) then cc[a].val else Peek(mem, b))
  {
  }

  /** A put in progress writes to none of the buckets that hold undelivered messages. */
  lemma HeldFrame(cfg: Config, mem: Mem, mem': Mem, puts: Puts, taken: nat, stored: int)
    requires Shaped(cfg) && 0 <= stored <= |puts| && stored < taken + cfg.nbuckets
    requires Held(cfg, mem, puts, taken, stored)
    requires forall b, w :: b != Slot(cfg, stored) ==> Peek(mem', Word(b, w)) == Peek(mem, Word(b, w))
    ensures Held(cfg, mem', puts, taken, stored)
  {
    forall k: nat, w | taken <= k < stored && 0 <= w < |Entry(cfg, puts, k)|
      ensures Peek(mem', Word(Slot(cfg, k), w)) == Entry(cfg, puts, k)[w]
    {
      SlotApart(cfg, k, stored);
    }
  }

  lemma EvictStamped(cfg: Config, mem: Mem, pc: Lines, cc: Lines, puts: Puts, a: Cell, keep: bool)
    requires Shaped(cfg) && Stamped(cfg, mem, pc, cc, puts)
    ensures Stamped(cfg, WriteBack(mem, pc, a), Flushed(pc, a, keep), cc, puts)
    ensures Stamped(cfg, WriteBack(mem, cc, a), pc, Flushed(cc, a, keep), puts)
  {
    forall b
      ensures Stamp(cfg, puts, b, Peek(WriteBack(mem, pc, a), CrcCell(cfg, b)))
      ensures Stamp(cfg, puts, b, Peek(WriteBack(mem, cc, a), CrcCell(cfg, b)))
    {
      assert Stamp(cfg, puts, b, Peek(mem, CrcCell(cfg, b)));
    }
  }

  lemma ProducerEvictHeld(cfg: Config, s: State, a: Cell)
    requires Shaped(cfg) && Inv(cfg, s)
    ensures Held(cfg, WriteBack(s.mem, s.pcache, a), s.puts, s.taken, Stored(s.prod, s.puts))
  {
    var mem' := WriteBack(s.mem, s.pcache, a);
    if a.Word? && Dirty(s.pcache, a) {
      HeldFrame(cfg, s.mem, mem', s.puts, s.taken, Stored(s.prod, s.puts));
    } else {
      assert forall b, w :: Peek(mem', Word(b, w)) == Peek(s.mem, Word(b, w));
    }
  }

  lemma ProducerEvictProducer(cfg: Config, s: State, a: Cell, keep: bool)
    requires Shaped(cfg) && Owned(s.mem, s.pcache, s.ccache) && ProducerSide(cfg, s)
    ensures ProducerSide(cfg, Step(cfg, s, ProducerEvict(a, keep)))
  {
    ProducerEvictCells(s.mem, s.pcache, s.ccache, a, keep);
  }

  lemma ProducerEvictConsumer(cfg: Config, s: State, a: Cell, keep: bool)
    requires Shaped(cfg) && Owned(s.mem, s.pcache, s.ccache) && ConsumerSide(cfg, s)
    ensures ConsumerSide(cfg, Step(cfg, s, ProducerEvict(a, keep)))
  {
    ProducerEvictCells(s.mem, s.pcache, s.ccache, a, keep);
  }

  lemma ProducerEvictInv(cfg: Config, s: State, a: Cell, keep: bool)
    requires Shaped(cfg) && Inv(cfg, s)
    ensures Inv(cfg, Step(cfg, s, ProducerEvict(a, keep)))
  {
    ProducerEvictCells(s.mem, s.pcache, s.ccache, a, keep);
    ProducerEvictHeld(cfg, s, a);
    ProducerEvictProducer(cfg, s, a, keep);
    ProducerEvictConsumer(cfg, s, a, keep);
    EvictStamped(cfg, s.mem, s.pcache, s.ccache, s.puts, a, keep);
  }

  lemma ConsumerEvictProducer(cfg: Config, s: State, a: Cell, keep: bool)
    requires Shaped(cfg) && Owned(s.mem, s.pcache, s.ccache) && ProducerSide(cfg, s)
    ensures ProducerSide(cfg, Step(cfg, s, ConsumerEvict(a, keep)))
  {
    ConsumerEvictCells(s.mem, s.pcache, s.ccache, a, keep);
  }

  lemma ConsumerEvictConsumer(cfg: Config, s: State, a: Cell, keep: bool)
    requires Shaped(cfg) && Owned(s.mem, s.pcache, s.ccache) && ConsumerSide(cfg, s)
    ensures ConsumerSide(cfg, Step(cfg, s, ConsumerEvict(a, keep)))
  {
    ConsumerEvictCells(s.mem, s.pcache, s.ccache, a, keep);
  }

  lemma ConsumerEvictInv(cfg: Config, s: State, a: Cell, keep: bool)
    requires Shaped(cfg) && Inv(cfg, s)
    ensures Inv(cfg, Step(cfg, s, ConsumerEvict(a, keep)))
  {
    ConsumerEvictCells(s.mem, s.pcache, s.ccache, a, keep);
    ConsumerEvictProducer(cfg, s, a, keep);
    ConsumerEvictConsumer(cfg, s, a, keep);
    EvictStamped(cfg, s.mem, s.pcache, s.ccache, s.puts, a, keep);
  }

  lemma FillCells(cfg: Config, mem: Mem, pc: Lines, cc: Lines, puts: Puts, a: Cell)
    requires Shaped(cfg) && Owned(mem, pc, cc) && Stamped(cfg, mem, pc, cc, puts)
    ensures Owned(mem, Fill(mem, pc, a), cc) && Owned(mem, pc, Fill(mem, cc, a))
    ensures Stamped(cfg, mem, Fill(mem, pc, a), cc, puts) && Stamped(cfg, mem, pc, Fill(mem, cc, a), puts)
  {
    forall b
      ensures Stamp(cfg, puts, b, Peek(mem, CrcCell(cfg, b)))
    {
    }
  }

  lemma FillView(mem: Mem, cache: Lines, a: Cell)
    ensures var cache' := Fill(mem, cache, a);
      && (forall b :: View(mem, cache', b) == View(mem, cache, b))
      && (forall b :: Dirty(cache', b) == Dirty(cache, b))
      && (forall b :: b in cache' ==> cache'[b].val == if b in cache then cache[b].val else Peek(mem, b))
  {
  }

  lemma LagWitness(cfg: Config, k: int, lo: int, hi: int)
    requires Shaped(cfg) && 0 <= k && lo <= k <= hi
    ensures Lag(cfg, Slot(cfg, k), lo, hi)
  {
  }

  lemma ProducerFillRoom(cfg: Config, s: State, a: Cell)
    requires Shaped(cfg) && Inv(cfg, s)
    ensures Room(cfg, Fill(s.mem, s.pcache, a), s.prod, Stored(s.prod, s.puts), Released(s.ccache, s.taken))
  {
    FillView(s.mem, s.pcache, a);
    var stored := Stored(s.prod, s.puts);
    var target := if s.prod.PAssign? || Busy(s.prod) then stored + 1 else stored;
    LagWitness(cfg, Released(s.ccache, s.taken), target - (cfg.nbuckets - 1), Released(s.ccache, s.taken));
  }

  lemma ProducerFillInv(cfg: Config, s: State, a: Cell)
    requires Shaped(cfg) && Inv(cfg, s)
    ensures Inv(cfg, Step(cfg, s, ProducerFill(a)))
  {
    hide Owned, Stamped, Held, Sized, ProducerCounts, Room, Writing;
    hide ConsumerCounts, Reading, Copying, Retrying, Delivered;
    FillCells(cfg, s.mem, s.pcache, s.ccache, s.puts, a);
    ProducerFillRoom(cfg, s, a);
    ProducerFillWriting(cfg, s.mem, s.pcache, s.prod, s.puts, a);
    FillView(s.mem, s.pcache, a);
  }

  lemma ProducerFillWriting(cfg: Config, mem: Mem, pc: Lines, prod: Producer, puts: Puts, a: Cell)
    requires Shaped(cfg) && ProducerCounts(cfg, mem, pc, prod, puts) && Writing(cfg, mem, pc, prod, puts)
    ensures ProducerCounts(cfg, mem, Fill(mem, pc, a), prod, puts) && Writing(cfg, mem, Fill(mem, pc, a), prod, puts)
  {
    FillView(mem, pc, a);
  }

  lemma ConsumerFillCounts(cfg: Config, mem: Mem, cc: Lines, cons: Consumer, taken: nat, a: Cell)
    requires Shaped(cfg) && ConsumerCounts(cfg, mem, cc, cons, taken)
    ensures ConsumerCounts(cfg, mem, Fill(mem, cc, a), cons, taken)
    ensures Released(Fill(mem, cc, a), taken) == Released(cc, taken)
  {
    FillView(mem, cc, a);
  }

  lemma ConsumerFillReading(cfg: Config, s: State, a: Cell)
    requires Shaped(cfg) && Inv(cfg, s)
    ensures Reading(cfg, Fill(s.mem, s.ccache, a), s.cons, s.taken, Published(s.pcache, s.prod, s.puts))
  {
    FillView(s.mem, s.ccache, a);
    var published := Published(s.pcache, s.prod, s.puts);
    LagWitness(cfg, published, s.taken, published);
  }

  lemma ConsumerFillRetrying(cfg: Config, s: State, a: Cell)
    requires Shaped(cfg) && Inv(cfg, s)
    ensures Retrying(cfg, Fill(s.mem, s.ccache, a), s.cons, s.puts, s.taken)
  {
    FillView(s.mem, s.ccache, a);
    if Fetching(s.cons) {
      var entry := Entry(cfg, s.puts, s.taken);
      assert forall w :: 0 <= w < |entry| ==> Peek(s.mem, Word(Slot(cfg, s.taken), w)) == entry[w];
    }
  }

  lemma ConsumerFillInv(cfg: Config, s: State, a: Cell)
    requires Shaped(cfg) && Inv(cfg, s)
    ensures Inv(cfg, Step(cfg, s, ConsumerFill(a)))
  {
    hide Owned, Stamped, Held, Sized, ProducerCounts, Room, Writing;
    hide ConsumerCounts, Reading, Copying, Retrying, Delivered;
    FillView(s.mem, s.ccache, a);
    FillCells(cfg, s.mem, s.pcache, s.ccache, s.puts, a);
    ConsumerFillCounts(cfg, s.mem, s.ccache, s.cons, s.taken, a);
    ConsumerFillReading(cfg, s, a);
    ConsumerFillRetrying(cfg, s, a);
  }
}
