/** The steps of pcq_producer_put keep the invariant. */
module QueueProducer {
  import opened Fabric
  import opened Queue
  import opened QueueInvariant
  import opened QueueProof

  /** A step that moves the producer along without storing producer_index. */
  lemma Moves(cfg: Config, s: State, prod: Producer)
    requires Shaped(cfg) && Inv(cfg, s)
    requires Stored(prod, s.puts) == Stored(s.prod, s.puts) && ProducerSide(cfg, s.(prod := prod))
    ensures Inv(cfg, s.(prod := prod))
  {
  }

  /** The full test is safe on a stale consumer_index. */
  lemma StaleLimitIsSafe(cfg: Config, x: int, stored: nat, released: int)
    requires Shaped(cfg) && stored <= released + cfg.nbuckets - 1
    requires Lag(cfg, x, stored - (cfg.nbuckets - 1), released)
    requires (Slot(cfg, stored) + 1) % cfg.nbuckets != x
    ensures stored < released + cfg.nbuckets - 1
    ensures Lag(cfg, x, stored + 1 - (cfg.nbuckets - 1), released)
  {
    SlotNext(cfg, stored);
    var k: nat :| stored - (cfg.nbuckets - 1) <= k <= released && x == Slot(cfg, k);
    SlotLap(cfg, k, 1);
    assert k + 1 * cfg.nbuckets != stored + 1;
    LagWitness(cfg, k, stored + 1 - (cfg.nbuckets - 1), released);
  }

  lemma LoadLimit(cfg: Config, s: State)
    requires Shaped(cfg) && ProducerSide(cfg, s) && s.prod.PLoadLimit?
    requires ConsumerCounts(cfg, s.mem, s.ccache, s.cons, s.taken)
    requires (s.prod.index + 1) % cfg.nbuckets != View(s.mem, s.pcache, ConsumerIndex)
    ensures ProducerSide(cfg, s.(prod := PAssign(s.prod.msg, s.prod.index)))
  {
    var stored, released := Stored(s.prod, s.puts), Released(s.ccache, s.taken);
    LagWitness(cfg, released, stored - (cfg.nbuckets - 1), released);
    StaleLimitIsSafe(cfg, View(s.mem, s.pcache, ConsumerIndex), stored, released);
  }

  lemma Waits(cfg: Config, s: State, prod: Producer)
    requires Shaped(cfg) && ProducerSide(cfg, s) && !Busy(s.prod) && !s.prod.PAssign? && !s.prod.PFlushIndex?
    requires match prod
      case PIdle => true
      case PLoadIndex(msg) => |msg| + 2 == cfg.words
      case PLoadLimit(msg, i) => |msg| + 2 == cfg.words && i == View(s.mem, s.pcache, ProducerIndex)
      case PFull(msg) => |msg| + 2 == cfg.words
      case _ => false
    ensures ProducerSide(cfg, s.(prod := prod))
  {
  }

  lemma MorePuts(cfg: Config, s: State, puts': Puts)
    requires Shaped(cfg) && Inv(cfg, s) && s.puts <= puts'
    ensures Stamped(cfg, s.mem, s.pcache, s.ccache, puts')
    ensures Held(cfg, s.mem, puts', s.taken, Stored(s.prod, s.puts))
    ensures Copying(cfg, s.cons, puts')
  {
    forall b, v | Stamp(cfg, s.puts, b, v)
      ensures Stamp(cfg, puts', b, v)
    {
      if !Junk(cfg, v) {
        var k: nat :| k < |s.puts| && Slot(cfg, k) == b && v == cfg.crc(s.puts[k] + [k]);
        assert puts'[k] == s.puts[k];
      }
    }
    assert forall k: nat :: k < |s.puts| ==> Entry(cfg, puts', k) == Entry(cfg, s.puts, k);
  }

  lemma MorePutsDelivered(cfg: Config, s: State, puts': Puts)
    requires Shaped(cfg) && Inv(cfg, s) && s.puts <= puts'
    ensures Retrying(cfg, s.ccache, s.cons, puts', s.taken)
    ensures Delivered(cfg, s.cons, puts', s.taken, s.got)
  {
    assert forall k: nat :: k < |s.puts| ==> Entry(cfg, puts', k) == Entry(cfg, s.puts, k);
    forall b, buf | Accepted(cfg, s.puts, b, buf)
      ensures Accepted(cfg, puts', b, buf)
    {
      var k: nat :| k < |s.puts| && Slot(cfg, k) == b && buf == Entry(cfg, s.puts, k);
      assert k < |puts'| && buf == Entry(cfg, puts', k);
    }
  }

  lemma StoreCells(mem: Mem, pc: Lines, cc: Lines, a: Cell, v: int)
    requires Owned(mem, pc, cc)
    ensures ProducerOwned(a) ==> Owned(mem, Store(pc, a, v), cc)
    ensures !ProducerOwned(a) ==> Owned(mem, pc, Store(cc, a, v))
  {
  }

  lemma Assign(cfg: Config, s: State)
    requires Shaped(cfg) && ProducerSide(cfg, s) && s.prod.PAssign?
    ensures ProducerSide(cfg, PutAdvance(cfg, s, 0, true))
  {
  }

  lemma AssignInv(cfg: Config, s: State)
    requires Shaped(cfg) && Inv(cfg, s) && s.prod.PAssign?
    ensures Inv(cfg, PutAdvance(cfg, s, 0, true))
  {
    var puts := s.puts + [s.prod.msg];
    MorePuts(cfg, s, puts);
    MorePutsDelivered(cfg, s, puts);
    StoreCells(s.mem, s.pcache, s.ccache, ProducerSeq, |s.puts| + 1);
    Assign(cfg, s);
  }

  lemma CopyCells(cfg: Config, s: State, w: int)
    requires Shaped(cfg) && Inv(cfg, s) && s.prod.PCopy? && 0 <= w < |s.prod.entry|
    ensures var pc := Store(s.pcache, Word(s.prod.index, w), s.prod.entry[w]);
      Owned(s.mem, pc, s.ccache) && Stamped(cfg, s.mem, pc, s.ccache, s.puts)
  {
    StoreCells(s.mem, s.pcache, s.ccache, Word(s.prod.index, w), s.prod.entry[w]);
    var k := |s.puts| - 1;
    assert Stamp(cfg, s.puts, Slot(cfg, k), cfg.crc(s.puts[k] + [k]));
    assert s.prod.entry[cfg.words - 1] == cfg.crc(s.puts[k] + [k]);
  }

  lemma Copy(cfg: Config, s: State, w: int)
    requires Shaped(cfg) && ProducerSide(cfg, s) && s.prod.PCopy? && w in s.prod.todo && 0 <= w < |s.prod.entry|
    ensures ProducerSide(cfg, PutAdvance(cfg, s, w, true))
  {
  }

  lemma CopyInv(cfg: Config, s: State, w: int)
    requires Shaped(cfg) && Inv(cfg, s) && s.prod.PCopy? && w in s.prod.todo && 0 <= w < |s.prod.entry|
    ensures Inv(cfg, PutAdvance(cfg, s, w, true))
  {
    CopyCells(cfg, s, w);
    Copy(cfg, s, w);
  }

  lemma CopyDone(cfg: Config, s: State)
    requires Shaped(cfg) && ProducerSide(cfg, s) && s.prod.PCopy? && s.prod.todo == {}
    ensures ProducerSide(cfg, s.(prod := PFlush(s.prod.index, AllWords(cfg))))
  {
  }

  lemma Flush(cfg: Config, s: State, w: int)
    requires Shaped(cfg) && Inv(cfg, s) && s.prod.PFlush? && !Dirty(s.pcache, Word(s.prod.index, w))
    ensures Inv(cfg, s.(prod := PFlush(s.prod.index, s.prod.todo - {w})))
  {
    Moves(cfg, s, PFlush(s.prod.index, s.prod.todo - {w}));
  }

  lemma FlushDone(cfg: Config, s: State)
    requires Shaped(cfg) && ProducerSide(cfg, s) && s.prod.PFlush? && s.prod.todo == {}
    ensures ProducerSide(cfg, s.(prod := PPublish(s.prod.index)))
  {
  }

  lemma FlushIsEvict(cfg: Config, s: State, w: int, keep: bool) returns (t: State)
    requires Shaped(cfg) && s.prod.PFlush? && w in s.prod.todo
    ensures t == Step(cfg, s, ProducerEvict(Word(s.prod.index, w), keep))
    ensures t.prod == s.prod && !Dirty(t.pcache, Word(s.prod.index, w))
    ensures PutAdvance(cfg, s, w, keep) == t.(prod := PFlush(s.prod.index, s.prod.todo - {w}))
  {
    t := Step(cfg, s, ProducerEvict(Word(s.prod.index, w), keep));
  }

  lemma FlushInv(cfg: Config, s: State, w: int, keep: bool)
    requires Shaped(cfg) && Inv(cfg, s) && s.prod.PFlush? && w in s.prod.todo
    ensures Inv(cfg, PutAdvance(cfg, s, w, keep))
  {
    var t := FlushIsEvict(cfg, s, w, keep);
    ProducerEvictInv(cfg, s, Word(s.prod.index, w), keep);
    Flush(cfg, t, w);
  }

  /** The entry is in memory before producer_index says so. */
  lemma PublishHeld(cfg: Config, s: State)
    requires Shaped(cfg) && Inv(cfg, s) && s.prod.PPublish?
    ensures Held(cfg, s.mem, s.puts, s.taken, |s.puts|)
  {
    var k, entry := |s.puts| - 1, Entry(cfg, s.puts, |s.puts| - 1);
    forall w | 0 <= w < |entry|
      ensures Peek(s.mem, Word(Slot(cfg, k), w)) == entry[w]
    {
      assert !Dirty(s.pcache, Word(Slot(cfg, k), w));
    }
  }

  lemma Publish(cfg: Config, s: State)
    requires Shaped(cfg) && ProducerSide(cfg, s) && s.prod.PPublish?
    ensures ProducerSide(cfg, PutAdvance(cfg, s, 0, true))
  {
    SlotNext(cfg, |s.puts| - 1);
  }

  lemma PublishInv(cfg: Config, s: State)
    requires Shaped(cfg) && Inv(cfg, s) && s.prod.PPublish?
    ensures Inv(cfg, PutAdvance(cfg, s, 0, true))
  {
    PublishHeld(cfg, s);
    SlotNext(cfg, |s.puts| - 1);
    StoreCells(s.mem, s.pcache, s.ccache, ProducerIndex, Slot(cfg, |s.puts|));
    Publish(cfg, s);
  }

  lemma FlushIndex(cfg: Config, s: State)
    requires Shaped(cfg) && Inv(cfg, s) && s.prod.PFlushIndex? && !Dirty(s.pcache, ProducerIndex)
    ensures Inv(cfg, s.(prod := PIdle))
  {
    Moves(cfg, s, PIdle);
  }

  lemma FlushIndexInv(cfg: Config, s: State, keep: bool)
    requires Shaped(cfg) && Inv(cfg, s) && s.prod.PFlushIndex?
    ensures Inv(cfg, PutAdvance(cfg, s, 0, keep))
  {
    var t := Step(cfg, s, ProducerEvict(ProducerIndex, keep));
    ProducerEvictInv(cfg, s, ProducerIndex, keep);
    FlushIndex(cfg, t);
  }

  lemma LoadInv(cfg: Config, s: State)
    requires Shaped(cfg) && Inv(cfg, s) && (s.prod.PLoadIndex? || s.prod.PLoadLimit?)
    ensures Inv(cfg, PutAdvance(cfg, s, 0, true))
  {
    hide Owned, Stamped, Held, ProducerCounts, Room, Writing, ConsumerCounts, Reading, Copying, Retrying, Delivered;
    var prod := PutAdvance(cfg, s, 0, true).prod;
    if prod.PAssign? {
      LoadLimit(cfg, s);
    } else {
      Waits(cfg, s, prod);
    }
    Moves(cfg, s, prod);
  }

  lemma PutAdvanceInv(cfg: Config, s: State, w: int, keep: bool)
    requires Shaped(cfg) && Inv(cfg, s)
    ensures Inv(cfg, PutAdvance(cfg, s, w, keep))
  {
    match s.prod
    case PIdle =>
    case PLoadIndex(_) => LoadInv(cfg, s);
    case PLoadLimit(_, _) => LoadInv(cfg, s);
    case PFull(_) =>
    case PAssign(_, _) => AssignInv(cfg, s);
    case PCopy(index, entry, todo) =>
      if todo == {} {
        CopyDone(cfg, s);
        Moves(cfg, s, PFlush(index, AllWords(cfg)));
      } else if w in todo && 0 <= w < |entry| {
        CopyInv(cfg, s, w);
      }
    case PFlush(index, todo) =>
      if todo == {} {
        FlushDone(cfg, s);
        Moves(cfg, s, PPublish(index));
      } else if w in todo {
        FlushInv(cfg, s, w, keep);
      }
    case PPublish(_) => PublishInv(cfg, s);
    case PFlushIndex => FlushIndexInv(cfg, s, keep);
  }

  lemma PutCallInv(cfg: Config, s: State, e: Event)
    requires Shaped(cfg) && Inv(cfg, s) && (e.PutBegin? || e.PutWait? || e.PutGiveUp?)
    ensures Inv(cfg, Step(cfg, s, e))
  {
    hide Owned, Stamped, Held, ProducerCounts, Room, Writing, ConsumerCounts, Reading, Copying, Retrying, Delivered;
    var t, prod := s, Step(cfg, s, e).prod;
    if e.PutWait? && s.prod.PFull? {
      ProducerEvictInv(cfg, s, ConsumerIndex, false);
      t := Step(cfg, s, ProducerEvict(ConsumerIndex, false));
    }
    if prod != s.prod {
      Waits(cfg, t, prod);
      Moves(cfg, t, prod);
    }
  }
}
