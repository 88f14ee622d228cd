/**
 pcq_producer_put and pcq_consumer_get as code, for calls that do not wait and that no
 other event interrupts. A ghost copy of the transition system runs in step with the
 code, so each call is one of the runs that the theorems speak about.
 */
module QueueCode {
  import opened Fabric
  import opened Queue
  import opened QueueInvariant
  import opened QueueProof
  import opened QueueProducer
  import opened QueueTheorems
  import opened QueueSolo

  datatype PutStatus = PutGood | PutFullNowait
  datatype GetStatus = GetGood(msg: seq<int>, seqno: int) | GetEmpty | GetBadMsg

  lemma BeginStep(cfg: Config, s: State)
    requires Shaped(cfg) && Reachable(cfg, s) && s.cons.CIdle?
    ensures Reachable(cfg, s.(cons := CLoadIndex))
  {
    assert s.(cons := CLoadIndex) == Step(cfg, s, GetBegin);
    ReachableStep(cfg, s, GetBegin);
  }

  /** The producer has no copy of consumer_index, or a current one. */
  predicate CurrentLimit(s: State) {
    View(s.mem, s.pcache, ConsumerIndex) == Peek(s.mem, ConsumerIndex)
  }

  /** The full test on a copy of consumer_index that may be stale errs only towards full. */
  lemma FullTest(cfg: Config, s: State)
    requires Shaped(cfg) && CollisionFree(cfg) && Reachable(cfg, s) && s.prod.PIdle?
    ensures var stored, released := Stored(s.prod, s.puts), Released(s.ccache, s.taken);
      && (!LooksFull(cfg, s) ==> stored < released + cfg.nbuckets - 1)
      && (CurrentLimit(s) && stored < released + cfg.nbuckets - 1 ==> !LooksFull(cfg, s))
  {
    ReachableInv(cfg, s);
    FullTestInv(cfg, s);
  }

  /** Between puts, memory's producer_index covers every message. */
  lemma AllPublished(cfg: Config, s: State)
    requires Shaped(cfg) && CollisionFree(cfg) && Reachable(cfg, s) && s.prod.PIdle?
    ensures Published(s.pcache, s.prod, s.puts) == |s.puts|
  {
    ReachableInv(cfg, s);
    hide Cells, ConsumerSide;
  }

  lemma FullTestInv(cfg: Config, s: State)
    requires Shaped(cfg) && Inv(cfg, s) && s.prod.PIdle?
    ensures var stored, released := Stored(s.prod, s.puts), Released(s.ccache, s.taken);
      && (!LooksFull(cfg, s) ==> stored < released + cfg.nbuckets - 1)
      && (CurrentLimit(s) && stored < released + cfg.nbuckets - 1 ==> !LooksFull(cfg, s))
  {
    var stored, released := Stored(s.prod, s.puts), Released(s.ccache, s.taken);
    LagWitness(cfg, released, stored - (cfg.nbuckets - 1), released);
    if !LooksFull(cfg, s) {
      StaleLimitIsSafe(cfg, View(s.mem, s.pcache, ConsumerIndex), stored, released);
    } else if stored < released + cfg.nbuckets - 1 && CurrentLimit(s) {
      SlotNext(cfg, stored);
      NotFull(cfg, stored, released);
    }
  }

  lemma NotFull(cfg: Config, stored: nat, released: nat)
    requires Shaped(cfg) && released <= stored < released + cfg.nbuckets - 1
    ensures Slot(cfg, stored + 1) != Slot(cfg, released)
  {
    SlotApart(cfg, released, stored + 1);
  }

  predicate LooksFull(cfg: Config, s: State)
    requires Shaped(cfg)
  {
    (View(s.mem, s.pcache, ProducerIndex) + 1) % cfg.nbuckets == View(s.mem, s.pcache, ConsumerIndex)
  }

  /** After an invalidate a load returns what memory then has. */
  lemma RereadIndex(mem: Memory<Cell>, cc: Cache<Cell>)
    ensures var flushed := WriteBack(mem, cc, ProducerIndex);
      View(flushed, Flushed(cc, ProducerIndex, false), ProducerIndex) == Peek(flushed, ProducerIndex)
  {
  }

  class SharedQueue {
    const cfg: Config
    var mem: Memory<Cell>
    var pcache: Cache<Cell>
    var ccache: Cache<Cell>
    ghost var s: State

    ghost predicate Synced()
      reads this
    {
      Shaped(cfg) && s.mem == mem && s.pcache == pcache && s.ccache == ccache
    }

    ghost predicate Valid()
      reads this
    {
      Synced() && CollisionFree(cfg) && Reachable(cfg, s)
    }

    /** Let the transition system take one step. */
    ghost method Tick(s0: State, es: seq<Event>, e: Event) returns (es': seq<Event>)
      requires Shaped(cfg) && s == Run(cfg, s0, es)
      modifies this`s
      ensures s == Step(cfg, old(s), e) && es' == es + [e] && s == Run(cfg, s0, es')
    {
      es' := es + [e];
      RunConcat(cfg, s0, es, [e]);
      s := Step(cfg, s, e);
    }

    /** memcpy of the bucket at `index` into the entry. */
    method CopyOut(
        index: int, ghost want: int, ghost retries: nat, entry: seq<int>, ghost s0: State, ghost es: seq<Event>)
      returns (buf: seq<int>, ghost es': seq<Event>)
      requires Synced() && |entry| == cfg.words && GetSteps(es) && s == Run(cfg, s0, es)
      requires s.cons == CCopy(index, want, retries, entry, AllWords(cfg))
      modifies this`s
      ensures Synced() && GetSteps(es') && s == Run(cfg, s0, es')
      ensures |buf| == cfg.words && s.cons == CVerify(index, want, retries, buf)
    {
      hide Run, View, AllWords;
      buf, es' := entry, es;
      ghost var todo := AllWords(cfg);
      for w := 0 to cfg.words
        invariant Synced() && GetSteps(es') && s == Run(cfg, s0, es') && |buf| == cfg.words
        invariant s.cons == CCopy(index, want, retries, buf, todo)
        invariant forall v :: v in todo <==> w <= v < cfg.words
      {
        GetCopyStep(cfg, s, w, true);
        buf := buf[w := View(mem, ccache, Word(index, w))];
        es' := Tick(s0, es', GetStep(w, true));
        todo := todo - {w};
      }
      assert forall v :: v !in todo;
      assert todo == {};
      es' := Tick(s0, es', GetStep(0, true));
    }

    /** invalidate_processor_cache on the bucket at `index`. */
    method InvalidateBucket(
        index: int, ghost want: int, ghost retries: nat, ghost buf: seq<int>, ghost s0: State, ghost es: seq<Event>)
      returns (ghost es': seq<Event>)
      requires Synced() && GetSteps(es) && s == Run(cfg, s0, es)
      requires s.cons == CInvalidate(index, want, retries, buf, AllWords(cfg))
      modifies this`s, this`mem, this`ccache
      ensures Synced() && GetSteps(es') && s == Run(cfg, s0, es')
      ensures s.cons == if retries == 0 then CBadCrc else CCopy(index, want, retries - 1, buf, AllWords(cfg))
    {
      hide Run, WriteBack, Flushed, AllWords;
      es' := es;
      ghost var todo := AllWords(cfg);
      for w := 0 to cfg.words
        invariant Synced() && GetSteps(es') && s == Run(cfg, s0, es')
        invariant s.cons == CInvalidate(index, want, retries, buf, todo)
        invariant forall v :: v in todo <==> w <= v < cfg.words
      {
        es' := Tick(s0, es', GetStep(w, true));
        mem, ccache := WriteBack(mem, ccache, Word(index, w)), Flushed(ccache, Word(index, w), false);
        todo := todo - {w};
      }
      assert forall v :: v !in todo;
      assert todo == {};
      es' := Tick(s0, es', GetStep(0, true));
    }

    /** The part of a get that looks for a message. */
    method Look(ghost s0: State) returns (index: int, empty: bool, ghost es: seq<Event>)
      requires Synced() && s.cons.CIdle? && s0 == s.(cons := CLoadIndex)
      modifies this`s, this`mem, this`ccache
      ensures Synced() && GetSteps(es) && s == Run(cfg, s0, es)
      ensures s.cons == if empty then CEmpty else CExpect(index)
      ensures empty <==> old(LooksEmpty(s))
    {
      RereadIndex(s0.mem, s0.ccache);
      hide Step, View, WriteBack, Flushed;
      s, es := s0, [];
      LookSteps(cfg, s, true);
      index := View(mem, ccache, ConsumerIndex);
      es := Tick(s0, es, GetStep(0, true));
      LookSteps(cfg, s, true);
      mem, ccache := WriteBack(mem, ccache, ProducerIndex), Flushed(ccache, ProducerIndex, false);
      es := Tick(s0, es, GetStep(0, true));
      LookSteps(cfg, s, true);
      empty := index == View(mem, ccache, ProducerIndex);
      es := Tick(s0, es, GetStep(0, true));
    }

    /** One round: copy the bucket, check it, and on a bad checksum invalidate it. */
    method Attempt(index: int, ghost want: int, retries: nat, entry: seq<int>, ghost s0: State, ghost es: seq<Event>)
      returns (buf: seq<int>, ghost es': seq<Event>)
      requires Synced() && |entry| == cfg.words && GetSteps(es) && s == Run(cfg, s0, es)
      requires s.cons == CCopy(index, want, retries, entry, AllWords(cfg))
      modifies this`s, this`mem, this`ccache
      ensures Synced() && GetSteps(es') && s == Run(cfg, s0, es') && |buf| == cfg.words
      ensures s.cons ==
        if GoodCrc(cfg, buf) then CCheckSeq(want, buf)
        else if retries == 0 then CBadCrc
        else CCopy(index, want, retries - 1, buf, AllWords(cfg))
    {
      hide Run, GoodCrc, AllWords;
      buf, es' := CopyOut(index, want, retries, entry, s0, es);
      es' := Tick(s0, es', GetStep(0, true));
      if !GoodCrc(cfg, buf) {
        es' := InvalidateBucket(index, want, retries, buf, s0, es');
      }
    }

    /** The part of a get that copies the bucket until its checksum is good or retries run out. */
    method Fetch(index: int, ghost s0: State, ghost es: seq<Event>)
      returns (want: int, buf: seq<int>, goodCrc: bool, ghost es': seq<Event>)
      requires Synced() && GetSteps(es) && s == Run(cfg, s0, es) && s.cons == CExpect(index)
      modifies this`s, this`mem, this`ccache
      ensures Synced() && GetSteps(es') && s == Run(cfg, s0, es') && |buf| == cfg.words
      ensures s.cons == if goodCrc then CCheckSeq(want, buf) else CBadCrc
    {
      hide Run, GoodCrc, AllWords, View, Store;
      want := View(mem, ccache, ConsumerSeq);
      es' := Tick(s0, es, GetStep(0, true));
      ccache := Store(ccache, ConsumerSeq, want + 1);
      var retries := CONSUMER_NRETRIES;
      buf := seq(cfg.words, _ => 0);
      while true
        invariant Synced() && GetSteps(es') && s == Run(cfg, s0, es') && |buf| == cfg.words
        invariant s.cons == CCopy(index, want, retries, buf, AllWords(cfg))
        decreases retries
      {
        buf, es' := Attempt(index, want, retries, buf, s0, es');
        goodCrc := GoodCrc(cfg, buf);
        if goodCrc || retries == 0 {
          return;
        }
        retries := retries - 1;
      }
    }

    /** The part of a get that gives the bucket back. */
    method Release(buf: seq<int>)
      requires Valid() && s.cons == CAdvance(buf) && |buf| >= 2
      modifies this`s, this`mem, this`ccache
      ensures Valid() && s.cons == CIdle && s.puts == old(s.puts) && s.taken == old(s.taken) + 1
      ensures s.got == old(s.got) + [(buf[..|buf| - 2], buf[|buf| - 2])] && Released(s.ccache, s.taken) == s.taken
    {
      hide Reachable, View, Store, WriteBack, Flushed;
      ReachableStep(cfg, s, GetStep(0, true));
      ccache, s := Store(ccache, ConsumerIndex, (View(mem, ccache, ConsumerIndex) + 1) % cfg.nbuckets),
        Step(cfg, s, GetStep(0, true));
      ReachableStep(cfg, s, GetStep(0, true));
      FlushedIsClean(ccache, ConsumerIndex, true);
      mem, ccache, s := WriteBack(mem, ccache, ConsumerIndex), Flushed(ccache, ConsumerIndex, true),
        Step(cfg, s, GetStep(0, true));
    }

    /** A get delivers the next message unless the cache shows a stale lap of its bucket. */
    method Get() returns (status: GetStatus)
      requires Valid() && s.cons.CIdle?
      modifies this`s, this`mem, this`ccache
      ensures Valid() && s.puts == old(s.puts)
      ensures status.GetEmpty? <==> old(s.taken) == old(Published(s.pcache, s.prod, s.puts))
      ensures status.GetBadMsg? <==> !status.GetEmpty? && old(StaleLap(cfg, s))
      ensures status.GetGood? ==>
        && old(s.taken) < |s.puts| && status.msg == s.puts[old(s.taken)] && status.seqno == old(s.taken)
        && s.taken == old(s.taken) + 1 && Released(s.ccache, s.taken) == s.taken
      ensures !status.GetGood? ==> s.taken == old(s.taken)
      ensures if status.GetBadMsg? then s.cons.CBadSeq? else s.cons.CIdle?
    {
      hide Run, Reachable, View, StaleLap, LooksEmpty, CollisionFree, GoodCrc;
      ghost var s0 := s.(cons := CLoadIndex);
      BeginStep(cfg, s);
      EmptyIff(cfg, s);
      var index, empty, es := Look(s0);
      GetAlone(cfg, old(s), es);
      if empty {
        es := Tick(s0, es, GetGiveUp);
        ReachableRun(cfg, s0, es);
        return GetEmpty;
      }
      var want, buf, goodCrc;
      want, buf, goodCrc, es := Fetch(index, s0, es);
      GetAlone(cfg, old(s), es);
      var ok := buf[|buf| - 2] == want;
      es := Tick(s0, es, GetStep(0, true));
      GetAlone(cfg, old(s), es);
      ReachableRun(cfg, s0, es);
      if !ok {
        return GetBadMsg;
      }
      AdvanceDelivers(cfg, s);
      Release(buf);
      status := GetGood(buf[..|buf| - 2], buf[|buf| - 2]);
    }

    /** One more step, with the fact that it stays on a run. */
    ghost method Go(e: Event)
      requires Shaped(cfg) && Reachable(cfg, s)
      modifies this`s
      ensures s == Step(cfg, old(s), e) && Reachable(cfg, s)
    {
      ReachableStep(cfg, s, e);
      s := Step(cfg, s, e);
    }

    /** The part of a put that looks for room. */
    method FindRoom(msg: seq<int>) returns (index: int, full: bool)
      requires Valid() && s.prod.PIdle? && |msg| + 2 == cfg.words
      modifies this`s
      ensures Valid() && s == old(s).(prod := if full then PIdle else PAssign(msg, index))
      ensures full <==> old(LooksFull(cfg, s))
    {
      hide Reachable, View, CollisionFree;
      Go(PutBegin(msg));
      index := View(mem, pcache, ProducerIndex);
      Go(PutStep(0, true));
      full := (index + 1) % cfg.nbuckets == View(mem, pcache, ConsumerIndex);
      Go(PutStep(0, true));
      if full {
        Go(PutGiveUp);
      }
    }

    /** memcpy of the entry into the bucket at `index`. */
    method CopyIn(index: int, entry: seq<int>)
      requires Valid() && |entry| == cfg.words && s.prod == PCopy(index, entry, AllWords(cfg))
      modifies this`s, this`pcache
      ensures Valid() && s == old(s).(pcache := pcache, prod := PFlush(index, AllWords(cfg)))
    {
      hide Reachable, View, Store, CollisionFree, AllWords;
      ghost var todo := AllWords(cfg);
      for w := 0 to cfg.words
        invariant Valid() && s == old(s).(pcache := pcache, prod := PCopy(index, entry, todo))
        invariant forall v :: v in todo <==> w <= v < cfg.words
      {
        PutCopyStep(cfg, s, w, true);
        Go(PutStep(w, true));
        pcache := Store(pcache, Word(index, w), entry[w]);
        todo := todo - {w};
      }
      assert forall v :: v !in todo;
      assert todo == {};
      Go(PutStep(0, true));
    }

    /** flush_processor_cache on the bucket at `index`. */
    method FlushBucket(index: int)
      requires Valid() && s.prod == PFlush(index, AllWords(cfg))
      modifies this`s, this`mem, this`pcache
      ensures Valid() && s == old(s).(mem := mem, pcache := pcache, prod := PPublish(index))
    {
      hide Reachable, View, WriteBack, Flushed, CollisionFree, AllWords;
      ghost var todo := AllWords(cfg);
      for w := 0 to cfg.words
        invariant Valid() && s == old(s).(mem := mem, pcache := pcache, prod := PFlush(index, todo))
        invariant forall v :: v in todo <==> w <= v < cfg.words
      {
        PutFlushStep(cfg, s, w, true);
        Go(PutStep(w, true));
        mem, pcache := WriteBack(mem, pcache, Word(index, w)), Flushed(pcache, Word(index, w), true);
        todo := todo - {w};
      }
      assert forall v :: v !in todo;
      assert todo == {};
      Go(PutStep(0, true));
    }

    method Publish(index: int)
      requires Valid() && s.prod == PPublish(index)
      modifies this`s, this`mem, this`pcache
      ensures Valid() && s == old(s).(mem := mem, pcache := pcache, prod := PIdle)
    {
      hide Reachable, View, Store, WriteBack, Flushed, CollisionFree;
      Go(PutStep(0, true));
      pcache := Store(pcache, ProducerIndex, (index + 1) % cfg.nbuckets);
      Go(PutStep(0, true));
      mem, pcache := WriteBack(mem, pcache, ProducerIndex), Flushed(pcache, ProducerIndex, true);
    }

    /** A put that finds room publishes its message; one that does not changes nothing. */
    method Put(msg: seq<int>) returns (status: PutStatus)
      requires Valid() && s.prod.PIdle? && |msg| + 2 == cfg.words
      modifies this`s, this`mem, this`pcache
      ensures Valid() && s.prod.PIdle? && s.taken == old(s.taken) && s.cons == old(s.cons) && s.got == old(s.got)
      ensures status.PutFullNowait? <==> old(LooksFull(cfg, s))
      ensures status.PutFullNowait? ==> s == old(s)
      ensures status.PutGood? ==> s.puts == old(s.puts) + [msg] && Published(s.pcache, s.prod, s.puts) == |s.puts|
      ensures status.PutGood? ==> |old(s.puts)| < old(Released(s.ccache, s.taken)) + cfg.nbuckets - 1
      ensures old(CurrentLimit(s)) && status.PutFullNowait? ==>
        |old(s.puts)| >= old(Released(s.ccache, s.taken)) + cfg.nbuckets - 1
    {
      hide Reachable, View, Store, LooksFull, CollisionFree, Released, Published;
      FullTest(cfg, s);
      var index, full := FindRoom(msg);
      if full {
        return PutFullNowait;
      }
      var k := View(mem, pcache, ProducerSeq);
      Go(PutStep(0, true));
      pcache := Store(pcache, ProducerSeq, k + 1);
      CopyIn(index, Sealed(cfg, msg, k));
      FlushBucket(index);
      Publish(index);
      AllPublished(cfg, s);
      return PutGood;
    }
  }
}
