/** One get with nothing else going on: when it delivers, and when it dies. */
module QueueSolo {
  import opened Fabric
  import opened Queue
  import opened QueueInvariant
  import opened QueueConsumer
  import opened QueueTheorems

  /** What the consumer's cache shows of the bucket it will read next. */
  function NextBucket(cfg: Config, s: State): seq<int>
    requires Shaped(cfg)
  {
    seq(cfg.words, w => View(s.mem, s.ccache, Word(Slot(cfg, s.taken), w)))
  }

  /** The consumer's cache shows, in full, the entry that an earlier lap left in that bucket. */
  ghost predicate StaleLap(cfg: Config, s: State)
    requires Shaped(cfg)
  {
    exists k: nat :: k < s.taken && k < |s.puts| && Slot(cfg, k) == Slot(cfg, s.taken)
      && NextBucket(cfg, s) == Entry(cfg, s.puts, k)
  }

  /** `s` arises from `s0`, where a get began, by steps of that get alone. */
  ghost predicate Solo(cfg: Config, s0: State, s: State)
    requires Shaped(cfg)
  {
    var bucket, b := NextBucket(cfg, s0), Slot(cfg, s0.taken);
    && s.puts == s0.puts && s.pcache == s0.pcache && s.prod == s0.prod
    && s.taken == (if s.cons.CFlushIndex? then s0.taken + 1 else s0.taken)
    && (Fetching(s.cons) ==> |s.cons.buf| == cfg.words && s.cons.index == b)
    && (Looking(s.cons) || s.cons.CExpect? ||
        (Fetching(s.cons) && !s.cons.CInvalidate? && s.cons.retries == CONSUMER_NRETRIES) ==>
        forall w :: 0 <= w < cfg.words ==> View(s.mem, s.ccache, Word(b, w)) == bucket[w])
    && (s.cons.CCopy? && s.cons.retries == CONSUMER_NRETRIES ==>
        forall w :: 0 <= w < cfg.words && w !in s.cons.todo ==> s.cons.buf[w] == bucket[w])
    && (s.cons.CVerify? && s.cons.retries == CONSUMER_NRETRIES ==> s.cons.buf == bucket)
    && (Fetching(s.cons) && (s.cons.CInvalidate? || s.cons.retries < CONSUMER_NRETRIES) ==> !GoodCrc(cfg, bucket))
    && (s.cons.CCheckSeq? || s.cons.CAdvance? || s.cons.CFlushIndex? || s.cons.CBadSeq? ==>
        || s.cons.buf == bucket
        || (!GoodCrc(cfg, bucket) && s0.taken < |s.puts| && s.cons.buf == Entry(cfg, s.puts, s0.taken)))
  }

  lemma SoloCopy(cfg: Config, s0: State, s: State, w: int, keep: bool)
    requires Shaped(cfg) && Solo(cfg, s0, s) && s.cons.CCopy? && s.cons.todo <= AllWords(cfg)
    ensures Solo(cfg, s0, GetAdvance(cfg, s, w, keep))
  {
    if s.cons.todo == {} && s.cons.retries == CONSUMER_NRETRIES {
      assert s.cons.buf == NextBucket(cfg, s0);
    }
  }

  lemma SoloLook(cfg: Config, s0: State, s: State, w: int, keep: bool)
    requires Shaped(cfg) && Solo(cfg, s0, s) && Looking(s.cons) && !s.cons.CIdle?
    ensures Solo(cfg, s0, GetAdvance(cfg, s, w, keep))
  {
  }

  lemma SoloVerify(cfg: Config, s0: State, s: State, w: int, keep: bool)
    requires Shaped(cfg) && Solo(cfg, s0, s) && s.cons.CVerify? && s.cons.retries <= CONSUMER_NRETRIES
    requires s.cons.retries < CONSUMER_NRETRIES ==>
               s.taken < |s.puts| && s.cons.buf == Entry(cfg, s.puts, s.taken)
    ensures Solo(cfg, s0, GetAdvance(cfg, s, w, keep))
  {
    hide View, Entry, GoodCrc, AllWords;
  }

  lemma SoloStep(cfg: Config, s0: State, s: State, w: int, keep: bool)
    requires Shaped(cfg) && Solo(cfg, s0, s) && !s.cons.CVerify?
    requires !Looking(s.cons) && !s.cons.CFlushIndex? && !s.cons.CInvalidate? && !s.cons.CCopy?
    requires s.cons.CExpect? ==> s.cons.index == Slot(cfg, s.taken)
    ensures Solo(cfg, s0, GetAdvance(cfg, s, w, keep))
  {
    hide Entry, GoodCrc;
  }

  lemma SoloInvalidate(cfg: Config, s0: State, s: State, w: int, keep: bool)
    requires Shaped(cfg) && Solo(cfg, s0, s) && s.cons.CInvalidate? && s.cons.retries == CONSUMER_NRETRIES
    ensures Solo(cfg, s0, GetAdvance(cfg, s, w, keep))
  {
  }

  /** An entry passes the checksum and carries its own number. */
  lemma EntryIsGood(cfg: Config, puts: Puts, k: nat)
    requires Shaped(cfg) && k < |puts| && |puts[k]| + 2 == cfg.words
    ensures GoodCrc(cfg, Entry(cfg, puts, k)) && Entry(cfg, puts, k)[cfg.words - 2] == k
  {
    assert Entry(cfg, puts, k)[..cfg.words - 1] == puts[k] + [k];
  }

  /** A get ends in the fatal mismatch only if its cache showed a stale lap when it began. */
  lemma MismatchMeansStale(cfg: Config, s0: State, s: State)
    requires Shaped(cfg) && Solo(cfg, s0, s) && Inv(cfg, s) && s.cons.CBadSeq?
    ensures StaleLap(cfg, s0)
  {
    var k := MismatchIsOlder(cfg, s);
    StaleWitness(cfg, s0, s, k);
  }

  lemma StaleWitness(cfg: Config, s0: State, s: State, k: nat)
    requires Shaped(cfg) && Solo(cfg, s0, s) && s.cons.CBadSeq?
    requires forall i :: 0 <= i < |s.puts| ==> |s.puts[i]| + 2 == cfg.words
    requires k < s.taken < |s.puts| && Slot(cfg, k) == Slot(cfg, s.taken)
    requires s.cons.buf == Entry(cfg, s.puts, k)
    ensures StaleLap(cfg, s0)
  {
    EntryIsGood(cfg, s.puts, k);
    EntryIsGood(cfg, s.puts, s.taken);
  }

  lemma DeliveryMeansFresh(cfg: Config, s0: State, s: State)
    requires Shaped(cfg) && Solo(cfg, s0, s) && Inv(cfg, s) && s.cons.CAdvance?
    ensures !StaleLap(cfg, s0)
  {
    EntryIsGood(cfg, s.puts, s.taken);
    forall k: nat | k < s0.taken && k < |s0.puts|
      ensures NextBucket(cfg, s0) != Entry(cfg, s0.puts, k)
    {
      EntryIsGood(cfg, s.puts, k);
    }
  }

  /** A get that began in `s0` is under way in `s`. */
  ghost predicate Going(cfg: Config, s0: State, s: State)
    requires Shaped(cfg)
  {
    Inv(cfg, s) && Solo(cfg, s0, s) && !s.cons.CIdle? && !s.cons.CFlushIndex?
  }

  lemma SoloAny(cfg: Config, s0: State, s: State, w: int, keep: bool)
    requires Shaped(cfg) && Going(cfg, s0, s)
    ensures Solo(cfg, s0, GetAdvance(cfg, s, w, keep))
  {
    if Looking(s.cons) {
      SoloLook(cfg, s0, s, w, keep);
    } else if s.cons.CCopy? {
      SoloCopy(cfg, s0, s, w, keep);
    } else if s.cons.CInvalidate? {
      SoloInvalidate(cfg, s0, s, w, keep);
    } else if s.cons.CVerify? {
      SoloVerify(cfg, s0, s, w, keep);
    } else {
      SoloStep(cfg, s0, s, w, keep);
    }
  }

  lemma GoingStep(cfg: Config, s0: State, s: State, w: int, keep: bool)
    requires Shaped(cfg) && CollisionFree(cfg) && Going(cfg, s0, s) && !s.cons.CAdvance?
    ensures Going(cfg, s0, GetAdvance(cfg, s, w, keep))
  {
    SoloAny(cfg, s0, s, w, keep);
    GetAdvanceInv(cfg, s, w, keep);
    StillGoing(cfg, s, w, keep);
  }

  lemma StillGoing(cfg: Config, s: State, w: int, keep: bool)
    requires Shaped(cfg) && !s.cons.CIdle? && !s.cons.CFlushIndex? && !s.cons.CAdvance?
    ensures var c := GetAdvance(cfg, s, w, keep).cons; !c.CIdle? && !c.CFlushIndex?
  {
  }

  predicate GetSteps(es: seq<Event>) {
    forall i :: 0 <= i < |es| ==> es[i].GetStep?
  }

  /** Steps of the get alone, up to the point where it accepts a message or dies. */
  lemma {:induction false} GoingRun(cfg: Config, s0: State, s: State, es: seq<Event>)
    requires Shaped(cfg) && CollisionFree(cfg) && Going(cfg, s0, s) && GetSteps(es)
    requires !Run(cfg, s, es).cons.CIdle? && !Run(cfg, s, es).cons.CFlushIndex?
    ensures Going(cfg, s0, Run(cfg, s, es))
    decreases |es|
  {
    if es == [] {
    } else if s.cons.CAdvance? {
      PastAdvance(cfg, Step(cfg, s, es[0]), es[1..]);
    } else {
      GoingStep(cfg, s0, s, es[0].word, es[0].keep);
      GoingRun(cfg, s0, Step(cfg, s, es[0]), es[1..]);
    }
  }

  lemma {:induction false} PastAdvance(cfg: Config, s: State, es: seq<Event>)
    requires Shaped(cfg) && GetSteps(es) && (s.cons.CFlushIndex? || s.cons.CIdle?)
    ensures Run(cfg, s, es).cons.CFlushIndex? || Run(cfg, s, es).cons.CIdle?
    decreases |es|
  {
    if es != [] {
      PastAdvance(cfg, Step(cfg, s, es[0]), es[1..]);
    }
  }

  lemma BeginGoing(cfg: Config, s: State)
    requires Shaped(cfg) && Inv(cfg, s) && s.cons.CIdle?
    ensures var s0 := s.(cons := CLoadIndex); Going(cfg, s0, s0) && (StaleLap(cfg, s0) <==> StaleLap(cfg, s))
  {
    var s0 := s.(cons := CLoadIndex);
    assert s0 == Step(cfg, s, GetBegin);
    GetCallInv(cfg, s, GetBegin);
    assert NextBucket(cfg, s0) == NextBucket(cfg, s);
    assert forall k: nat :: k < |s.puts| ==> Entry(cfg, s0.puts, k) == Entry(cfg, s.puts, k);
  }

  /** Where a get that runs alone can be, given what the cache showed when it began. */
  lemma GetAlone(cfg: Config, s: State, es: seq<Event>)
    requires Shaped(cfg) && CollisionFree(cfg) && Reachable(cfg, s) && s.cons.CIdle? && GetSteps(es)
    ensures var t := Run(cfg, s.(cons := CLoadIndex), es);
      && !t.cons.CBadCrc?
      && (t.cons.CBadSeq? ==> StaleLap(cfg, s))
      && (t.cons.CAdvance? ==> !StaleLap(cfg, s))
      && (!t.cons.CFlushIndex? && !t.cons.CIdle? ==> t.taken == s.taken && t.puts == s.puts)
  {
    ReachableInv(cfg, s);
    BeginGoing(cfg, s);
    var s0 := s.(cons := CLoadIndex);
    var t := Run(cfg, s0, es);
    if !t.cons.CFlushIndex? && !t.cons.CIdle? {
      GoingRun(cfg, s0, s0, es);
      GoingOutcome(cfg, s0, t);
    }
  }

  lemma GoingOutcome(cfg: Config, s0: State, t: State)
    requires Shaped(cfg) && Going(cfg, s0, t)
    ensures !t.cons.CBadCrc? && t.taken == s0.taken && t.puts == s0.puts
    ensures t.cons.CBadSeq? ==> StaleLap(cfg, s0)
    ensures t.cons.CAdvance? ==> !StaleLap(cfg, s0)
  {
    if t.cons.CBadSeq? {
      MismatchMeansStale(cfg, s0, t);
    } else if t.cons.CAdvance? {
      DeliveryMeansFresh(cfg, s0, t);
    }
  }

  predicate LooksEmpty(s: State) {
    View(s.mem, s.ccache, ConsumerIndex) == Peek(WriteBack(s.mem, s.ccache, ProducerIndex), ProducerIndex)
  }

  lemma EmptyIff(cfg: Config, s: State)
    requires Shaped(cfg) && CollisionFree(cfg) && Reachable(cfg, s)
    ensures LooksEmpty(s) <==> s.taken == Published(s.pcache, s.prod, s.puts)
  {
    ReachableInv(cfg, s);
    var published := Published(s.pcache, s.prod, s.puts);
    if s.taken < published {
      SlotApart(cfg, s.taken, published);
    }
  }

  /** The copy that a get accepts is the next message. */
  lemma AdvanceDelivers(cfg: Config, s: State)
    requires Shaped(cfg) && CollisionFree(cfg) && Reachable(cfg, s) && s.cons.CAdvance?
    ensures s.taken < |s.puts| && |s.cons.buf| == cfg.words
    ensures s.cons.buf[..cfg.words - 2] == s.puts[s.taken] && s.cons.buf[cfg.words - 2] == s.taken
  {
    ReachableInv(cfg, s);
  }
}
