/** What the queue guarantees, over every run. */
module QueueTheorems {
  import opened Arith
  import opened Fabric
  import opened Queue
  import opened QueueInvariant
  import opened QueueProof
  import opened QueueProducer
  import opened QueueConsumer

  /** What hardware may do to either host's cache, to any cell and at any time. */
  lemma HardwareExact(cfg: Config, s: State, a: Cell, keep: bool)
    requires cfg.nbuckets > 0
    ensures var t := Step(cfg, s, ProducerEvict(a, keep));
      t == s.(mem := t.mem, pcache := t.pcache) && WrittenBack(s.mem, s.pcache, t.mem, t.pcache, a, keep)
    ensures var t := Step(cfg, s, ConsumerEvict(a, keep));
      t == s.(mem := t.mem, ccache := t.ccache) && WrittenBack(s.mem, s.ccache, t.mem, t.ccache, a, keep)
    ensures var t := Step(cfg, s, ProducerFill(a)); t == s.(pcache := t.pcache) && Fetched(s.mem, s.pcache, t.pcache, a)
    ensures var t := Step(cfg, s, ConsumerFill(a)); t == s.(ccache := t.ccache) && Fetched(s.mem, s.ccache, t.ccache, a)
  {
    FlushExact(s.mem, s.pcache, a, keep);
    FlushExact(s.mem, s.ccache, a, keep);
    FillExact(s.mem, s.pcache, a);
    FillExact(s.mem, s.ccache, a);
    hide WrittenBack, WriteBack, Flushed, Fetched, Fill;
  }

  lemma StepInv(cfg: Config, s: State, e: Event)
    requires Shaped(cfg) && CollisionFree(cfg) && Inv(cfg, s)
    ensures Inv(cfg, Step(cfg, s, e))
  {
    match e
    case PutStep(w, keep) => PutAdvanceInv(cfg, s, w, keep);
    case GetStep(w, keep) => GetAdvanceInv(cfg, s, w, keep);
    case ProducerFill(a) => ProducerFillInv(cfg, s, a);
    case ProducerEvict(a, keep) => ProducerEvictInv(cfg, s, a, keep);
    case ConsumerFill(a) => ConsumerFillInv(cfg, s, a);
    case ConsumerEvict(a, keep) => ConsumerEvictInv(cfg, s, a, keep);
    case _ =>
      if e.PutBegin? || e.PutWait? || e.PutGiveUp? {
        PutCallInv(cfg, s, e);
      } else {
        GetCallInv(cfg, s, e);
      }
  }

  lemma {:induction false} RunInv(cfg: Config, s: State, es: seq<Event>)
    requires Shaped(cfg) && CollisionFree(cfg) && Inv(cfg, s)
    ensures Inv(cfg, Run(cfg, s, es))
    decreases |es|
  {
    if es != [] {
      StepInv(cfg, s, es[0]);
      RunInv(cfg, Step(cfg, s, es[0]), es[1..]);
    }
  }

  /** The states that some run leads to. */
  ghost predicate Reachable(cfg: Config, s: State)
    requires Shaped(cfg)
  {
    exists s0, es :: Init(cfg, s0) && s == Run(cfg, s0, es)
  }

  lemma ReachableRun(cfg: Config, s: State, es: seq<Event>)
    requires Shaped(cfg) && Reachable(cfg, s)
    ensures Reachable(cfg, Run(cfg, s, es))
  {
    var s0, es0 :| Init(cfg, s0) && s == Run(cfg, s0, es0);
    RunConcat(cfg, s0, es0, es);
  }

  lemma ReachableStep(cfg: Config, s: State, e: Event)
    requires Shaped(cfg) && Reachable(cfg, s)
    ensures Reachable(cfg, Step(cfg, s, e))
  {
    ReachableRun(cfg, s, [e]);
    assert Run(cfg, s, [e]) == Step(cfg, s, e);
  }

  lemma ReachableInv(cfg: Config, s: State)
    requires Shaped(cfg) && CollisionFree(cfg) && Reachable(cfg, s)
    ensures Inv(cfg, s)
  {
    var s0, es0 :| Init(cfg, s0) && s == Run(cfg, s0, es0);
    InitInv(cfg, s0);
    RunInv(cfg, s0, es0);
  }

  /** Nothing lost, duplicated, reordered or torn: what gets returned is a prefix of what puts published. */
  lemma DeliveredIsPrefix(cfg: Config, s: State, es: seq<Event>)
    requires Shaped(cfg) && CollisionFree(cfg) && Init(cfg, s)
    ensures var t := Run(cfg, s, es);
      && |t.got| <= Published(t.pcache, t.prod, t.puts) <= |t.puts|
      && |t.got| == t.taken - (if t.cons.CFlushIndex? then 1 else 0)
      && forall i :: 0 <= i < |t.got| ==> t.got[i] == (t.puts[i], i)
  {
    InitInv(cfg, s);
    RunInv(cfg, s, es);
  }

  /** The out-of-retries exit is never taken. */
  lemma RetriesSuffice(cfg: Config, s: State, es: seq<Event>)
    requires Shaped(cfg) && CollisionFree(cfg) && Init(cfg, s)
    ensures !Run(cfg, s, es).cons.CBadCrc?
    ensures Run(cfg, s, es).cons.CInvalidate? ==> Run(cfg, s, es).cons.retries == CONSUMER_NRETRIES
  {
    InitInv(cfg, s);
    RunInv(cfg, s, es);
  }

  /** Indices are the counters modulo the ring size, the ring never overflows, undelivered messages are in memory. */
  lemma RingIsSound(cfg: Config, s: State, es: seq<Event>)
    requires Shaped(cfg) && CollisionFree(cfg) && Init(cfg, s)
    ensures var t := Run(cfg, s, es);
      var stored := Stored(t.prod, t.puts);
      && 0 <= t.taken <= Published(t.pcache, t.prod, t.puts) <= stored < t.taken + cfg.nbuckets
      && View(t.mem, t.pcache, ProducerIndex) == stored % cfg.nbuckets
      && View(t.mem, t.ccache, ConsumerIndex) == t.taken % cfg.nbuckets
      && Held(cfg, t.mem, t.puts, t.taken, stored)
  {
    InitInv(cfg, s);
    RunInv(cfg, s, es);
  }

  /** No put in progress ever writes to the bucket of an undelivered message. */
  lemma PutsMissUndelivered(cfg: Config, s: State, es: seq<Event>, k: nat)
    requires Shaped(cfg) && CollisionFree(cfg) && Init(cfg, s)
    requires var t := Run(cfg, s, es); Busy(t.prod) && t.taken <= k < Stored(t.prod, t.puts)
    ensures Run(cfg, s, es).prod.index != k % cfg.nbuckets
  {
    InitInv(cfg, s);
    RunInv(cfg, s, es);
    var t := Run(cfg, s, es);
    SlotApart(cfg, k, Stored(t.prod, t.puts));
  }

  /** pcq_nmessages on indices already loaded. */
  function NMessages(nbuckets: nat, producerIndex: int, consumerIndex: int): int {
    if producerIndex == consumerIndex then 0
    else (if producerIndex < consumerIndex then producerIndex + nbuckets else producerIndex) - consumerIndex
  }

  lemma SlotDistance(cfg: Config, i: nat, j: nat)
    requires cfg.nbuckets > 0 && i <= j < i + cfg.nbuckets
    ensures NMessages(cfg.nbuckets, Slot(cfg, j), Slot(cfg, i)) == j - i
  {
    var n, q := cfg.nbuckets, i / cfg.nbuckets;
    DivMod(i, n);
    if i % n + (j - i) < n {
      DivModUnique(j, q, i % n + (j - i), n);
    } else {
      MulDistributes(q, 1, n);
      DivModUnique(j, q + 1, i % n + (j - i) - n, n);
    }
  }

  /** An observer that reads memory counts the published messages whose release is not yet in memory. */
  lemma ObserverCounts(cfg: Config, s: State, es: seq<Event>)
    requires Shaped(cfg) && CollisionFree(cfg) && Init(cfg, s)
    ensures var t := Run(cfg, s, es);
      NMessages(cfg.nbuckets, Peek(t.mem, ProducerIndex), Peek(t.mem, ConsumerIndex)) ==
      Published(t.pcache, t.prod, t.puts) - Released(t.ccache, t.taken)
  {
    InitInv(cfg, s);
    RunInv(cfg, s, es);
    var t := Run(cfg, s, es);
    SlotDistance(cfg, Released(t.ccache, t.taken), Published(t.pcache, t.prod, t.puts));
  }

  lemma SameSlotIsLaps(cfg: Config, i: nat, j: nat)
    requires cfg.nbuckets > 0 && i < j && Slot(cfg, i) == Slot(cfg, j)
    ensures j / cfg.nbuckets - i / cfg.nbuckets >= 1
    ensures i == j - (j / cfg.nbuckets - i / cfg.nbuckets) * cfg.nbuckets
  {
    var n := cfg.nbuckets;
    DivMod(i, n);
    DivMod(j, n);
    MulDistributes(j / n, i / n, n);
    if j / n <= i / n {
      MulMonotone(j / n, i / n, n);
    }
  }

  lemma MismatchIsOlder(cfg: Config, s: State) returns (k: nat)
    requires Shaped(cfg) && Inv(cfg, s) && s.cons.CBadSeq?
    ensures k < s.taken && k < |s.puts| && Slot(cfg, k) == Slot(cfg, s.taken) && s.cons.want == s.taken
    ensures s.cons.buf == Entry(cfg, s.puts, k)
  {
    k :| k < |s.puts| && Slot(cfg, k) == Slot(cfg, s.taken) && s.cons.buf == Entry(cfg, s.puts, k);
    assert s.cons.buf[|s.cons.buf| - 2] == k;
    if k > s.taken {
      SlotApart(cfg, s.taken, k);
    }
  }

  /** The fatal sequence mismatch is always a whole entry of an earlier lap. */
  lemma MismatchIsEarlierLap(cfg: Config, s: State, es: seq<Event>) returns (laps: nat)
    requires Shaped(cfg) && CollisionFree(cfg) && Init(cfg, s) && Run(cfg, s, es).cons.CBadSeq?
    ensures var t := Run(cfg, s, es);
      && laps >= 1 && t.cons.want == t.taken
      && var k := t.taken - laps * cfg.nbuckets; 0 <= k < |t.puts| && t.cons.buf == Entry(cfg, t.puts, k)
  {
    hide Inv, Init, CollisionFree, Run, Slot, Entry;
    InitInv(cfg, s);
    RunInv(cfg, s, es);
    var t := Run(cfg, s, es);
    var k := MismatchIsOlder(cfg, t);
    SameSlotIsLaps(cfg, k, t.taken);
    laps := t.taken / cfg.nbuckets - k / cfg.nbuckets;
  }
}
