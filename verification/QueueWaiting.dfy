/** Calls that wait, whatever the other host and the caches do meanwhile. */
module QueueWaiting {
  import opened Fabric
  import opened Queue
  import opened QueueInvariant
  import opened QueueProof
  import opened QueueProducer
  import opened QueueTheorems

  /** The ring has room for one more message than is stored, as main memory has it. */
  predicate HasRoom(cfg: Config, s: State) {
    Stored(s.prod, s.puts) < Released(s.ccache, s.taken) + cfg.nbuckets - 1
  }

  // ---------- one poll ----------

  lemma RunThree(cfg: Config, s: State, a: Event, b: Event, c: Event)
    requires cfg.nbuckets > 0
    ensures Run(cfg, s, [a, b, c]) == Step(cfg, Step(cfg, Step(cfg, s, a), b), c)
  {
    hide Step;
    assert [a, b, c][1..] == [b, c] && [b, c][1..] == [c] && [c][1..] == [];
    FirstStep(cfg, s, [a, b, c]);
    FirstStep(cfg, Step(cfg, s, a), [b, c]);
    FirstStep(cfg, Step(cfg, Step(cfg, s, a), b), [c]);
  }

  lemma FirstStep(cfg: Config, s: State, es: seq<Event>)
    requires cfg.nbuckets > 0 && es != []
    ensures Run(cfg, s, es) == Run(cfg, Step(cfg, s, es[0]), es[1..])
  {
    hide Step;
  }

  /** What the full test sees of an index that is not cached. */
  lemma UncachedLimit(cfg: Config, s: State)
    requires Shaped(cfg) && Inv(cfg, s) && ConsumerIndex !in s.pcache && !Busy(s.prod) && !s.prod.PAssign?
    ensures var stored := Stored(s.prod, s.puts);
      && stored >= 0 && View(s.mem, s.pcache, ProducerIndex) == Slot(cfg, stored)
      && ((Slot(cfg, stored) + 1) % cfg.nbuckets != View(s.mem, s.pcache, ConsumerIndex) <==> HasRoom(cfg, s))
  {
    hide Cells, Writing, Sized, Reading, Copying, Retrying, Delivered;
    var stored, released := Stored(s.prod, s.puts), Released(s.ccache, s.taken);
    SlotNext(cfg, stored);
    if stored < released + cfg.nbuckets - 1 {
      StoredAhead(cfg, s);
      SlotApart(cfg, released, stored + 1);
    } else {
      SlotLap(cfg, released, 1);
      assert stored + 1 == released + 1 * cfg.nbuckets;
    }
  }

  lemma StoredAhead(cfg: Config, s: State)
    requires Shaped(cfg) && Inv(cfg, s)
    ensures Released(s.ccache, s.taken) <= s.taken <= Published(s.pcache, s.prod, s.puts) <= Stored(s.prod, s.puts)
  {
    hide Cells, Writing, Sized, Copying, Retrying, Delivered;
  }

  /**
   A put that waits drops its copy of consumer_index and looks again: it goes on with its message
   if and only if there is room, and nothing else has changed.
   */
  lemma PutPoll(cfg: Config, s: State, w: int, keep: bool)
    requires Shaped(cfg) && CollisionFree(cfg) && Reachable(cfg, s) && s.prod.PFull?
    ensures var t := Run(cfg, s, [PutWait, PutStep(w, keep), PutStep(w, keep)]);
      && t.prod == (if HasRoom(cfg, s) then PAssign(s.prod.msg, Stored(s.prod, s.puts) % cfg.nbuckets)
                    else PFull(s.prod.msg))
      && t == s.(mem := t.mem, pcache := t.pcache, prod := t.prod) && t.mem == s.mem
  {
    hide Run, Inv, Reachable, CollisionFree;
    ReachableInv(cfg, s);
    PutCallInv(cfg, s, PutWait);
    WaitDrops(cfg, s);
    RunThree(cfg, s, PutWait, PutStep(w, keep), PutStep(w, keep));
    hide Step;
    LooksAgain(cfg, Step(cfg, s, PutWait), w, keep);
  }

  /** The wait itself. */
  lemma WaitDrops(cfg: Config, s: State)
    requires Shaped(cfg) && Inv(cfg, s) && s.prod.PFull?
    ensures Step(cfg, s, PutWait) == s.(pcache := s.pcache - {ConsumerIndex}, prod := PLoadIndex(s.prod.msg))
  {
    NotDirty(cfg, s);
    hide Inv;
  }

  lemma LooksAgain(cfg: Config, s: State, w: int, keep: bool)
    requires Shaped(cfg) && Inv(cfg, s) && s.prod.PLoadIndex? && ConsumerIndex !in s.pcache
    ensures Step(cfg, Step(cfg, s, PutStep(w, keep)), PutStep(w, keep)) ==
      s.(prod := if HasRoom(cfg, s) then PAssign(s.prod.msg, Stored(s.prod, s.puts) % cfg.nbuckets)
                 else PFull(s.prod.msg))
  {
    UncachedLimit(cfg, s);
    hide Inv, View, GetAdvance, Stored, Released;
  }

  lemma NotDirty(cfg: Config, s: State)
    requires Shaped(cfg) && Inv(cfg, s)
    ensures !Dirty(s.pcache, ConsumerIndex) && !Dirty(s.ccache, ProducerIndex)
  {
    hide Stamped, Held, ProducerSide, ConsumerSide;
  }

  /** A get that waits looks again: it goes on if and only if a message is published. */
  lemma GetPoll(cfg: Config, s: State, w: int, keep: bool)
    requires Shaped(cfg) && CollisionFree(cfg) && Reachable(cfg, s) && s.cons.CEmpty?
    ensures var step := GetStep(w, keep);
      var t := Run(cfg, s, [GetWait, step, step, step]);
      && t.cons == (if s.taken < Published(s.pcache, s.prod, s.puts) then CExpect(s.taken % cfg.nbuckets) else CEmpty)
      && t == s.(ccache := t.ccache, cons := t.cons)
  {
    hide Run, Inv, Reachable, CollisionFree;
    ReachableInv(cfg, s);
    var step := GetStep(w, keep);
    var a := s.(cons := CLoadIndex);
    assert Step(cfg, s, GetWait) == a;
    assert [GetWait, step, step, step][1..] == [step, step, step];
    RunThree(cfg, a, step, step, step);
    FirstStep(cfg, s, [GetWait, step, step, step]);
    LooksForMessage(cfg, s, w, keep);
  }

  lemma LooksForMessage(cfg: Config, s: State, w: int, keep: bool)
    requires Shaped(cfg) && Inv(cfg, s)
    ensures var a, step := s.(cons := CLoadIndex), GetStep(w, keep);
      Step(cfg, Step(cfg, Step(cfg, a, step), step), step) ==
      s.(ccache := s.ccache - {ProducerIndex},
         cons := if s.taken < Published(s.pcache, s.prod, s.puts) then CExpect(s.taken % cfg.nbuckets) else CEmpty)
  {
    NotDirty(cfg, s);
    StoredAhead(cfg, s);
    PublishedIndex(cfg, s);
    hide Inv, PutAdvance, Published;
    var step := GetStep(w, keep);
    var b := Step(cfg, s.(cons := CLoadIndex), step);
    assert b == s.(cons := CInvalidateIndex(s.taken % cfg.nbuckets));
    var c := Step(cfg, b, step);
    assert c == s.(ccache := s.ccache - {ProducerIndex}, cons := CLoadLimit(s.taken % cfg.nbuckets));
  }

  lemma PublishedIndex(cfg: Config, s: State)
    requires Shaped(cfg) && Inv(cfg, s)
    ensures View(s.mem, s.ccache, ConsumerIndex) == Slot(cfg, s.taken)
    ensures Peek(s.mem, ProducerIndex) == Slot(cfg, s.taken) <==> s.taken == Published(s.pcache, s.prod, s.puts)
  {
    StoredAhead(cfg, s);
    RoomBound(cfg, s);
    hide Cells, Writing, Sized, Copying, Retrying, Delivered;
    var published := Published(s.pcache, s.prod, s.puts);
    if s.taken < published {
      SlotApart(cfg, s.taken, published);
    }
  }

  lemma RoomBound(cfg: Config, s: State)
    requires Shaped(cfg) && Inv(cfg, s)
    ensures Stored(s.prod, s.puts) < s.taken + cfg.nbuckets
  {
    hide Cells, Writing, Sized, Copying, Retrying, Delivered;
  }

  // ---------- whatever else happens ----------

  /** Events that are not steps or calls of the producer; its cache may still be filled and evicted. */
  predicate NotProducer(e: Event) {
    !e.PutBegin? && !e.PutWait? && !e.PutGiveUp? && !e.PutStep?
  }

  ghost predicate Elsewhere(es: seq<Event>) {
    forall i :: 0 <= i < |es| ==> NotProducer(es[i])
  }

  /** `r` messages or more have been given back, also as far as the producer's cache knows. */
  ghost predicate KnowsOf(cfg: Config, s: State, r: int)
    requires Shaped(cfg)
  {
    && r <= Released(s.ccache, s.taken)
    && (ConsumerIndex in s.pcache ==> Lag(cfg, s.pcache[ConsumerIndex].val, r, Released(s.ccache, s.taken)))
  }

  lemma LagWider(cfg: Config, x: int, lo: int, hi: int, hi': int)
    requires Shaped(cfg) && Lag(cfg, x, lo, hi) && hi <= hi'
    ensures Lag(cfg, x, lo, hi')
  {
  }

  /** The consumer never takes back what it has released. */
  lemma ReleasedGrows(cfg: Config, s: State, e: Event)
    requires Shaped(cfg) && Inv(cfg, s) && NotProducer(e)
    ensures var t := Step(cfg, s, e);
      && t.prod == s.prod && t.puts == s.puts && Released(s.ccache, s.taken) <= Released(t.ccache, t.taken)
      && (!e.ProducerFill? && !e.ProducerEvict? ==> t.pcache == s.pcache)
  {
    hide Inv, PutAdvance, GetAdvance;
    ConsumerDirty(cfg, s);
    NotDirty(cfg, s);
    if e.GetStep? {
      GetLeaves(cfg, s, e.word, e.keep);
      GetReleases(cfg, s, e.word, e.keep);
    }
  }

  lemma GetLeaves(cfg: Config, s: State, w: int, keep: bool)
    requires cfg.nbuckets > 0
    ensures var t := GetAdvance(cfg, s, w, keep); t.puts == s.puts && t.prod == s.prod && t.pcache == s.pcache
  {
    hide View, Store, WriteBack, Flushed, GoodCrc, AllWords;
  }

  lemma GetReleases(cfg: Config, s: State, w: int, keep: bool)
    requires Shaped(cfg) && (Dirty(s.ccache, ConsumerIndex) ==> s.cons.CFlushIndex?)
    ensures var t := GetAdvance(cfg, s, w, keep); Released(s.ccache, s.taken) <= Released(t.ccache, t.taken)
  {
    hide View, WriteBack, GoodCrc, AllWords, Peek;
    assert forall a, c: Cache<Cell>, v :: a != ConsumerIndex ==>
      Dirty(Store(c, a, v), ConsumerIndex) == Dirty(c, ConsumerIndex);
    assert forall a, c: Cache<Cell> :: a != ConsumerIndex ==>
      Dirty(Flushed(c, a, false), ConsumerIndex) == Dirty(c, ConsumerIndex);
  }

  lemma ConsumerDirty(cfg: Config, s: State)
    requires Shaped(cfg) && Inv(cfg, s)
    ensures Dirty(s.ccache, ConsumerIndex) ==> s.cons.CFlushIndex?
  {
    hide Cells, ProducerSide, Reading, Copying, Retrying, Delivered;
  }

  lemma KnowsNext(cfg: Config, s: State, e: Event, r: int)
    requires Shaped(cfg) && CollisionFree(cfg) && Inv(cfg, s) && KnowsOf(cfg, s, r) && NotProducer(e) && 0 <= r
    ensures KnowsOf(cfg, Step(cfg, s, e), r)
  {
    ReleasedGrows(cfg, s, e);
    MemoryIndex(cfg, s);
    var t := Step(cfg, s, e);
    var released, released' := Released(s.ccache, s.taken), Released(t.ccache, t.taken);
    LagWitness(cfg, released, r, released);
    hide Inv, CollisionFree, GetAdvance, PutAdvance, Released, Lag, Slot;
    if ConsumerIndex in s.pcache {
      LagWider(cfg, s.pcache[ConsumerIndex].val, r, released, released');
    } else {
      LagWider(cfg, Slot(cfg, released), r, released, released');
    }
  }

  lemma MemoryIndex(cfg: Config, s: State)
    requires Shaped(cfg) && Inv(cfg, s)
    ensures 0 <= Released(s.ccache, s.taken)
    ensures Peek(s.mem, ConsumerIndex) == Slot(cfg, Released(s.ccache, s.taken))
  {
    hide Cells, ProducerSide, Reading, Copying, Retrying, Delivered;
  }

  lemma {:induction false} KnowsLater(cfg: Config, s: State, es: seq<Event>, r: int)
    requires Shaped(cfg) && CollisionFree(cfg) && Inv(cfg, s) && KnowsOf(cfg, s, r) && Elsewhere(es) && 0 <= r
    ensures var t := Run(cfg, s, es); Inv(cfg, t) && KnowsOf(cfg, t, r) && t.prod == s.prod && t.puts == s.puts
    decreases |es|
  {
    hide Step, Inv, KnowsOf, CollisionFree, NotProducer;
    if es != [] {
      var t := Step(cfg, s, es[0]);
      StepInv(cfg, s, es[0]);
      KnowsNext(cfg, s, es[0], r);
      ReleasedGrows(cfg, s, es[0]);
      KnowsLater(cfg, t, es[1..], r);
    }
  }

  /** With room that the producer's cache knows of, the full test passes. */
  lemma KnownRoomPasses(cfg: Config, s: State, r: int)
    requires Shaped(cfg) && Inv(cfg, s) && KnowsOf(cfg, s, r) && 0 <= r
    requires !Busy(s.prod) && !s.prod.PAssign? && Stored(s.prod, s.puts) < r + cfg.nbuckets - 1
    ensures var stored := Stored(s.prod, s.puts);
      && stored >= 0 && View(s.mem, s.pcache, ProducerIndex) == Slot(cfg, stored)
      && (Slot(cfg, stored) + 1) % cfg.nbuckets != View(s.mem, s.pcache, ConsumerIndex)
  {
    StoredAhead(cfg, s);
    MemoryIndex(cfg, s);
    hide Cells, Writing, Sized, ConsumerSide;
    var stored, released := Stored(s.prod, s.puts), Released(s.ccache, s.taken);
    SlotNext(cfg, stored);
    var k: nat := released;
    if ConsumerIndex in s.pcache {
      k :| r <= k <= released && s.pcache[ConsumerIndex].val == Slot(cfg, k);
    }
    SlotApart(cfg, k, stored + 1);
  }

  /**
   A put that waits when there is room goes on with its message, whatever the consumer and the
   caches do between its steps.
   */
  lemma PutResumes(cfg: Config, s: State, es: seq<Event>, fs: seq<Event>, w: int, keep: bool)
    requires Shaped(cfg) && CollisionFree(cfg) && Reachable(cfg, s) && s.prod.PFull? && HasRoom(cfg, s)
    requires Elsewhere(es) && Elsewhere(fs)
    ensures var looked := Step(cfg, Run(cfg, Step(cfg, s, PutWait), es), PutStep(w, keep));
      var t := Step(cfg, Run(cfg, looked, fs), PutStep(w, keep));
      t.prod == PAssign(s.prod.msg, Stored(s.prod, s.puts) % cfg.nbuckets) && t.puts == s.puts
  {
    hide Run, Inv, Reachable, CollisionFree, KnowsOf, Elsewhere, Stored, Released;
    var r := Released(s.ccache, s.taken);
    ReachableInv(cfg, s);
    MemoryIndex(cfg, s);
    PutCallInv(cfg, s, PutWait);
    WaitDrops(cfg, s);
    var a := Step(cfg, s, PutWait);
    Uncached(cfg, a, r);
    KnowsLater(cfg, a, es, r);
    var b := Run(cfg, a, es);
    SameStored(s, b);
    KnownRoomPasses(cfg, b, r);
    StepInv(cfg, b, PutStep(w, keep));
    var looked := Step(cfg, b, PutStep(w, keep));
    LookOnce(cfg, b, r, w, keep);
    KnowsLater(cfg, looked, fs, r);
    var c := Run(cfg, looked, fs);
    SameStored(s, c);
    KnownRoomPasses(cfg, c, r);
  }

  lemma Uncached(cfg: Config, s: State, r: int)
    requires Shaped(cfg) && ConsumerIndex !in s.pcache && r == Released(s.ccache, s.taken)
    ensures KnowsOf(cfg, s, r)
  {
  }

  lemma SameStored(s: State, t: State)
    requires s.puts == t.puts && !Busy(s.prod) && !Busy(t.prod)
    ensures Stored(s.prod, s.puts) == Stored(t.prod, t.puts)
  {
  }

  lemma LookOnce(cfg: Config, s: State, r: int, w: int, keep: bool)
    requires Shaped(cfg) && KnowsOf(cfg, s, r) && s.prod.PLoadIndex?
    ensures var t := Step(cfg, s, PutStep(w, keep));
      && t == s.(prod := PLoadLimit(s.prod.msg, View(s.mem, s.pcache, ProducerIndex))) && KnowsOf(cfg, t, r)
  {
    hide View, GetAdvance, Released, Lag;
  }

  // ---------- the same for the consumer ----------

  predicate NotConsumer(e: Event) {
    !e.GetBegin? && !e.GetWait? && !e.GetGiveUp? && !e.GetStep?
  }

  ghost predicate OtherHost(es: seq<Event>) {
    forall i :: 0 <= i < |es| ==> NotConsumer(es[i])
  }

  /** `p` messages or more are published, also as far as the consumer's cache knows. */
  ghost predicate SeesSome(cfg: Config, s: State, p: int)
    requires Shaped(cfg)
  {
    var published := Published(s.pcache, s.prod, s.puts);
    p <= published && (ProducerIndex in s.ccache ==> Lag(cfg, s.ccache[ProducerIndex].val, p, published))
  }

  lemma PutPublishes(cfg: Config, s: State, w: int, keep: bool)
    requires Shaped(cfg) && (Dirty(s.pcache, ProducerIndex) ==> s.prod.PFlushIndex?)
    ensures var t := PutAdvance(cfg, s, w, keep);
      Published(s.pcache, s.prod, s.puts) <= Published(t.pcache, t.prod, t.puts)
  {
    hide View, WriteBack, Sealed, AllWords, Peek;
  }

  lemma PutLeaves(cfg: Config, s: State, w: int, keep: bool)
    requires cfg.nbuckets > 0
    ensures var t := PutAdvance(cfg, s, w, keep); t.ccache == s.ccache && t.cons == s.cons && t.taken == s.taken
  {
    hide View, Store, WriteBack, Flushed, Sealed, AllWords;
  }

  lemma ProducerDirty(cfg: Config, s: State)
    requires Shaped(cfg) && Inv(cfg, s)
    ensures Dirty(s.pcache, ProducerIndex) ==> s.prod.PFlushIndex?
    ensures 0 <= Published(s.pcache, s.prod, s.puts)
    ensures Peek(s.mem, ProducerIndex) == Slot(cfg, Published(s.pcache, s.prod, s.puts))
  {
    hide Cells, ConsumerSide, Room, Writing, Sized;
  }

  /** The producer never takes back what it has published. */
  lemma PublishedGrows(cfg: Config, s: State, e: Event)
    requires Shaped(cfg) && Inv(cfg, s) && NotConsumer(e)
    ensures var t := Step(cfg, s, e);
      && t.cons == s.cons && t.taken == s.taken
      && Published(s.pcache, s.prod, s.puts) <= Published(t.pcache, t.prod, t.puts)
      && (!e.ConsumerFill? && !e.ConsumerEvict? ==> t.ccache == s.ccache)
  {
    hide Inv, PutAdvance, GetAdvance;
    ProducerDirty(cfg, s);
    if e.PutStep? {
      PutLeaves(cfg, s, e.word, e.keep);
      PutPublishes(cfg, s, e.word, e.keep);
    }
  }

  lemma SeesNext(cfg: Config, s: State, e: Event, p: int)
    requires Shaped(cfg) && Inv(cfg, s) && SeesSome(cfg, s, p) && NotConsumer(e) && 0 <= p
    ensures SeesSome(cfg, Step(cfg, s, e), p)
  {
    PublishedGrows(cfg, s, e);
    ProducerDirty(cfg, s);
    var t := Step(cfg, s, e);
    var published, published' := Published(s.pcache, s.prod, s.puts), Published(t.pcache, t.prod, t.puts);
    LagWitness(cfg, published, p, published);
    hide Inv, GetAdvance, PutAdvance, Published, Lag, Slot;
    if ProducerIndex in s.ccache {
      LagWider(cfg, s.ccache[ProducerIndex].val, p, published, published');
    } else {
      LagWider(cfg, Slot(cfg, published), p, published, published');
    }
  }

  lemma {:induction false} SeesLater(cfg: Config, s: State, es: seq<Event>, p: int)
    requires Shaped(cfg) && CollisionFree(cfg) && Inv(cfg, s) && SeesSome(cfg, s, p) && OtherHost(es) && 0 <= p
    ensures var t := Run(cfg, s, es); Inv(cfg, t) && SeesSome(cfg, t, p) && t.cons == s.cons && t.taken == s.taken
    decreases |es|
  {
    hide Step, Inv, SeesSome, CollisionFree, NotConsumer;
    if es != [] {
      StepInv(cfg, s, es[0]);
      SeesNext(cfg, s, es[0], p);
      PublishedGrows(cfg, s, es[0]);
      SeesLater(cfg, Step(cfg, s, es[0]), es[1..], p);
    }
  }

  lemma SeenMessagePasses(cfg: Config, s: State, index: int)
    requires Shaped(cfg) && Inv(cfg, s) && SeesSome(cfg, s, s.taken + 1) && index == Slot(cfg, s.taken)
    ensures index != View(s.mem, s.ccache, ProducerIndex)
  {
    ProducerDirty(cfg, s);
    RoomBound(cfg, s);
    StoredAhead(cfg, s);
    hide Inv;
    var published := Published(s.pcache, s.prod, s.puts);
    var k: nat := published;
    if ProducerIndex in s.ccache {
      k :| s.taken + 1 <= k <= published && s.ccache[ProducerIndex].val == Slot(cfg, k);
    }
    SlotApart(cfg, s.taken, k);
  }

  /**
   A get that looks when a message is published goes on to fetch it, whatever the producer and the
   caches do between its steps.
   */
  lemma GetResumes(cfg: Config, s: State, es: seq<Event>, w: int, keep: bool)
    requires Shaped(cfg) && CollisionFree(cfg) && Reachable(cfg, s) && s.cons.CInvalidateIndex?
    requires s.taken < Published(s.pcache, s.prod, s.puts) && OtherHost(es)
    ensures var t := Step(cfg, Run(cfg, Step(cfg, s, GetStep(w, keep)), es), GetStep(w, keep));
      t.cons == CExpect(s.taken % cfg.nbuckets) && t.taken == s.taken
  {
    hide Run, Inv, Reachable, CollisionFree, SeesSome, OtherHost, Published, PutAdvance;
    ReachableInv(cfg, s);
    NotDirty(cfg, s);
    ReadingIndex(cfg, s);
    StepInv(cfg, s, GetStep(w, keep));
    var a := Step(cfg, s, GetStep(w, keep));
    assert a == s.(ccache := s.ccache - {ProducerIndex}, cons := CLoadLimit(s.taken % cfg.nbuckets));
    SeesUncached(cfg, a);
    SeesLater(cfg, a, es, s.taken + 1);
    SeenMessagePasses(cfg, Run(cfg, a, es), s.taken % cfg.nbuckets);
  }

  lemma SeesUncached(cfg: Config, s: State)
    requires Shaped(cfg) && ProducerIndex !in s.ccache && s.taken < Published(s.pcache, s.prod, s.puts)
    ensures SeesSome(cfg, s, s.taken + 1)
  {
  }

  lemma ReadingIndex(cfg: Config, s: State)
    requires Shaped(cfg) && Inv(cfg, s) && s.cons.CInvalidateIndex?
    ensures s.cons.index == Slot(cfg, s.taken)
  {
    hide Cells, ProducerSide, ConsumerCounts, Copying, Retrying, Delivered;
  }

  // ---------- what was asked for is what is put ----------

  /** The message of a put that has no sequence number yet. */
  function Pending(prod: Producer): seq<seq<int>> {
    if prod.PLoadIndex? || prod.PLoadLimit? || prod.PFull? || prod.PAssign? then [prod.msg] else []
  }

  /** The messages that callers have asked to put, less those given up on a full queue. */
  function Asked(cfg: Config, s: State, asked: seq<seq<int>>, es: seq<Event>): seq<seq<int>>
    requires cfg.nbuckets > 0
    decreases |es|
  {
    if es == [] then asked
    else
      var e := es[0];
      var now :=
        if e.PutBegin? && s.prod.PIdle? && |e.msg| + 2 == cfg.words then asked + [e.msg]
        else if e.PutGiveUp? && s.prod.PFull? && asked != [] then asked[..|asked| - 1]
        else asked;
      Asked(cfg, Step(cfg, s, e), now, es[1..])
  }

  lemma AskedStep(cfg: Config, s: State, e: Event)
    requires cfg.nbuckets > 0
    ensures var asked, t := s.puts + Pending(s.prod), Step(cfg, s, e);
      t.puts + Pending(t.prod) ==
        if e.PutBegin? && s.prod.PIdle? && |e.msg| + 2 == cfg.words then asked + [e.msg]
        else if e.PutGiveUp? && s.prod.PFull? && asked != [] then asked[..|asked| - 1]
        else asked
  {
    hide PutAdvance, GetAdvance, WriteBack, Flushed, Fill;
    if e.PutStep? {
      AskedPut(cfg, s, e.word, e.keep);
    } else if e.GetStep? {
      GetLeaves(cfg, s, e.word, e.keep);
    }
  }

  lemma AskedPut(cfg: Config, s: State, w: int, keep: bool)
    requires cfg.nbuckets > 0
    ensures var t := PutAdvance(cfg, s, w, keep); t.puts + Pending(t.prod) == s.puts + Pending(s.prod)
  {
    hide View, Store, WriteBack, Flushed, Sealed, AllWords;
  }

  lemma {:induction false} AskedRun(cfg: Config, s: State, es: seq<Event>)
    requires cfg.nbuckets > 0
    ensures var t := Run(cfg, s, es); Asked(cfg, s, s.puts + Pending(s.prod), es) == t.puts + Pending(t.prod)
    decreases |es|
  {
    if es != [] {
      AskedStep(cfg, s, es[0]);
      AskedRun(cfg, Step(cfg, s, es[0]), es[1..]);
      hide Step, Pending;
    }
  }

  /** Over every run from a fresh queue: what was put, and what is pending, is what callers asked for, in order. */
  lemma PutsAreAsked(cfg: Config, s: State, es: seq<Event>)
    requires Shaped(cfg) && Init(cfg, s)
    ensures var t := Run(cfg, s, es); t.puts + Pending(t.prod) == Asked(cfg, s, [], es)
  {
    AskedRun(cfg, s, es);
    hide Run, Asked;
    assert s.puts + Pending(s.prod) == [];
  }
}
