/** The steps of pcq_consumer_get keep the invariant. */
module QueueConsumer {
  import opened Fabric
  import opened Queue
  import opened QueueInvariant
  import opened QueueProof

  /** A step that moves the consumer along without storing consumer_index. */
  lemma Moves(cfg: Config, s: State, cons: Consumer)
    requires Shaped(cfg) && Inv(cfg, s) && ConsumerSide(cfg, s.(cons := cons))
    ensures Inv(cfg, s.(cons := cons))
  {
  }

  /** Points of a get that neither hold a sequence number nor a copy of the bucket. */
  predicate Looking(cons: Consumer) {
    cons.CIdle? || cons.CLoadIndex? || cons.CInvalidateIndex? || cons.CLoadLimit? || cons.CEmpty?
  }

  lemma Looks(cfg: Config, s: State, cons: Consumer)
    requires Shaped(cfg) && Inv(cfg, s) && Looking(s.cons) && Looking(cons)
    requires cons.CInvalidateIndex? || cons.CLoadLimit? ==> cons.index == View(s.mem, s.ccache, ConsumerIndex)
    requires cons.CLoadLimit? ==> ProducerIndex !in s.ccache
    ensures Inv(cfg, s.(cons := cons))
  {
    Moves(cfg, s, cons);
  }

  lemma LooksInv(cfg: Config, s: State)
    requires Shaped(cfg) && Inv(cfg, s) && (s.cons.CLoadIndex? || s.cons.CInvalidateIndex?)
    ensures Inv(cfg, GetAdvance(cfg, s, 0, true))
  {
    if s.cons.CLoadIndex? {
      Looks(cfg, s, CInvalidateIndex(View(s.mem, s.ccache, ConsumerIndex)));
    } else {
      var t := Step(cfg, s, ConsumerEvict(ProducerIndex, false));
      ConsumerEvictInv(cfg, s, ProducerIndex, false);
      Looks(cfg, t, CLoadLimit(s.cons.index));
    }
  }

  lemma LoadLimit(cfg: Config, s: State)
    requires Shaped(cfg) && Inv(cfg, s) && s.cons.CLoadLimit?
    ensures Inv(cfg, GetAdvance(cfg, s, 0, true))
  {
    if s.cons.index != View(s.mem, s.ccache, ProducerIndex) {
      LimitIsSafe(cfg, s);
      Moves(cfg, s, CExpect(s.cons.index));
    } else {
      Looks(cfg, s, CEmpty);
    }
  }

  /** However old the producer_index that was loaded, it was not older than the last get. */
  lemma LimitIsSafe(cfg: Config, s: State)
    requires Shaped(cfg) && Inv(cfg, s) && s.cons.CLoadLimit?
    requires s.cons.index != View(s.mem, s.ccache, ProducerIndex)
    ensures s.taken < Published(s.pcache, s.prod, s.puts)
  {
    if ProducerIndex in s.ccache {
      var k: nat :| s.taken <= k <= Published(s.pcache, s.prod, s.puts)
                    && s.ccache[ProducerIndex].val == Slot(cfg, k);
      assert k != s.taken;
    }
  }

  lemma StoreCells(cfg: Config, s: State, a: Cell, v: int)
    requires Shaped(cfg) && Cells(cfg, s) && !ProducerOwned(a)
    ensures Owned(s.mem, s.pcache, Store(s.ccache, a, v))
    ensures Stamped(cfg, s.mem, s.pcache, Store(s.ccache, a, v), s.puts)
  {
  }

  lemma ExpectSide(cfg: Config, s: State)
    requires Shaped(cfg) && ConsumerSide(cfg, s) && s.cons.CExpect?
    requires s.taken < |s.puts| && forall k :: 0 <= k < |s.puts| ==> |s.puts[k]| + 2 == cfg.words
    ensures ConsumerSide(cfg, GetAdvance(cfg, s, 0, true))
  {
  }

  lemma ExpectInv(cfg: Config, s: State)
    requires Shaped(cfg) && Inv(cfg, s) && s.cons.CExpect?
    ensures Inv(cfg, GetAdvance(cfg, s, 0, true))
  {
    StoreCells(cfg, s, ConsumerSeq, s.taken + 1);
    ExpectSide(cfg, s);
  }

  /** The next message is in memory, whole. */
  lemma NextHeld(cfg: Config, s: State)
    requires Shaped(cfg) && Inv(cfg, s) && Fetching(s.cons)
    ensures var entry := Entry(cfg, s.puts, s.taken);
      && |entry| == cfg.words && entry[cfg.words - 2] == s.taken && GoodCrc(cfg, entry)
      && forall w :: 0 <= w < |entry| ==> Peek(s.mem, Word(s.cons.index, w)) == entry[w]
  {
    var entry := Entry(cfg, s.puts, s.taken);
    assert entry[..cfg.words - 1] == s.puts[s.taken] + [s.taken];
  }

  lemma CopyRetrying(cfg: Config, s: State, w: int)
    requires Shaped(cfg) && Inv(cfg, s) && s.cons.CCopy? && w in s.cons.todo
    ensures 0 <= w < |s.cons.buf|
    ensures Retrying(cfg, s.ccache, GetAdvance(cfg, s, w, true).cons, s.puts, s.taken)
  {
    NextHeld(cfg, s);
  }

  lemma CopyStamped(cfg: Config, s: State, w: int)
    requires Shaped(cfg) && Inv(cfg, s) && s.cons.CCopy? && w in s.cons.todo
    ensures Copying(cfg, GetAdvance(cfg, s, w, true).cons, s.puts)
  {
    assert forall b :: Stamp(cfg, s.puts, b, View(s.mem, s.ccache, CrcCell(cfg, b)));
    assert CrcCell(cfg, s.cons.index) == Word(s.cons.index, cfg.words - 1);
  }

  lemma CopyInv(cfg: Config, s: State, w: int)
    requires Shaped(cfg) && Inv(cfg, s) && s.cons.CCopy? && w in s.cons.todo
    ensures Inv(cfg, GetAdvance(cfg, s, w, true))
  {
    hide Owned, Stamped, Held, Sized, ProducerCounts, Room, Writing, View, Slot, Entry;
    CopyRetrying(cfg, s, w);
    CopyStamped(cfg, s, w);
    Moves(cfg, s, GetAdvance(cfg, s, w, true).cons);
  }

  lemma CopyDone(cfg: Config, s: State)
    requires Shaped(cfg) && Inv(cfg, s) && s.cons.CCopy? && s.cons.todo == {}
    ensures Inv(cfg, GetAdvance(cfg, s, 0, true))
  {
    Moves(cfg, s, CVerify(s.cons.index, s.cons.want, s.cons.retries, s.cons.buf));
  }

  /** With no collisions, a copy with a good checksum is a whole entry, however torn the reads were. */
  lemma GoodCopy(cfg: Config, puts: Puts, b: int, buf: seq<int>)
    requires Shaped(cfg) && CollisionFree(cfg)
    requires forall k :: 0 <= k < |puts| ==> |puts[k]| + 2 == cfg.words
    requires GoodCrc(cfg, buf) && Stamp(cfg, puts, b, buf[cfg.words - 1])
    ensures Accepted(cfg, puts, b, buf)
  {
    var body := buf[..cfg.words - 1];
    assert !Junk(cfg, buf[cfg.words - 1]);
    var k: nat :| k < |puts| && Slot(cfg, k) == b && buf[cfg.words - 1] == cfg.crc(puts[k] + [k]);
    assert body == puts[k] + [k];
    assert buf == body + [buf[cfg.words - 1]] == Entry(cfg, puts, k);
  }

  lemma VerifyGood(cfg: Config, s: State)
    requires Shaped(cfg) && CollisionFree(cfg) && Inv(cfg, s) && s.cons.CVerify? && GoodCrc(cfg, s.cons.buf)
    ensures Inv(cfg, s.(cons := CCheckSeq(s.cons.want, s.cons.buf)))
  {
    GoodCopy(cfg, s.puts, s.cons.index, s.cons.buf);
    Moves(cfg, s, CCheckSeq(s.cons.want, s.cons.buf));
  }

  /** A bad checksum comes from a copy made before any invalidate. */
  lemma BadCopyIsFirst(cfg: Config, s: State)
    requires Shaped(cfg) && Inv(cfg, s) && s.cons.CVerify? && !GoodCrc(cfg, s.cons.buf)
    ensures s.cons.retries == CONSUMER_NRETRIES
  {
    assert s.cons.retries < CONSUMER_NRETRIES ==> s.cons.buf == Entry(cfg, s.puts, s.taken);
    NextHeld(cfg, s);
  }

  lemma VerifyBad(cfg: Config, s: State)
    requires Shaped(cfg) && Inv(cfg, s) && s.cons.CVerify? && !GoodCrc(cfg, s.cons.buf)
    ensures Inv(cfg, s.(cons := CInvalidate(s.cons.index, s.cons.want, s.cons.retries, s.cons.buf, AllWords(cfg))))
  {
    BadCopyIsFirst(cfg, s);
    Moves(cfg, s, CInvalidate(s.cons.index, s.cons.want, s.cons.retries, s.cons.buf, AllWords(cfg)));
  }

  function Invalidated(cons: Consumer, w: int): Consumer
    requires cons.CInvalidate?
  {
    CInvalidate(cons.index, cons.want, cons.retries, cons.buf, cons.todo - {w})
  }

  lemma Invalidate(cfg: Config, s: State, w: int)
    requires Shaped(cfg) && Inv(cfg, s) && s.cons.CInvalidate? && Word(s.cons.index, w) !in s.ccache
    ensures Inv(cfg, s.(cons := Invalidated(s.cons, w)))
  {
    Moves(cfg, s, Invalidated(s.cons, w));
  }

  lemma InvalidateIsEvict(cfg: Config, s: State, w: int, keep: bool) returns (t: State)
    requires Shaped(cfg) && s.cons.CInvalidate? && w in s.cons.todo
    ensures t == Step(cfg, s, ConsumerEvict(Word(s.cons.index, w), false))
    ensures t.cons == s.cons && Word(s.cons.index, w) !in t.ccache
    ensures GetAdvance(cfg, s, w, keep) == t.(cons := Invalidated(t.cons, w))
  {
    t := Step(cfg, s, ConsumerEvict(Word(s.cons.index, w), false));
  }

  lemma InvalidateInv(cfg: Config, s: State, w: int, keep: bool)
    requires Shaped(cfg) && Inv(cfg, s) && s.cons.CInvalidate? && w in s.cons.todo
    ensures Inv(cfg, GetAdvance(cfg, s, w, keep))
  {
    var t := InvalidateIsEvict(cfg, s, w, keep);
    ConsumerEvictInv(cfg, s, Word(s.cons.index, w), false);
    Invalidate(cfg, t, w);
  }

  /** The first invalidate leaves retries to spare. */
  lemma InvalidateDone(cfg: Config, s: State)
    requires Shaped(cfg) && Inv(cfg, s) && s.cons.CInvalidate? && s.cons.todo == {}
    ensures Inv(cfg, GetAdvance(cfg, s, 0, true))
  {
    Moves(cfg, s, CCopy(s.cons.index, s.cons.want, s.cons.retries - 1, s.cons.buf, AllWords(cfg)));
  }

  lemma CheckSeqInv(cfg: Config, s: State)
    requires Shaped(cfg) && Inv(cfg, s) && s.cons.CCheckSeq?
    ensures Inv(cfg, GetAdvance(cfg, s, 0, true))
  {
    hide Owned, Stamped, Held, Sized, ProducerCounts, Room, Writing, View;
    var k: nat :| k < |s.puts| && Slot(cfg, k) == Slot(cfg, s.taken) && s.cons.buf == Entry(cfg, s.puts, k);
    assert s.cons.buf[|s.cons.buf| - 2] == k;
    hide Slot;
    Moves(cfg, s, GetAdvance(cfg, s, 0, true).cons);
  }

  lemma AdvanceConsumer(cfg: Config, s: State)
    requires Shaped(cfg) && ConsumerSide(cfg, s) && s.cons.CAdvance? && s.taken < |s.puts|
    ensures ConsumerSide(cfg, GetAdvance(cfg, s, 0, true))
    ensures Released(GetAdvance(cfg, s, 0, true).ccache, s.taken + 1) == Released(s.ccache, s.taken)
  {
    SlotNext(cfg, s.taken);
  }

  lemma AdvanceInv(cfg: Config, s: State)
    requires Shaped(cfg) && Inv(cfg, s) && s.cons.CAdvance?
    ensures Inv(cfg, GetAdvance(cfg, s, 0, true))
  {
    StoreCells(cfg, s, ConsumerIndex, (View(s.mem, s.ccache, ConsumerIndex) + 1) % cfg.nbuckets);
    AdvanceConsumer(cfg, s);
  }

  lemma Return(cfg: Config, s: State)
    requires Shaped(cfg) && Inv(cfg, s) && s.cons.CFlushIndex? && !Dirty(s.ccache, ConsumerIndex)
    ensures |s.cons.buf| >= 2
    ensures var buf := s.cons.buf;
      Inv(cfg, s.(cons := CIdle, got := s.got + [(buf[..|buf| - 2], buf[|buf| - 2])]))
  {
    var buf := s.cons.buf;
    assert buf[..|buf| - 2] == s.puts[s.taken - 1];
  }

  lemma FlushIndexIsEvict(cfg: Config, s: State, keep: bool) returns (t: State)
    requires Shaped(cfg) && s.cons.CFlushIndex? && |s.cons.buf| >= 2
    ensures t == Step(cfg, s, ConsumerEvict(ConsumerIndex, keep))
    ensures t.cons == s.cons && !Dirty(t.ccache, ConsumerIndex)
    ensures var buf := s.cons.buf;
      GetAdvance(cfg, s, 0, keep) == t.(cons := CIdle, got := t.got + [(buf[..|buf| - 2], buf[|buf| - 2])])
  {
    t := Step(cfg, s, ConsumerEvict(ConsumerIndex, keep));
  }

  lemma FlushIndexInv(cfg: Config, s: State, keep: bool)
    requires Shaped(cfg) && Inv(cfg, s) && s.cons.CFlushIndex?
    ensures Inv(cfg, GetAdvance(cfg, s, 0, keep))
  {
    var t := FlushIndexIsEvict(cfg, s, keep);
    ConsumerEvictInv(cfg, s, ConsumerIndex, keep);
    Return(cfg, t);
  }

  lemma GetAdvanceInv(cfg: Config, s: State, w: int, keep: bool)
    requires Shaped(cfg) && CollisionFree(cfg) && Inv(cfg, s)
    ensures Inv(cfg, GetAdvance(cfg, s, w, keep))
  {
    hide Inv, View, Store, WriteBack, Flushed, CollisionFree, GoodCrc;
    match s.cons
    case CIdle =>
    case CLoadIndex => LooksInv(cfg, s);
    case CInvalidateIndex(_) => LooksInv(cfg, s);
    case CLoadLimit(_) => LoadLimit(cfg, s);
    case CEmpty =>
    case CExpect(_) => ExpectInv(cfg, s);
    case CCopy(_, _, _, _, todo) =>
      if todo == {} {
        CopyDone(cfg, s);
      } else if w in todo {
        CopyInv(cfg, s, w);
      }
    case CVerify(_, _, _, buf) =>
      if GoodCrc(cfg, buf) {
        VerifyGood(cfg, s);
      } else {
        VerifyBad(cfg, s);
      }
    case CInvalidate(_, _, _, _, todo) =>
      if todo == {} {
        InvalidateDone(cfg, s);
      } else if w in todo {
        InvalidateInv(cfg, s, w, keep);
      }
    case CCheckSeq(_, _) => CheckSeqInv(cfg, s);
    case CAdvance(_) => AdvanceInv(cfg, s);
    case CFlushIndex(_) => FlushIndexInv(cfg, s, keep);
    case CBadCrc =>
    case CBadSeq(_, _) =>
  }

  lemma GetCallInv(cfg: Config, s: State, e: Event)
    requires Shaped(cfg) && Inv(cfg, s) && (e.GetBegin? || e.GetWait? || e.GetGiveUp?)
    ensures Inv(cfg, Step(cfg, s, e))
  {
    if Step(cfg, s, e) != s {
      Looks(cfg, s, Step(cfg, s, e).cons);
    }
  }
}
