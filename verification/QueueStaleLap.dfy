/** A run of a two-bucket queue that ends in the consumer's fatal sequence mismatch. */
module QueueStaleLap {
  import opened Fabric
  import opened Queue
  import opened QueueTheorems

  /** Two buckets of two words: messages are empty, the checksum is odd. */
  const cfg := Config(2, 2, a => if |a| == 1 then 2 * a[0] + 1 else 0)

  lemma Fits()
    ensures Shaped(cfg) && CollisionFree(cfg) && Junk(cfg, 0)
    ensures forall k :: cfg.crc([k]) == 2 * k + 1
  {
    forall a: seq<int>, b: seq<int> | |a| == 1 && |b| == 1 && cfg.crc(a) == cfg.crc(b)
      ensures a == b
    {
      assert a[0] == b[0];
    }
  }

  function Fresh(): State {
    State(map[], map[], map[], PIdle, CIdle, [], 0, [])
  }

  lemma FreshReachable()
    ensures Reachable(cfg, Fresh())
  {
    Fits();
    assert Init(cfg, Fresh());
    assert Fresh() == Run(cfg, Fresh(), []);
  }

  lemma Go(s: State, e: Event) returns (t: State)
    requires Reachable(cfg, s)
    ensures t == Step(cfg, s, e) && Reachable(cfg, t)
  {
    ReachableStep(cfg, s, e);
    t := Step(cfg, s, e);
  }

  /** The part of a put up to its sequence number. */
  lemma PutStart(s: State, i: int, k: int) returns (t: State)
    requires Reachable(cfg, s) && s.prod.PIdle? && s.pcache.Keys <= {ProducerSeq}
    requires View(s.mem, s.pcache, ProducerIndex) == i && View(s.mem, s.pcache, ProducerSeq) == k
    requires (i + 1) % 2 != View(s.mem, s.pcache, ConsumerIndex)
    ensures Reachable(cfg, t)
    ensures t == s.(pcache := map[ProducerSeq := Line(k + 1, true)], puts := s.puts + [[]],
                    prod := PCopy(i, [k, 2 * k + 1], AllWords(cfg)))
  {
    hide Reachable, View;
    t := Go(s, PutBegin([]));
    t := Go(t, PutStep(0, false));
    t := Go(t, PutStep(0, false));
    t := Go(t, PutStep(0, false));
    Fits();
    assert Store(s.pcache, ProducerSeq, k + 1) == map[ProducerSeq := Line(k + 1, true)];
    assert [] + [k] == [k];
    assert Sealed(cfg, [], k) == [k, 2 * k + 1];
  }

  /** The producer's cache with the entry of put `k` in bucket `i`. */
  function Copied(i: int, k: int): Cache<Cell> {
    map[ProducerSeq := Line(k + 1, true), Word(i, 0) := Line(k, true), Word(i, 1) := Line(2 * k + 1, true)]
  }

  lemma PutCopies(s: State, i: int, k: int) returns (t: State)
    requires Reachable(cfg, s) && s.prod == PCopy(i, [k, 2 * k + 1], AllWords(cfg))
    requires s.pcache == map[ProducerSeq := Line(k + 1, true)]
    ensures Reachable(cfg, t)
    ensures t == s.(pcache := Copied(i, k), prod := PFlush(i, AllWords(cfg)))
  {
    hide Reachable;
    t := Go(s, PutStep(0, false));
    t := Go(t, PutStep(1, false));
    assert AllWords(cfg) - {0} - {1} == {};
    t := Go(t, PutStep(0, false));
  }

  lemma PutFlushes(s: State, i: int, k: int) returns (t: State)
    requires Reachable(cfg, s) && s.prod == PFlush(i, AllWords(cfg)) && s.pcache == Copied(i, k)
    ensures Reachable(cfg, t)
    ensures t == s.(mem := s.mem[Word(i, 0) := k][Word(i, 1) := 2 * k + 1],
                    pcache := map[ProducerSeq := Line(k + 1, true)], prod := PPublish(i))
  {
    hide Reachable;
    PutFlushStep(cfg, s, 0, false);
    t := Go(s, PutStep(0, false));
    assert t.pcache == map[ProducerSeq := Line(k + 1, true), Word(i, 1) := Line(2 * k + 1, true)];
    PutFlushStep(cfg, t, 1, false);
    t := Go(t, PutStep(1, false));
    assert t.pcache == map[ProducerSeq := Line(k + 1, true)];
    assert AllWords(cfg) - {0} - {1} == {};
    t := Go(t, PutStep(0, false));
  }

  lemma PutPublishes(s: State, i: int, k: int) returns (t: State)
    requires Reachable(cfg, s) && s.prod == PPublish(i) && s.pcache == map[ProducerSeq := Line(k + 1, true)]
    ensures Reachable(cfg, t)
    ensures t == s.(mem := s.mem[ProducerIndex := (i + 1) % 2], prod := PIdle)
  {
    hide Reachable;
    t := Go(s, PutStep(0, false));
    t := Go(t, PutStep(0, false));
    assert t.pcache == s.pcache;
  }

  lemma PutAll(s: State, i: int, k: int) returns (t: State)
    requires Reachable(cfg, s) && s.prod.PIdle? && s.pcache.Keys <= {ProducerSeq}
    requires View(s.mem, s.pcache, ProducerIndex) == i && View(s.mem, s.pcache, ProducerSeq) == k
    requires (i + 1) % 2 != View(s.mem, s.pcache, ConsumerIndex)
    ensures Reachable(cfg, t)
    ensures t == s.(mem := s.mem[Word(i, 0) := k][Word(i, 1) := 2 * k + 1][ProducerIndex := (i + 1) % 2],
                    pcache := map[ProducerSeq := Line(k + 1, true)], puts := s.puts + [[]])
  {
    hide Reachable, View;
    t := PutStart(s, i, k);
    t := PutCopies(t, i, k);
    t := PutFlushes(t, i, k);
    t := PutPublishes(t, i, k);
  }

  /** The part of a get up to its sequence number. */
  lemma GetStart(s: State, i: int, k: int) returns (t: State)
    requires Reachable(cfg, s) && s.cons.CIdle? && ProducerIndex !in s.ccache
    requires View(s.mem, s.ccache, ConsumerIndex) == i && View(s.mem, s.ccache, ConsumerSeq) == k
    requires i != Peek(s.mem, ProducerIndex)
    ensures Reachable(cfg, t)
    ensures t == s.(ccache := s.ccache[ConsumerSeq := Line(k + 1, true)],
                    cons := CCopy(i, k, CONSUMER_NRETRIES, [0, 0], AllWords(cfg)))
  {
    hide Reachable;
    t := Go(s, GetBegin);
    t := Go(t, GetStep(0, false));
    t := Go(t, GetStep(0, false));
    assert t.ccache == s.ccache;
    t := Go(t, GetStep(0, false));
    t := Go(t, GetStep(0, false));
    assert seq(cfg.words, _ => 0) == [0, 0];
  }

  lemma GetCopies(s: State, i: int, k: int, seqno: int) returns (t: State)
    requires Reachable(cfg, s) && s.cons == CCopy(i, k, CONSUMER_NRETRIES, [0, 0], AllWords(cfg))
    requires View(s.mem, s.ccache, Word(i, 0)) == seqno && View(s.mem, s.ccache, Word(i, 1)) == 2 * seqno + 1
    ensures Reachable(cfg, t)
    ensures t == s.(cons := if seqno == k then CAdvance([seqno, 2 * seqno + 1]) else CBadSeq(k, [seqno, 2 * seqno + 1]))
  {
    hide Reachable, View;
    t := Go(s, GetStep(0, false));
    t := Go(t, GetStep(1, false));
    assert [0, 0][0 := seqno][1 := 2 * seqno + 1] == [seqno, 2 * seqno + 1];
    assert AllWords(cfg) - {0} - {1} == {};
    t := Go(t, GetStep(0, false));
    Fits();
    assert t.cons.buf[..1] == [seqno];
    t := Go(t, GetStep(0, false));
    t := Go(t, GetStep(0, false));
  }

  lemma GetFinish(s: State, i: int, k: int) returns (t: State)
    requires Reachable(cfg, s) && s.cons == CAdvance([k, 2 * k + 1]) && ConsumerIndex !in s.ccache
    requires Peek(s.mem, ConsumerIndex) == i
    ensures Reachable(cfg, t)
    ensures t == s.(mem := s.mem[ConsumerIndex := (i + 1) % 2], cons := CIdle, taken := s.taken + 1,
                    got := s.got + [([], k)])
  {
    hide Reachable;
    t := Go(s, GetStep(0, false));
    t := Go(t, GetStep(0, false));
    assert t.ccache == s.ccache;
  }

  lemma GetAll(s: State, i: int, k: int) returns (t: State)
    requires Reachable(cfg, s) && s.cons.CIdle? && ProducerIndex !in s.ccache && ConsumerIndex !in s.ccache
    requires Peek(s.mem, ConsumerIndex) == i && View(s.mem, s.ccache, ConsumerSeq) == k
    requires i != Peek(s.mem, ProducerIndex)
    requires View(s.mem, s.ccache, Word(i, 0)) == k && View(s.mem, s.ccache, Word(i, 1)) == 2 * k + 1
    ensures Reachable(cfg, t)
    ensures t == s.(mem := s.mem[ConsumerIndex := (i + 1) % 2], ccache := s.ccache[ConsumerSeq := Line(k + 1, true)],
                    taken := s.taken + 1, got := s.got + [([], k)])
  {
    hide Reachable;
    t := GetStart(s, i, k);
    t := GetCopies(t, i, k, k);
    t := GetFinish(t, i, k);
  }

  lemma Prefetch(s: State, a: Cell) returns (t: State)
    requires Reachable(cfg, s)
    ensures Reachable(cfg, t) && t == s.(ccache := Fill(s.mem, s.ccache, a))
  {
    t := Go(s, ConsumerFill(a));
  }

  /** Put, prefetch the bucket, get; put and get the other bucket; put again: the next get dies. */
  lemma StaleLapIsFatal() returns (s: State)
    ensures Shaped(cfg) && CollisionFree(cfg) && Reachable(cfg, s)
    ensures s.cons == CBadSeq(2, [0, 1]) && |s.puts| == 3 && s.taken == 2
  {
    hide Reachable, CollisionFree;
    Fits();
    FreshReachable();
    s := PutAll(Fresh(), 0, 0);
    s := Prefetch(s, Word(0, 0));
    s := Prefetch(s, Word(0, 1));
    s := GetAll(s, 0, 0);
    s := PutAll(s, 1, 1);
    s := GetAll(s, 1, 1);
    s := PutAll(s, 0, 2);
    s := GetStart(s, 0, 2);
    s := GetCopies(s, 0, 2, 0);
  }
}
