/**
 The producer/consumer queue (src/pcq_lib.c) as a transition system.

 One producer host and one consumer host share a ring of buckets through incoherent
 memory. Each event below is one load, store, flush or invalidate of one host, or one
 thing that a cache does by itself; a run is any sequence of events. An event that is not
 enabled leaves the state as it is, so every sequence of events is a run.
 */
module Queue {
  import opened Fabric

  /** Where a value lives. A bucket is `words` words: payload, sequence number, checksum. */
  datatype Cell =
    | ProducerIndex
    | ProducerSeq
    | ConsumerIndex
    | ConsumerSeq
    | Word(bucket: int, word: int)

  datatype Config = Config(nbuckets: nat, words: nat, crc: seq<int> -> int)

  /** Where pcq_producer_put stands. */
  datatype Producer =
    | PIdle
    | PLoadIndex(msg: seq<int>)
    | PLoadLimit(msg: seq<int>, index: int)
    | PFull(msg: seq<int>)
    | PAssign(msg: seq<int>, index: int)
    | PCopy(index: int, entry: seq<int>, todo: set<int>)
    | PFlush(index: int, todo: set<int>)
    | PPublish(index: int)
    | PFlushIndex

  /** Where pcq_consumer_get stands. The last two are the fatal exits. */
  datatype Consumer =
    | CIdle
    | CLoadIndex
    | CInvalidateIndex(index: int)
    | CLoadLimit(index: int)
    | CEmpty
    | CExpect(index: int)
    | CCopy(index: int, want: int, retries: nat, buf: seq<int>, todo: set<int>)
    | CVerify(index: int, want: int, retries: nat, buf: seq<int>)
    | CInvalidate(index: int, want: int, retries: nat, buf: seq<int>, todo: set<int>)
    | CCheckSeq(want: int, buf: seq<int>)
    | CAdvance(buf: seq<int>)
    | CFlushIndex(buf: seq<int>)
    | CBadCrc
    | CBadSeq(want: int, buf: seq<int>)

  /**
   `puts` holds the payloads in the order in which puts took their sequence numbers,
   `taken` counts stores of consumer_index, `got` is what gets returned.
   */
  datatype State = State(
    mem: Memory<Cell>,
    pcache: Cache<Cell>,
    ccache: Cache<Cell>,
    prod: Producer,
    cons: Consumer,
    puts: seq<seq<int>>,
    taken: nat,
    got: seq<(seq<int>, int)>)

  /** `word` picks the next word of a copy, flush or invalidate; `keep` picks CLWB or CLFLUSH. */
  datatype Event =
    | PutBegin(msg: seq<int>)
    | PutWait
    | PutGiveUp
    | PutStep(word: int, keep: bool)
    | GetBegin
    | GetWait
    | GetGiveUp
    | GetStep(word: int, keep: bool)
    | ProducerFill(cell: Cell)
    | ProducerEvict(cell: Cell, keep: bool)
    | ConsumerFill(cell: Cell)
    | ConsumerEvict(cell: Cell, keep: bool)

  const CONSUMER_NRETRIES: nat := 2

  function AllWords(cfg: Config): (r: set<int>)
    ensures forall w :: w in r <==> 0 <= w < cfg.words
  {
    set w {:trigger Word(0, w)} | 0 <= w < cfg.words
  }

  function CrcCell(cfg: Config, b: int): Cell {
    Word(b, cfg.words - 1)
  }

  function Sealed(cfg: Config, msg: seq<int>, k: int): seq<int> {
    msg + [k, cfg.crc(msg + [k])]
  }

  predicate GoodCrc(cfg: Config, buf: seq<int>) {
    |buf| == cfg.words >= 2 && cfg.crc(buf[..cfg.words - 1]) == buf[cfg.words - 1]
  }

  function PutAdvance(cfg: Config, s: State, w: int, keep: bool): State
    requires cfg.nbuckets > 0
  {
    match s.prod
    case PIdle => s
    case PLoadIndex(msg) =>
      s.(prod := PLoadLimit(msg, View(s.mem, s.pcache, ProducerIndex)))
    case PLoadLimit(msg, index) =>
      if (index + 1) % cfg.nbuckets != View(s.mem, s.pcache, ConsumerIndex)
      then s.(prod := PAssign(msg, index))
      else s.(prod := PFull(msg))
    case PFull(_) => s
    case PAssign(msg, index) =>
      var k := View(s.mem, s.pcache, ProducerSeq);
      s.(pcache := Store(s.pcache, ProducerSeq, k + 1),
         puts := s.puts + [msg],
         prod := PCopy(index, Sealed(cfg, msg, k), AllWords(cfg)))
    case PCopy(index, entry, todo) =>
      if todo == {} then s.(prod := PFlush(index, AllWords(cfg)))
      else if w in todo && 0 <= w < |entry|
      then s.(pcache := Store(s.pcache, Word(index, w), entry[w]), prod := PCopy(index, entry, todo - {w}))
      else s
    case PFlush(index, todo) =>
      if todo == {} then s.(prod := PPublish(index))
      else if w in todo
      then s.(mem := WriteBack(s.mem, s.pcache, Word(index, w)),
              pcache := Flushed(s.pcache, Word(index, w), keep),
              prod := PFlush(index, todo - {w}))
      else s
    case PPublish(index) =>
      s.(pcache := Store(s.pcache, ProducerIndex, (index + 1) % cfg.nbuckets), prod := PFlushIndex)
    case PFlushIndex =>
      s.(mem := WriteBack(s.mem, s.pcache, ProducerIndex),
         pcache := Flushed(s.pcache, ProducerIndex, keep),
         prod := PIdle)
  }

  function GetAdvance(cfg: Config, s: State, w: int, keep: bool): State
    requires cfg.nbuckets > 0
  {
    match s.cons
    case CIdle => s
    case CLoadIndex =>
      s.(cons := CInvalidateIndex(View(s.mem, s.ccache, ConsumerIndex)))
    case CInvalidateIndex(index) =>
      s.(mem := WriteBack(s.mem, s.ccache, ProducerIndex),
         ccache := Flushed(s.ccache, ProducerIndex, false),
         cons := CLoadLimit(index))
    case CLoadLimit(index) =>
      if index != View(s.mem, s.ccache, ProducerIndex) then s.(cons := CExpect(index)) else s.(cons := CEmpty)
    case CEmpty => s
    case CExpect(index) =>
      var k := View(s.mem, s.ccache, ConsumerSeq);
      s.(ccache := Store(s.ccache, ConsumerSeq, k + 1),
         cons := CCopy(index, k, CONSUMER_NRETRIES, seq(cfg.words, _ => 0), AllWords(cfg)))
    case CCopy(index, want, retries, buf, todo) =>
      if todo == {} then s.(cons := CVerify(index, want, retries, buf))
      else if w in todo && 0 <= w < |buf|
      then s.(cons := CCopy(index, want, retries, buf[w := View(s.mem, s.ccache, Word(index, w))], todo - {w}))
      else s
    case CVerify(index, want, retries, buf) =>
      if GoodCrc(cfg, buf) then s.(cons := CCheckSeq(want, buf))
      else s.(cons := CInvalidate(index, want, retries, buf, AllWords(cfg)))
    case CInvalidate(index, want, retries, buf, todo) =>
      if todo == {} then
        if retries == 0 then s.(cons := CBadCrc)
        else s.(cons := CCopy(index, want, retries - 1, buf, AllWords(cfg)))
      else if w in todo
      then s.(mem := WriteBack(s.mem, s.ccache, Word(index, w)),
              ccache := Flushed(s.ccache, Word(index, w), false),
              cons := CInvalidate(index, want, retries, buf, todo - {w}))
      else s
    case CCheckSeq(want, buf) =>
      if |buf| >= 2 && buf[|buf| - 2] == want then s.(cons := CAdvance(buf)) else s.(cons := CBadSeq(want, buf))
    case CAdvance(buf) =>
      var next := (View(s.mem, s.ccache, ConsumerIndex) + 1) % cfg.nbuckets;
      s.(ccache := Store(s.ccache, ConsumerIndex, next), taken := s.taken + 1, cons := CFlushIndex(buf))
    case CFlushIndex(buf) =>
      s.(mem := WriteBack(s.mem, s.ccache, ConsumerIndex),
         ccache := Flushed(s.ccache, ConsumerIndex, keep),
         got := if |buf| >= 2 then s.got + [(buf[..|buf| - 2], buf[|buf| - 2])] else s.got,
         cons := CIdle)
    case CBadCrc => s
    case CBadSeq(_, _) => s
  }

  function Step(cfg: Config, s: State, e: Event): State
    requires cfg.nbuckets > 0
  {
    match e
    case PutBegin(msg) =>
      if s.prod.PIdle? && |msg| + 2 == cfg.words then s.(prod := PLoadIndex(msg)) else s
    case PutWait =>
      if s.prod.PFull?
      then s.(mem := WriteBack(s.mem, s.pcache, ConsumerIndex),
              pcache := Flushed(s.pcache, ConsumerIndex, false),
              prod := PLoadIndex(s.prod.msg))
      else s
    case PutGiveUp => if s.prod.PFull? then s.(prod := PIdle) else s
    case PutStep(w, keep) => PutAdvance(cfg, s, w, keep)
    case GetBegin => if s.cons.CIdle? then s.(cons := CLoadIndex) else s
    case GetWait => if s.cons.CEmpty? then s.(cons := CLoadIndex) else s
    case GetGiveUp => if s.cons.CEmpty? then s.(cons := CIdle) else s
    case GetStep(w, keep) => GetAdvance(cfg, s, w, keep)
    case ProducerFill(a) => s.(pcache := Fill(s.mem, s.pcache, a))
    case ProducerEvict(a, keep) => s.(mem := WriteBack(s.mem, s.pcache, a), pcache := Flushed(s.pcache, a, keep))
    case ConsumerFill(a) => s.(ccache := Fill(s.mem, s.ccache, a))
    case ConsumerEvict(a, keep) => s.(mem := WriteBack(s.mem, s.ccache, a), ccache := Flushed(s.ccache, a, keep))
  }

  lemma PutCopyStep(cfg: Config, s: State, w: int, keep: bool)
    requires Shaped(cfg) && s.prod.PCopy? && w in s.prod.todo && 0 <= w < |s.prod.entry|
    ensures var p := s.prod;
      Step(cfg, s, PutStep(w, keep)) ==
      s.(pcache := Store(s.pcache, Word(p.index, w), p.entry[w]), prod := PCopy(p.index, p.entry, p.todo - {w}))
  {
  }

  lemma PutFlushStep(cfg: Config, s: State, w: int, keep: bool)
    requires Shaped(cfg) && s.prod.PFlush? && w in s.prod.todo
    ensures var p := s.prod;
      Step(cfg, s, PutStep(w, keep)) ==
      s.(mem := WriteBack(s.mem, s.pcache, Word(p.index, w)),
         pcache := Flushed(s.pcache, Word(p.index, w), keep),
         prod := PFlush(p.index, p.todo - {w}))
  {
  }

  lemma LookSteps(cfg: Config, s: State, keep: bool)
    requires Shaped(cfg)
    ensures s.cons.CIdle? ==> Step(cfg, s, GetBegin) == s.(cons := CLoadIndex)
    ensures s.cons.CLoadIndex? ==>
      Step(cfg, s, GetStep(0, keep)) == s.(cons := CInvalidateIndex(View(s.mem, s.ccache, ConsumerIndex)))
    ensures s.cons.CInvalidateIndex? ==>
      Step(cfg, s, GetStep(0, keep)) ==
      s.(mem := WriteBack(s.mem, s.ccache, ProducerIndex),
         ccache := Flushed(s.ccache, ProducerIndex, false),
         cons := CLoadLimit(s.cons.index))
    ensures s.cons.CLoadLimit? ==>
      Step(cfg, s, GetStep(0, keep)) ==
      s.(cons := if s.cons.index != View(s.mem, s.ccache, ProducerIndex) then CExpect(s.cons.index) else CEmpty)
  {
  }

  lemma GetCopyStep(cfg: Config, s: State, w: int, keep: bool)
    requires Shaped(cfg) && s.cons.CCopy? && w in s.cons.todo && 0 <= w < |s.cons.buf|
    ensures var c := s.cons;
      Step(cfg, s, GetStep(w, keep)) ==
      s.(cons := CCopy(c.index, c.want, c.retries, c.buf[w := View(s.mem, s.ccache, Word(c.index, w))], c.todo - {w}))
  {
  }

  function Run(cfg: Config, s: State, es: seq<Event>): State
    requires cfg.nbuckets > 0
    decreases |es|
  {
    if es == [] then s else Run(cfg, Step(cfg, s, es[0]), es[1..])
  }

  lemma {:induction false} RunConcat(cfg: Config, s: State, es: seq<Event>, fs: seq<Event>)
    requires cfg.nbuckets > 0
    ensures Run(cfg, s, es + fs) == Run(cfg, Run(cfg, s, es), fs)
    decreases |es|
  {
    if es == [] {
      assert es + fs == fs;
    } else {
      assert (es + fs)[1..] == es[1..] + fs;
      RunConcat(cfg, Step(cfg, s, es[0]), es[1..], fs);
    }
  }

  // ---------- the checksum, and what a fresh queue looks like ----------

  /** No two bodies share a checksum. */
  ghost predicate CollisionFree(cfg: Config) {
    forall a: seq<int>, b: seq<int> ::
      |a| + 1 == cfg.words && |b| + 1 == cfg.words && cfg.crc(a) == cfg.crc(b) ==> a == b
  }

  /** A value that is the checksum of no body. */
  ghost predicate Junk(cfg: Config, v: int) {
    forall a: seq<int> :: |a| + 1 == cfg.words ==> cfg.crc(a) != v
  }

  predicate Shaped(cfg: Config) {
    cfg.nbuckets > 0 && cfg.words >= 2
  }

  predicate ProducerOwned(a: Cell) {
    a.ProducerIndex? || a.ProducerSeq? || a.Word?
  }

  /**
   After pcq_create, with both hosts about to start. What the producer has cached, and what the
   consumer has cached of its own cells, is current. The consumer's cache may hold old contents
   of the producer's file, and buckets hold anything without a valid checksum.
   */
  ghost predicate Init(cfg: Config, s: State) {
    && s.prod == PIdle && s.cons == CIdle && s.puts == [] && s.taken == 0 && s.got == []
    && Peek(s.mem, ProducerIndex) == Peek(s.mem, ProducerSeq) == 0
    && Peek(s.mem, ConsumerIndex) == Peek(s.mem, ConsumerSeq) == 0
    && (forall b :: Junk(cfg, Peek(s.mem, CrcCell(cfg, b))))
    && (forall a :: a in s.pcache ==> s.pcache[a] == Line(Peek(s.mem, a), false))
    && (forall a :: a in s.ccache ==> !s.ccache[a].dirty)
    && (forall a :: a in s.ccache && !ProducerOwned(a) ==> s.ccache[a].val == Peek(s.mem, a))
    && (forall b :: CrcCell(cfg, b) in s.ccache ==> Junk(cfg, s.ccache[CrcCell(cfg, b)].val))
  }
}
