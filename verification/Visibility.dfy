/**
 A client that plays the log while the master appends to it, over memory in which any load may
 return any value that the word has had since mkfs.
 */
module Visibility {
  import opened Meta
  import opened Namespace
  import opened Journal
  import M = Master

  datatype Cell = NextIndex | EntryWord(index: int, word: int)

  datatype MasterAt = Idle | Copying(todo: set<int>) | Bumping

  datatype ClientAt =
    | Between
    | AtEntry(index: nat)
    | Reading(index: nat, words: seq<int>, todo: set<int>)

  /** `past` has the values that a word has had; `high` is how many entries the client has got to. */
  datatype State = State(
    past: map<Cell, set<int>>,
    log: seq<LogEntry>,
    master: MasterAt,
    client: ClientAt,
    ns: Tree,
    high: nat)

  /** `value` is what the load of a client step returns. */
  datatype Event =
    | Append(entry: LogEntry)
    | MasterStep(word: int)
    | LogplayBegin
    | ClientStep(word: int, value: int)

  function Past(s: State, c: Cell): set<int> {
    if c in s.past then s.past[c] else {0}
  }

  function Stored(s: State, c: Cell, v: int): map<Cell, set<int>> {
    s.past[c := Past(s, c) + {v}]
  }

  function AllWords(fmt: Format): (r: set<int>)
    ensures forall w :: w in r <==> 0 <= w < fmt.words
  {
    set w {:trigger EntryWord(0, w)} | 0 <= w < fmt.words
  }

  function MasterNext(fmt: Format, s: State, w: int): (r: State)
    ensures r.log == s.log && r.client == s.client && r.ns == s.ns && r.high == s.high
    ensures r.master.Copying? ==> s.master.Copying?
  {
    match s.master
    case Idle => s
    case Copying(todo) =>
      var i := |s.log| - 1;
      if todo == {} then s.(master := Bumping)
      else if w in todo && i >= 0 && 0 <= w < |Sealed(fmt, i, s.log[i])|
      then s.(past := Stored(s, EntryWord(i, w), Sealed(fmt, i, s.log[i])[w]), master := Copying(todo - {w}))
      else s
    case Bumping => s.(past := Stored(s, NextIndex, |s.log|), master := Idle)
  }

  /** The loop of __famfs_logplay: the bound is reloaded each round; an invalid entry ends the play. */
  function ClientNext(fmt: Format, s: State, w: int, v: int): (r: State)
    ensures r.past == s.past && r.log == s.log && r.master == s.master
  {
    match s.client
    case Between => s
    case AtEntry(i) =>
      if v !in Past(s, NextIndex) then s
      else if i < v then s.(client := Reading(i, seq(fmt.words, _ => 0), AllWords(fmt)))
      else s.(client := Between)
    case Reading(i, words, todo) =>
      if todo == {} then
        if ValidEntry(fmt, words, i)
        then s.(ns := Play(s.ns, EntryOf(fmt, words)), high := if s.high <= i then i + 1 else s.high,
                client := AtEntry(i + 1))
        else s.(client := Between)
      else if w in todo && 0 <= w < |words| && v in Past(s, EntryWord(i, w))
      then s.(client := Reading(i, words[w := v], todo - {w}))
      else s
  }

  function Step(fmt: Format, s: State, e: Event): State {
    match e
    case Append(entry) =>
      if s.master.Idle? && Storable(entry) then s.(log := s.log + [entry], master := Copying(AllWords(fmt))) else s
    case MasterStep(w) => MasterNext(fmt, s, w)
    case LogplayBegin => if s.client.Between? then s.(client := AtEntry(0)) else s
    case ClientStep(w, v) => ClientNext(fmt, s, w, v)
  }

  function Run(fmt: Format, s: State, es: seq<Event>): State {
    if es == [] then s else Step(fmt, Run(fmt, s, es[..|es| - 1]), es[|es| - 1])
  }

  /** A value that a load of word `w` of entry `i` may return. */
  ghost predicate MayRead(fmt: Format, log: seq<LogEntry>, i: int, w: int, v: int) {
    v == 0 || (0 <= i < |log| && 0 <= w < |Sealed(fmt, i, log[i])| && v == Sealed(fmt, i, log[i])[w])
  }

  ghost predicate Memory(fmt: Format, s: State) {
    && (forall i, w, v :: v in Past(s, EntryWord(i, w)) ==> MayRead(fmt, s.log, i, w, v))
    && (forall v :: v in Past(s, NextIndex) ==> 0 <= v <= |s.log|)
    && (s.master.Copying? ==> s.log != [])
    && forall i :: 0 <= i < |s.log| ==> Storable(s.log[i])
  }

  ghost predicate Client(fmt: Format, s: State) {
    && s.high <= |s.log|
    && (s.client.AtEntry? ==> s.client.index <= s.high)
    && (s.client.Reading? ==>
        && s.client.index <= s.high && s.client.index < |s.log| && |s.client.words| == fmt.words
        && s.client.todo <= AllWords(fmt)
        && forall w :: 0 <= w < fmt.words && w !in s.client.todo ==>
             MayRead(fmt, s.log, s.client.index, w, s.client.words[w]))
  }

  /** What was readable stays readable when the log grows. */
  lemma MayReadLater(fmt: Format, log: seq<LogEntry>, more: seq<LogEntry>, i: int, w: int, v: int)
    requires log <= more && MayRead(fmt, log, i, w, v)
    ensures MayRead(fmt, more, i, w, v)
  {
    hide Sealed;
  }

  lemma MasterKeepsMemory(fmt: Format, s: State, w: int)
    requires Memory(fmt, s)
    ensures Memory(fmt, MasterNext(fmt, s, w))
  {
    hide Sealed;
    var t := MasterNext(fmt, s, w);
    forall i, x, v | v in Past(t, EntryWord(i, x))
      ensures MayRead(fmt, t.log, i, x, v)
    {
      assert v in Past(s, EntryWord(i, x)) ==> MayRead(fmt, s.log, i, x, v);
    }
    assert forall v :: v in Past(t, NextIndex) ==> v in Past(s, NextIndex) || v == |s.log|;
  }

  lemma MemoryNext(fmt: Format, s: State, e: Event)
    requires Memory(fmt, s)
    ensures Memory(fmt, Step(fmt, s, e))
  {
    hide MasterNext, ClientNext, MayRead;
    var t := Step(fmt, s, e);
    if e.MasterStep? {
      MasterKeepsMemory(fmt, s, e.word);
    } else {
      forall i, w, v | v in Past(t, EntryWord(i, w))
        ensures MayRead(fmt, t.log, i, w, v)
      {
        assert v in Past(s, EntryWord(i, w));
        MayReadLater(fmt, s.log, t.log, i, w, v);
      }
      assert forall v :: v in Past(t, NextIndex) ==> v in Past(s, NextIndex);
    }
  }

  lemma ClientKeepsClient(fmt: Format, s: State, w: int, v: int)
    requires Memory(fmt, s) && Client(fmt, s)
    ensures Client(fmt, ClientNext(fmt, s, w, v))
  {
    hide MayRead, ValidEntry, EntryOf, Play;
  }

  lemma ClientInv(fmt: Format, s: State, e: Event)
    requires Memory(fmt, s) && Client(fmt, s)
    ensures Client(fmt, Step(fmt, s, e))
  {
    hide MasterNext, ClientNext, MayRead;
    var t := Step(fmt, s, e);
    if e.ClientStep? {
      ClientKeepsClient(fmt, s, e.word, e.value);
    } else if t.client.Reading? {
      forall w | 0 <= w < fmt.words && w !in t.client.todo
        ensures MayRead(fmt, t.log, t.client.index, w, t.client.words[w])
      {
        MayReadLater(fmt, s.log, t.log, t.client.index, w, t.client.words[w]);
      }
    }
  }

  /** Whatever mixture of old and new words was read, an accepted entry is the one that the master appended there. */
  lemma AcceptedIsAppended(fmt: Format, log: seq<LogEntry>, i: nat, words: seq<int>)
    requires Faithful(fmt) && CollisionFree(fmt) && i < |log| && Storable(log[i]) && ValidEntry(fmt, words, i)
    requires forall w :: 0 <= w < fmt.words ==> MayRead(fmt, log, i, w, words[w])
    ensures EntryOf(fmt, words) == log[i]
  {
    var last := fmt.words - 1;
    var sealed, body := Sealed(fmt, i, log[i]), words[..last];
    assert MayRead(fmt, log, i, last, words[last]);
    assert words[last] == sealed[last] == fmt.crc([i] + fmt.image(log[i]));
    assert body == [i] + fmt.image(log[i]);
    assert words[1..last] == body[1..] == fmt.image(log[i]);
  }

  /** The client's name space is a replay of the first `high` entries. */
  ghost predicate Prefix(ns0: Tree, s: State) {
    s.high <= |s.log| && s.ns == Replay(ns0, s.log[..s.high])
  }

  /** One client step: an accepted entry is played again, or it is the next one. */
  lemma PlayKeepsPrefix(fmt: Format, ns0: Tree, s: State)
    requires Faithful(fmt) && CollisionFree(fmt) && Memory(fmt, s) && Client(fmt, s) && Prefix(ns0, s)
    requires NoLateParent(s.log)
    requires s.client.Reading? && s.client.todo == {} && ValidEntry(fmt, s.client.words, s.client.index)
    ensures Prefix(ns0, ClientNext(fmt, s, 0, 0))
  {
    hide Play, NoLateParent, EntryOf, ValidEntry, Storable, MayRead, CollisionFree, Faithful;
    var i, k := s.client.index, s.high;
    AcceptedIsAppended(fmt, s.log, i, s.client.words);
    if i < k {
      PlayAgain(ns0, s.log, i, k);
    } else {
      assert s.log[..k + 1][..k] == s.log[..k];
    }
  }

  lemma PrefixNext(fmt: Format, ns0: Tree, s: State, e: Event)
    requires Faithful(fmt) && CollisionFree(fmt) && Memory(fmt, s) && Client(fmt, s) && Prefix(ns0, s)
    requires NoLateParent(s.log)
    ensures Prefix(ns0, Step(fmt, s, e))
  {
    hide Play, NoLateParent, EntryOf, ValidEntry, MasterNext, Memory;
    var t := Step(fmt, s, e);
    assert t.log[..s.high] == s.log[..s.high];
    if e.ClientStep? && s.client.Reading? && s.client.todo == {} && ValidEntry(fmt, s.client.words, s.client.index) {
      PlayKeepsPrefix(fmt, ns0, s);
    }
  }

  function Start(ns0: Tree): State {
    State(map[], [], Idle, Between, ns0, 0)
  }

  lemma LogOnlyGrows(fmt: Format, s: State, e: Event)
    ensures s.log <= Step(fmt, s, e).log
  {
    hide MasterNext, ClientNext;
  }

  lemma EarlierLog(log: seq<LogEntry>, more: seq<LogEntry>)
    requires log <= more && NoLateParent(more)
    ensures NoLateParent(log)
  {
    hide Parent, Playable;
    assert forall i :: 0 <= i < |log| ==> log[i] == more[i];
  }

  lemma {:induction false} RunInv(fmt: Format, ns0: Tree, es: seq<Event>)
    requires Faithful(fmt) && CollisionFree(fmt) && NoLateParent(Run(fmt, Start(ns0), es).log)
    ensures var s := Run(fmt, Start(ns0), es); Memory(fmt, s) && Client(fmt, s) && Prefix(ns0, s)
    decreases |es|
  {
    hide Step, NoLateParent;
    if es != [] {
      var s, e := Run(fmt, Start(ns0), es[..|es| - 1]), es[|es| - 1];
      LogOnlyGrows(fmt, s, e);
      EarlierLog(s.log, Step(fmt, s, e).log);
      RunInv(fmt, ns0, es[..|es| - 1]);
      hide Memory, Client, Prefix;
      MemoryNext(fmt, s, e);
      ClientInv(fmt, s, e);
      PrefixNext(fmt, ns0, s, e);
    } else {
      assert Start(ns0).log[..0] == [];
    }
  }

  /**
   However appends, stores, plays and stale loads interleave, and however often the client plays:
   its name space is always a replay of some prefix of the master's log.
   */
  lemma ClientSeesAPrefix(fmt: Format, ns0: Tree, es: seq<Event>)
    requires Faithful(fmt) && CollisionFree(fmt) && NoLateParent(Run(fmt, Start(ns0), es).log)
    ensures var s := Run(fmt, Start(ns0), es); s.high <= |s.log| && s.ns == Replay(ns0, s.log[..s.high])
  {
    RunInv(fmt, ns0, es);
  }

  /** The same when the entries come from any run of the master's create operations. */
  lemma ClientFollowsMaster(
      fmt: Format, ns0: Tree, ns1: Tree, slots: nat, ms: seq<M.Event>, es: seq<Event>)
    requires Faithful(fmt) && CollisionFree(fmt) && M.Closed(ns0) && M.ProperRun(ms)
    requires Run(fmt, Start(ns1), es).log <= M.Run(M.Mount(ns0, slots), ms).log
    ensures var s := Run(fmt, Start(ns1), es); s.high <= |s.log| && s.ns == Replay(ns1, s.log[..s.high])
  {
    M.RunInv(ns0, slots, ms);
    hide Run, M.Run, NoLateParent, Replay, M.ProperRun;
    EarlierLog(Run(fmt, Start(ns1), es).log, M.Run(M.Mount(ns0, slots), ms).log);
    ClientSeesAPrefix(fmt, ns1, es);
  }
}
