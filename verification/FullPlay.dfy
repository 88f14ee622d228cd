/** A client that reads current values gets the whole log (src/famfs_lib.c). */
module FullPlay {
  import opened Meta
  import opened Namespace
  import opened Journal
  import opened Visibility

  // ---------- what the master has stored ----------

  /** Entries whose words have all been stored. */
  function Complete(s: State): int {
    if s.master.Copying? then |s.log| - 1 else |s.log|
  }

  /** What next_index was last set to. */
  function Counted(s: State): int {
    if s.master.Idle? then |s.log| else |s.log| - 1
  }

  ghost predicate WordStored(fmt: Format, s: State, i: int, w: int)
    requires 0 <= i < |s.log| && 0 <= w < |Sealed(fmt, i, s.log[i])|
  {
    Sealed(fmt, i, s.log[i])[w] in Past(s, EntryWord(i, w))
  }

  ghost predicate Stored(fmt: Format, s: State) {
    && (!s.master.Idle? ==> s.log != [])
    && (forall i :: 0 <= i < |s.log| ==> Storable(s.log[i]) && |Sealed(fmt, i, s.log[i])| == fmt.words)
    && (forall i, w :: 0 <= i < Complete(s) && 0 <= w < fmt.words ==> WordStored(fmt, s, i, w))
    && (s.master.Copying? ==>
        forall w :: 0 <= w < fmt.words && w !in s.master.todo ==> WordStored(fmt, s, |s.log| - 1, w))
    && Counted(s) in Past(s, NextIndex)
  }

  lemma SealedSize(fmt: Format, index: int, e: LogEntry)
    requires Faithful(fmt) && Storable(e)
    ensures |Sealed(fmt, index, e)| == fmt.words
  {
  }

  lemma AppendStored(fmt: Format, s: State, e: LogEntry)
    requires Faithful(fmt) && Stored(fmt, s)
    ensures Stored(fmt, Step(fmt, s, Append(e)))
  {
    var t := Step(fmt, s, Append(e));
    if s.master.Idle? && Storable(e) {
      SealedSize(fmt, |s.log|, e);
      hide Sealed, Storable;
      assert forall i :: 0 <= i < |s.log| ==> t.log[i] == s.log[i];
      forall i, w | 0 <= i < Complete(t) && 0 <= w < fmt.words
        ensures WordStored(fmt, t, i, w)
      {
        assert WordStored(fmt, s, i, w);
      }
    }
  }

  lemma MasterStored(fmt: Format, s: State, w: int)
    requires Stored(fmt, s)
    ensures Stored(fmt, MasterNext(fmt, s, w))
  {
    hide Sealed, Storable;
    var t := MasterNext(fmt, s, w);
    var last := |s.log| - 1;
    forall i, x | 0 <= i < Complete(t) && 0 <= x < fmt.words
      ensures WordStored(fmt, t, i, x)
    {
      if i == last && s.master.Copying? {
        assert x !in s.master.todo;
      }
      assert WordStored(fmt, s, i, x);
    }
    if t.master.Copying? {
      forall x | 0 <= x < fmt.words && x !in t.master.todo
        ensures WordStored(fmt, t, last, x)
      {
        assert x == w || WordStored(fmt, s, last, x);
      }
    }
  }

  lemma ClientStored(fmt: Format, s: State, t: State)
    requires Stored(fmt, s) && t.past == s.past && t.log == s.log && t.master == s.master
    ensures Stored(fmt, t)
  {
    hide Sealed, Storable;
    assert forall i, w :: 0 <= i < |s.log| && 0 <= w < fmt.words && WordStored(fmt, s, i, w) ==>
      WordStored(fmt, t, i, w);
  }

  lemma StoredNext(fmt: Format, s: State, e: Event)
    requires Faithful(fmt) && Stored(fmt, s)
    ensures Stored(fmt, Step(fmt, s, e))
  {
    hide Stored, MasterNext, ClientNext;
    match e
    case Append(entry) => AppendStored(fmt, s, entry);
    case MasterStep(w) => MasterStored(fmt, s, w);
    case LogplayBegin => ClientStored(fmt, s, Step(fmt, s, e));
    case ClientStep(w, v) => ClientStored(fmt, s, Step(fmt, s, e));
  }

  lemma {:induction false} RunStored(fmt: Format, ns0: Tree, es: seq<Event>)
    requires Faithful(fmt)
    ensures Stored(fmt, Run(fmt, Start(ns0), es))
    decreases |es|
  {
    if es != [] {
      hide Step, Stored;
      RunStored(fmt, ns0, es[..|es| - 1]);
      StoredNext(fmt, Run(fmt, Start(ns0), es[..|es| - 1]), es[|es| - 1]);
    }
  }

  // ---------- plays whose loads return current values ----------

  /** The load of the client's next step returns what was stored last. */
  predicate Current(fmt: Format, s: State, e: Event) {
    && e.ClientStep?
    && (s.client.AtEntry? ==> e.value == |s.log|)
    && (s.client.Reading? ==>
        var i, w := s.client.index, e.word;
        i < |s.log| && 0 <= w < |Sealed(fmt, i, s.log[i])| ==> e.value == Sealed(fmt, i, s.log[i])[w])
  }

  ghost predicate CurrentPlay(fmt: Format, s: State, es: seq<Event>) {
    forall k :: 0 <= k < |es| ==> Current(fmt, Run(fmt, s, es[..k]), es[k])
  }

  /** Where a play is that has read only current values. */
  ghost predicate OnTrack(fmt: Format, log: seq<LogEntry>, s: State) {
    && s.log == log && s.master.Idle? && s.high <= |log|
    && match s.client
       case Between => s.high == |log|
       case AtEntry(i) => i <= s.high
       case Reading(i, words, todo) =>
         && i <= s.high && i < |log| && |words| == fmt.words == |Sealed(fmt, i, log[i])|
         && forall w :: 0 <= w < fmt.words && w !in todo ==> words[w] == Sealed(fmt, i, log[i])[w]
  }

  lemma TrackNext(fmt: Format, s: State, e: Event)
    requires Faithful(fmt) && Stored(fmt, s) && OnTrack(fmt, s.log, s) && Current(fmt, s, e)
    ensures OnTrack(fmt, s.log, Step(fmt, s, e))
  {
    if s.client.Reading? && s.client.todo == {} {
      var i := s.client.index;
      assert s.client.words == Sealed(fmt, i, s.log[i]);
      SealedIsValid(fmt, i, s.log[i]);
    } else if s.client.AtEntry? && s.client.index < |s.log| {
      assert |Sealed(fmt, s.client.index, s.log[s.client.index])| == fmt.words;
    }
    hide Sealed, Play, ValidEntry, EntryOf, Faithful, Stored, Past, Storable;
  }

  lemma PlayBefore(fmt: Format, s: State, es: seq<Event>)
    requires CurrentPlay(fmt, s, es) && es != []
    ensures var rest, e := es[..|es| - 1], es[|es| - 1];
      CurrentPlay(fmt, s, rest) && Current(fmt, Run(fmt, s, rest), e)
  {
    hide Run, Current;
    var rest := es[..|es| - 1];
    assert forall k :: 0 <= k < |rest| ==> rest[..k] == es[..k] && rest[k] == es[k];
  }

  lemma {:induction false} TrackRun(fmt: Format, s: State, es: seq<Event>)
    requires Faithful(fmt) && Stored(fmt, s) && OnTrack(fmt, s.log, s) && CurrentPlay(fmt, s, es)
    ensures var t := Run(fmt, s, es); Stored(fmt, t) && OnTrack(fmt, s.log, t) && t.log == s.log
    decreases |es|
  {
    if es != [] {
      hide Step, Stored, Current, OnTrack, CurrentPlay, Faithful;
      var rest, last := es[..|es| - 1], |es| - 1;
      PlayBefore(fmt, s, es);
      TrackRun(fmt, s, rest);
      var t := Run(fmt, s, rest);
      TrackNext(fmt, t, es[last]);
      StoredNext(fmt, t, es[last]);
      SameLog(fmt, s.log, Step(fmt, t, es[last]));
    }
  }

  lemma SameLog(fmt: Format, log: seq<LogEntry>, s: State)
    requires OnTrack(fmt, log, s)
    ensures s.log == log
  {
  }

  lemma BeginOnTrack(fmt: Format, s: State)
    requires s.master.Idle? && s.client.Between? && s.high <= |s.log|
    ensures OnTrack(fmt, s.log, Step(fmt, s, LogplayBegin))
  {
  }

  /**
   Whenever the master has finished its appends and a client plays, reading current values: if the
   play ends, the client's name space is the replay of the whole log.
   */
  lemma CurrentPlayIsFull(fmt: Format, ns0: Tree, es: seq<Event>, play: seq<Event>)
    requires Faithful(fmt) && CollisionFree(fmt) && NoLateParent(Run(fmt, Start(ns0), es).log)
    requires var s := Run(fmt, Start(ns0), es); s.master.Idle? && s.client.Between?
    requires var s := Step(fmt, Run(fmt, Start(ns0), es), LogplayBegin);
      CurrentPlay(fmt, s, play) && Run(fmt, s, play).client.Between?
    ensures var s := Run(fmt, Start(ns0), es);
      var t := Run(fmt, Step(fmt, s, LogplayBegin), play);
      t.log == s.log && t.high == |t.log| && t.ns == Replay(ns0, t.log)
  {
    hide Stored, NoLateParent, CollisionFree, Faithful, CurrentPlay;
    var s := Run(fmt, Start(ns0), es);
    RunStored(fmt, ns0, es);
    RunInv(fmt, ns0, es);
    assert s.high <= |s.log| by {
      hide Run;
    }
    hide Memory, Client, Prefix;
    BeginOnTrack(fmt, s);
    StoredNext(fmt, s, LogplayBegin);
    var b := Step(fmt, s, LogplayBegin);
    assert b.log == s.log;
    TrackRun(fmt, b, play);
    var t := Run(fmt, b, play);
    var all := es + [LogplayBegin];
    assert all[..|es|] == es;
    assert Run(fmt, Start(ns0), all) == b;
    RunMore(fmt, Start(ns0), all, play);
    hide Run, Step;
    ClientSeesAPrefix(fmt, ns0, all + play);
    assert t.log[..|t.log|] == t.log;
  }

  lemma {:induction false} RunMore(fmt: Format, s: State, es: seq<Event>, fs: seq<Event>)
    ensures Run(fmt, s, es + fs) == Run(fmt, Run(fmt, s, es), fs)
    decreases |fs|
  {
    hide Step;
    if fs == [] {
      assert es + fs == es;
    } else {
      assert (es + fs)[..|es + fs| - 1] == es + fs[..|fs| - 1];
      RunMore(fmt, s, es, fs[..|fs| - 1]);
    }
  }

  // ---------- there is always such a play ----------

  /** The step that a client with current values takes next. */
  lemma NextLoad(fmt: Format, s: State) returns (e: Event)
    requires Faithful(fmt) && Stored(fmt, s) && OnTrack(fmt, s.log, s) && !s.client.Between?
    requires s.client.Reading? ==> s.client.todo <= AllWords(fmt)
    ensures Current(fmt, s, e)
    ensures var t := Step(fmt, s, e);
      && (t.client.Reading? ==> t.client.todo <= AllWords(fmt))
      && (t.client.Between? || Shorter(Left(t), Left(s)))
  {
    hide Sealed, Play, ValidEntry, EntryOf, Storable;
    if s.client.AtEntry? {
      e := ClientStep(0, |s.log|);
    } else if s.client.todo == {} {
      var i := s.client.index;
      e := ClientStep(-1, 0);
      assert s.client.words == Sealed(fmt, i, s.log[i]);
      SealedIsValid(fmt, i, s.log[i]);
      hide Faithful, Stored;
    } else if w :| w in s.client.todo {
      var i := s.client.index;
      assert WordStored(fmt, s, i, w);
      e := ClientStep(w, Sealed(fmt, i, s.log[i])[w]);
      Smaller(s.client.todo, w);
    }
  }

  lemma Smaller(s: set<int>, x: int)
    requires x in s
    ensures |s - {x}| < |s|
  {
  }

  /** What is left of a play: entries, twice while one is not begun, and the words of the one being read. */
  datatype Rest = Rest(entries: int, words: nat)

  function Left(s: State): Rest {
    match s.client
    case Between => Rest(0, 0)
    case AtEntry(i) => Rest(2 * (|s.log| - i) + 1, 0)
    case Reading(i, _, todo) => Rest(2 * (|s.log| - i), |todo|)
  }

  predicate Shorter(a: Rest, b: Rest) {
    0 <= a.entries && (a.entries < b.entries || (a.entries == b.entries && a.words < b.words))
  }

  lemma FirstEvent(fmt: Format, s: State, e: Event, es: seq<Event>)
    ensures Run(fmt, s, [e] + es) == Run(fmt, Step(fmt, s, e), es)
  {
    RunMore(fmt, s, [e], es);
    assert [e][..0] == [];
    assert Run(fmt, s, [e]) == Step(fmt, s, e);
  }

  lemma LongerPlay(fmt: Format, s: State, e: Event, rest: seq<Event>)
    requires Current(fmt, s, e) && CurrentPlay(fmt, Step(fmt, s, e), rest)
    ensures CurrentPlay(fmt, s, [e] + rest)
  {
    hide Step, Current;
    var play := [e] + rest;
    forall k | 0 <= k < |play|
      ensures Current(fmt, Run(fmt, s, play[..k]), play[k])
    {
      if k == 0 {
        assert play[..0] == [];
      } else {
        assert play[..k] == [e] + rest[..k - 1];
        FirstEvent(fmt, s, e, rest[..k - 1]);
      }
    }
  }

  lemma {:induction false} FinishPlay(fmt: Format, s: State) returns (play: seq<Event>)
    requires Faithful(fmt) && Stored(fmt, s) && OnTrack(fmt, s.log, s)
    requires s.client.Reading? ==> s.client.todo <= AllWords(fmt)
    ensures CurrentPlay(fmt, s, play) && Run(fmt, s, play).client.Between?
    decreases Left(s).entries, Left(s).words
  {
    if s.client.Between? {
      play := [];
    } else {
      hide Step, Stored, OnTrack, Current, CurrentPlay, Faithful, Left;
      var e := NextLoad(fmt, s);
      var t := Step(fmt, s, e);
      TrackNext(fmt, s, e);
      StoredNext(fmt, s, e);
      SameLog(fmt, s.log, t);
      var rest: seq<Event>;
      if t.client.Between? {
        rest := [];
        NoEvents(fmt, t);
      } else {
        rest := FinishPlay(fmt, t);
      }
      LongerPlay(fmt, s, e, rest);
      FirstEvent(fmt, s, e, rest);
      play := [e] + rest;
    }
  }

  lemma NoEvents(fmt: Format, s: State)
    ensures CurrentPlay(fmt, s, []) && Run(fmt, s, []) == s
  {
  }

  /** After every run, once the master is idle, a client between plays can get the whole log. */
  lemma FullPlayExists(fmt: Format, ns0: Tree, es: seq<Event>) returns (play: seq<Event>)
    requires Faithful(fmt) && CollisionFree(fmt) && NoLateParent(Run(fmt, Start(ns0), es).log)
    requires var s := Run(fmt, Start(ns0), es); s.master.Idle? && s.client.Between?
    ensures var s := Run(fmt, Start(ns0), es);
      var t := Run(fmt, Step(fmt, s, LogplayBegin), play);
      t.client.Between? && t.log == s.log && t.ns == Replay(ns0, t.log)
  {
    hide Stored, NoLateParent, CollisionFree, Faithful, CurrentPlay, Run;
    var s := Run(fmt, Start(ns0), es);
    RunStored(fmt, ns0, es);
    RunInv(fmt, ns0, es);
    BeginOnTrack(fmt, s);
    StoredNext(fmt, s, LogplayBegin);
    play := FinishPlay(fmt, Step(fmt, s, LogplayBegin));
    CurrentPlayIsFull(fmt, ns0, es, play);
  }
}
