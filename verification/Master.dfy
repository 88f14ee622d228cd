/** The master: create locally, then append to the log (src/famfs_lib.c). */
module Master {
  import opened Meta
  import opened Namespace

  /** Local name space, log, and number of log slots. */
  datatype State = State(ns: Tree, log: seq<LogEntry>, slots: nat)

  /**
   How far a file gets before it is logged: to the end; nowhere, because space, the stub or an
   assertion fails; to a file whose map or shadow file cannot be completed; or to a file that
   cannot be mapped or opened, which __famfs_mkfile logs all the same.
   */
  datatype Local = Done | NotCreated | Unfinished | Unopened

  datatype Event =
    | Mkfile(fm: FileMeta, local: Local)
    | Mkdir(path: string, mode: nat, uid: nat, gid: nat, made: bool, chownOk: bool)

  function Path(e: Event): string {
    match e
    case Mkfile(fm, _) => fm.path
    case Mkdir(path, _, _, _, _, _) => path
  }

  /** strncpy into a zeroed field of FAMFS_MAX_PATHLEN bytes. */
  function Truncated(path: string): string {
    if |path| < FAMFS_MAX_PATHLEN then path else path[..FAMFS_MAX_PATHLEN - 1]
  }

  function Entry(e: Event): LogEntry {
    match e
    case Mkfile(fm, _) => LogFile(fm.(path := Truncated(fm.path)))
    case Mkdir(path, mode, uid, gid, _, _) => LogMkdir(Truncated(path), mode, uid, gid)
  }

  function NewNode(e: Event): Node {
    match e
    case Mkfile(fm, _) => File(fm)
    case Mkdir(_, mode, uid, gid, _, _) => Dir(mode, uid, gid)
  }

  /** Something new comes to exist locally. What exists or has no parent is refused. */
  predicate Creates(s: State, e: Event) {
    && Path(e) !in s.ns && IsDir(s.ns, Parent(Path(e)))
    && match e
       case Mkfile(_, local) => !local.NotCreated?
       case Mkdir(_, _, _, _, made, _) => made
  }

  /** The local steps get to the call that logs. */
  predicate Completes(e: Event) {
    match e
    case Mkfile(_, local) => local.Done? || local.Unopened?
    case Mkdir(_, _, uid, gid, _, chownOk) => uid == 0 || gid == 0 || chownOk
  }

  predicate Short(e: Event) {
    |Path(e)| < FAMFS_MAX_PATHLEN
  }

  /** __famfs_mkfile and __famfs_mkdir: a full log refuses, the local node stays. */
  function Step(s: State, e: Event): State {
    if !Creates(s, e) then s
    else if Completes(e) && |s.log| < s.slots
    then s.(ns := s.ns[Path(e) := NewNode(e)], log := s.log + [Entry(e)])
    else s.(ns := s.ns[Path(e) := NewNode(e)])
  }

  function Run(s: State, es: seq<Event>): State {
    if es == [] then s else Step(Run(s, es[..|es| - 1]), es[|es| - 1])
  }

  /** What callers and the allocator guarantee. */
  predicate Proper(e: Event) {
    Relative(Path(e)) && !Slashed(Path(e)) && (e.Mkfile? ==> !ZeroOffset(e.fm.fmap))
  }

  ghost predicate ProperRun(es: seq<Event>) {
    forall i :: 0 <= i < |es| ==> Proper(es[i])
  }

  ghost predicate Closed(ns: Tree) {
    Rooted(ns) && forall p :: p in ns ==> !Slashed(p)
  }

  function Mount(ns0: Tree, slots: nat): State {
    State(ns0, [], slots)
  }

  // ---------- every run ----------

  /** What is logged was created under a parent that existed, and no parent comes later. */
  ghost predicate Inv(ns0: Tree, slots: nat, s: State) {
    && s.slots == slots && |s.log| <= slots && Closed(s.ns) && Extends(ns0, s.ns) && NoLateParent(s.log)
    && forall i :: 0 <= i < |s.log| ==> Playable(s.log[i]) && Parent(PathOf(s.log[i])) in s.ns
  }

  /** The parent of a path that was cut short is one of the path's own ancestors. */
  lemma {:induction false} ParentOfPrefix(ns: Tree, path: string, k: nat)
    requires Closed(ns) && Parent(path) in ns && 0 < k <= |path|
    ensures Parent(path[..k]) in ns
    decreases |path|
  {
    if k == |path| {
      assert path[..k] == path;
    } else {
      var shorter := path[..|path| - 1];
      assert shorter[..k] == path[..k];
      ParentOfPrefix(ns, shorter, k);
    }
  }

  /** The path of an entry: the whole path, or what the cut leaves, less a slash at its end. */
  lemma EntryPath(ns: Tree, e: Event)
    requires Closed(ns) && Parent(Path(e)) in ns && Proper(e)
    ensures var path, cut := PathOf(Entry(e)), FAMFS_MAX_PATHLEN - 1;
      && |path| <= cut
      && if Short(e) then path == Path(e) else path == Path(e)[..cut] || (e.Mkdir? && path == Path(e)[..cut - 1])
  {
    if e.Mkdir? {
      var cut := FAMFS_MAX_PATHLEN - 1;
      if !Short(e) && Path(e)[cut - 1] == '/' {
        ParentOfPrefix(ns, Path(e), cut);
        assert Parent(Path(e)[..cut]) == Path(e)[..cut][..cut - 1] == Path(e)[..cut - 1];
        assert Trim(Path(e)[..cut]) == Trim(Path(e)[..cut - 1]);
      }
    }
  }

  lemma EntryParent(ns: Tree, e: Event)
    requires Closed(ns) && Parent(Path(e)) in ns && Proper(e)
    ensures Playable(Entry(e)) && Parent(PathOf(Entry(e))) in ns
  {
    EntryPath(ns, e);
    hide Parent, Trim;
    if !Short(e) {
      ParentOfPrefix(ns, Path(e), FAMFS_MAX_PATHLEN - 1);
      ParentOfPrefix(ns, Path(e), FAMFS_MAX_PATHLEN - 2);
    }
  }

  /** Between a path that does not end in a slash and its parent there are two characters. */
  lemma ParentMuchShorter(path: string)
    requires !Slashed(path) && |path| < FAMFS_MAX_PATHLEN
    ensures |Parent(path)| < FAMFS_MAX_PATHLEN - 2
  {
  }

  /** A new entry is nobody's late parent: it is new, or too long to be a parent of what fits. */
  lemma NotLate(s: State, e: Event)
    requires Closed(s.ns) && Proper(e) && Creates(s, e) && NoLateParent(s.log) && ShortLog(s.log)
    requires forall i :: 0 <= i < |s.log| ==> Parent(PathOf(s.log[i])) in s.ns
    ensures NoLateParent(s.log + [Entry(e)])
  {
    EntryPath(s.ns, e);
    forall i | 0 <= i < |s.log| && s.log[i].LogMkdir?
      ensures PathOf(Entry(e)) != Parent(PathOf(s.log[i]))
    {
      ParentMuchShorter(PathOf(s.log[i]));
    }
    hide Parent, Playable, PathOf;
    var more := s.log + [Entry(e)];
    assert forall i :: 0 <= i < |s.log| ==> more[i] == s.log[i];
  }

  ghost predicate ShortLog(log: seq<LogEntry>) {
    forall i :: 0 <= i < |log| ==> |PathOf(log[i])| < FAMFS_MAX_PATHLEN
  }

  lemma StepInv(ns0: Tree, slots: nat, s: State, e: Event)
    requires Inv(ns0, slots, s) && ShortLog(s.log) && Proper(e)
    ensures Inv(ns0, slots, Step(s, e)) && ShortLog(Step(s, e).log)
  {
    hide Parent, Playable;
    if Creates(s, e) {
      EntryParent(s.ns, e);
      NotLate(s, e);
      hide Proper, NoLateParent;
      var t := Step(s, e);
      assert |PathOf(Entry(e))| < FAMFS_MAX_PATHLEN;
      assert forall i :: 0 <= i < |t.log| ==> t.log[i] == if i < |s.log| then s.log[i] else Entry(e);
    }
  }

  lemma {:induction false} RunInv(ns0: Tree, slots: nat, es: seq<Event>)
    requires Closed(ns0) && ProperRun(es)
    ensures Inv(ns0, slots, Run(Mount(ns0, slots), es)) && ShortLog(Run(Mount(ns0, slots), es).log)
    decreases |es|
  {
    hide Step, Proper;
    if es != [] {
      RunInv(ns0, slots, es[..|es| - 1]);
      StepInv(ns0, slots, Run(Mount(ns0, slots), es[..|es| - 1]), es[|es| - 1]);
    }
  }

  /**
   Over every run, with failed creations, a full log and paths that are cut short: clients may
   replay any prefix, then any prefix of what the master appended since.
   */
  lemma MasterLogIncremental(ns0: Tree, slots: nat, es: seq<Event>, ns: Tree, k: nat, m: nat)
    requires Closed(ns0) && ProperRun(es)
    requires var log := Run(Mount(ns0, slots), es).log; k <= |log| && m <= |log|
    ensures var log := Run(Mount(ns0, slots), es).log;
      Replay(Replay(ns, log[..k]), log[..m]) == Replay(ns, log[..if m <= k then k else m])
  {
    RunInv(ns0, slots, es);
    hide Run, Replay, NoLateParent, ProperRun;
    ReplayIncremental(ns, Run(Mount(ns0, slots), es).log, k, m);
  }

  // ---------- when replay gives the master's own name space ----------

  /** Something is created that is not logged under its path. */
  predicate Misses(s: State, e: Event) {
    Creates(s, e) && !(Short(e) && Completes(e) && |s.log| < s.slots)
  }

  ghost predicate MissedAt(ns0: Tree, slots: nat, es: seq<Event>, i: int) {
    0 <= i < |es| && Misses(Run(Mount(ns0, slots), es[..i]), es[i])
  }

  lemma MissedBefore(ns0: Tree, slots: nat, es: seq<Event>, i: int)
    requires es != []
    ensures var last, rest := |es| - 1, es[..|es| - 1];
      MissedAt(ns0, slots, es, i) <==>
        if i == last then Misses(Run(Mount(ns0, slots), rest), es[last]) else MissedAt(ns0, slots, rest, i)
  {
    hide Misses, Run;
    var last, rest := |es| - 1, es[..|es| - 1];
    if 0 <= i < last {
      assert rest[..i] == es[..i] && rest[i] == es[i];
    }
  }

  lemma PlayedToo(ns0: Tree, s: State, e: Event)
    requires s.ns == Replay(ns0, s.log) && Proper(e) && !Misses(s, e)
    ensures Step(s, e).ns == Replay(ns0, Step(s, e).log)
  {
    hide Parent, ZeroOffset;
    var t := Step(s, e);
    if Creates(s, e) {
      assert t.log[..|t.log| - 1] == s.log;
    }
  }

  lemma {:induction false} NothingMissed(ns0: Tree, slots: nat, es: seq<Event>)
    requires ProperRun(es) && forall i :: !MissedAt(ns0, slots, es, i)
    ensures var s := Run(Mount(ns0, slots), es); s.ns == Replay(ns0, s.log)
    decreases |es|
  {
    hide Step, Misses, Proper, MissedAt;
    if es != [] {
      var last, rest := |es| - 1, es[..|es| - 1];
      forall i
        ensures !MissedAt(ns0, slots, rest, i) && !Misses(Run(Mount(ns0, slots), rest), es[last])
      {
        MissedBefore(ns0, slots, es, i);
        MissedBefore(ns0, slots, es, last);
        if i == last {
          NoStepYet(ns0, slots, rest, i);
        }
      }
      NothingMissed(ns0, slots, rest);
      PlayedToo(ns0, Run(Mount(ns0, slots), rest), es[last]);
    }
  }

  lemma NoStepYet(ns0: Tree, slots: nat, es: seq<Event>, i: int)
    requires i >= |es|
    ensures !MissedAt(ns0, slots, es, i)
  {
  }

  /** A path that exists locally, was not there at the start, and is not in the log. */
  ghost predicate Unlogged(ns0: Tree, s: State, path: string) {
    path in s.ns && path !in ns0 && !InLog(s.log, path)
  }

  ghost predicate AllLocal(s: State) {
    forall i :: 0 <= i < |s.log| ==> PathOf(s.log[i]) in s.ns
  }

  lemma LogAfter(s: State, e: Event)
    ensures var t := Step(s, e);
      && s.log <= t.log && |t.log| <= |s.log| + 1
      && forall i :: 0 <= i < |t.log| ==> t.log[i] == if i < |s.log| then s.log[i] else Entry(e)
  {
    hide Creates, Completes, Entry;
  }

  lemma LongIsUnlogged(ns0: Tree, s: State, e: Event)
    requires Extends(ns0, s.ns) && ShortLog(s.log) && Creates(s, e) && !Short(e)
    ensures Unlogged(ns0, Step(s, e), Path(e))
  {
    LogAfter(s, e);
    hide Parent, Completes;
  }

  lemma WholePath(e: Event)
    requires Short(e) && !Slashed(Path(e))
    ensures PathOf(Entry(e)) == Path(e) && NodeOf(Entry(e)) == NewNode(e)
  {
  }

  /** Once a path is not logged, some path never is: a cut path may take its name, but is itself not logged. */
  lemma UnloggedStays(ns0: Tree, s: State, e: Event, path: string)
    requires Extends(ns0, s.ns) && ShortLog(s.log) && Unlogged(ns0, s, path) && Proper(e)
    ensures exists p :: Unlogged(ns0, Step(s, e), p)
  {
    LogAfter(s, e);
    if Creates(s, e) && !Short(e) {
      LongIsUnlogged(ns0, s, e);
    } else {
      if Creates(s, e) {
        WholePath(e);
      }
      hide Parent, Completes, PathOf, Entry;
      assert Unlogged(ns0, Step(s, e), path);
    }
  }

  lemma NewlyUnlogged(ns0: Tree, s: State, e: Event)
    requires Extends(ns0, s.ns) && ShortLog(s.log) && AllLocal(s) && Misses(s, e)
    ensures exists p :: Unlogged(ns0, Step(s, e), p)
  {
    LogAfter(s, e);
    if !Short(e) {
      LongIsUnlogged(ns0, s, e);
    } else {
      hide Parent;
      assert Unlogged(ns0, Step(s, e), Path(e));
    }
  }

  lemma AllLocalNext(s: State, e: Event)
    requires AllLocal(s) && Proper(e) && (Creates(s, e) ==> Short(e))
    ensures AllLocal(Step(s, e))
  {
    LogAfter(s, e);
    if Creates(s, e) {
      WholePath(e);
    }
    hide Parent, Completes, PathOf, Entry;
  }

  /** Either nothing was missed and all that is logged exists, or some path is not logged. */
  lemma {:induction false} MissedMeansUnlogged(ns0: Tree, slots: nat, es: seq<Event>)
    requires Closed(ns0) && ProperRun(es)
    ensures var s := Run(Mount(ns0, slots), es);
      && (AllLocal(s) || exists p :: Unlogged(ns0, s, p))
      && ((exists i :: MissedAt(ns0, slots, es, i)) ==> exists p :: Unlogged(ns0, s, p))
    decreases |es|
  {
    if es != [] {
      var last, rest := |es| - 1, es[..|es| - 1];
      MissedMeansUnlogged(ns0, slots, rest);
      RunInv(ns0, slots, rest);
      var s := Run(Mount(ns0, slots), rest);
      hide Step, MissedAt, Unlogged, AllLocal, Proper, ShortLog, Closed, NoLateParent;
      if p :| Unlogged(ns0, s, p) {
        UnloggedStays(ns0, s, es[last], p);
      } else if Misses(s, es[last]) {
        NewlyUnlogged(ns0, s, es[last]);
      } else {
        AllLocalNext(s, es[last]);
        forall i
          ensures !MissedAt(ns0, slots, es, i)
        {
          MissedBefore(ns0, slots, es, i);
        }
      }
    }
  }

  /** Files that the master makes are under their own paths. */
  ghost predicate Named(ns0: Tree, ns: Tree) {
    forall p :: p in ns && p !in ns0 ==> !Stray(ns, p)
  }

  lemma {:induction false} RunNamed(ns0: Tree, slots: nat, es: seq<Event>)
    ensures Named(ns0, Run(Mount(ns0, slots), es).ns)
    decreases |es|
  {
    hide Parent, Completes, Entry;
    if es != [] {
      RunNamed(ns0, slots, es[..|es| - 1]);
    }
  }

  /** Over every run: a fresh replay gives the master's own name space if and only if nothing was missed. */
  lemma MasterLogReplays(ns0: Tree, slots: nat, es: seq<Event>)
    requires Closed(ns0) && ProperRun(es)
    ensures var s := Run(Mount(ns0, slots), es);
      Replay(ns0, s.log) == s.ns <==> forall i :: !MissedAt(ns0, slots, es, i)
  {
    hide Run, MissedAt, ProperRun, Closed;
    if forall i :: !MissedAt(ns0, slots, es, i) {
      NothingMissed(ns0, slots, es);
    } else {
      MissedMeansUnlogged(ns0, slots, es);
      RunNamed(ns0, slots, es);
      var s := Run(Mount(ns0, slots), es);
      var p :| Unlogged(ns0, s, p);
      ReplayOnlyLogged(ns0, s.log, p);
    }
  }

  // ---------- which creations reach clients ----------

  ghost predicate ShortRun(es: seq<Event>) {
    forall i :: 0 <= i < |es| ==> Proper(es[i]) && Short(es[i])
  }

  lemma {:induction false} RunGrows(s: State, es: seq<Event>)
    ensures Extends(s.ns, Run(s, es).ns) && s.log <= Run(s, es).log && s.slots == Run(s, es).slots
    decreases |es|
  {
    hide Parent, Completes;
    if es != [] {
      RunGrows(s, es[..|es| - 1]);
    }
  }

  lemma {:induction false} LoggedExists(s: State, es: seq<Event>)
    requires AllLocal(s) && ShortRun(es)
    ensures AllLocal(Run(s, es))
    decreases |es|
  {
    hide Step, AllLocal, Proper, Short;
    if es != [] {
      LoggedExists(s, es[..|es| - 1]);
      AllLocalNext(Run(s, es[..|es| - 1]), es[|es| - 1]);
    }
  }

  /** What exists is not logged again. */
  lemma {:induction false} NotLoggedAgain(s: State, es: seq<Event>, path: string)
    requires path in s.ns && (ShortRun(es) || |path| >= FAMFS_MAX_PATHLEN)
    ensures s.log <= Run(s, es).log && path in Run(s, es).ns && !InLog(Run(s, es).log[|s.log|..], path)
    decreases |es|
  {
    if es != [] {
      var rest := es[..|es| - 1];
      NotLoggedAgain(s, rest, path);
      var t, e := Run(s, rest), es[|es| - 1];
      LogAfter(t, e);
      hide InLog, Parent, Completes;
      if Creates(t, e) {
        OtherPath(e, path);
      }
      hide PathOf, Entry;
      AppendOther(t.log, Step(t, e).log, |s.log|, path);
    }
  }

  lemma OtherPath(e: Event, path: string)
    requires Path(e) != path && ((Proper(e) && Short(e)) || |path| >= FAMFS_MAX_PATHLEN)
    ensures PathOf(Entry(e)) != path
  {
  }

  lemma AppendOther(log: seq<LogEntry>, more: seq<LogEntry>, k: nat, path: string)
    requires k <= |log| && log <= more && !InLog(log[k..], path)
    requires forall i :: |log| <= i < |more| ==> PathOf(more[i]) != path
    ensures !InLog(more[k..], path)
  {
    hide PathOf;
    forall i | 0 <= i < |more[k..]|
      ensures PathOf(more[k..][i]) != path
    {
      if i < |log| - k {
        assert more[k..][i] == log[k..][i];
      }
    }
  }

  /** A client has the node that a creation made, under its path. */
  predicate Reached(t: Tree, e: Event) {
    Path(e) in t && t[Path(e)] == NewNode(e)
  }

  /** Later entries do not decide about a path that exists, except that a stray file may take a missing one. */
  lemma DecidedNow(ns0: Tree, s: State, es: seq<Event>, path: string)
    requires path in s.ns && ShortRun(es)
    ensures var now, later := Replay(ns0, s.log), Replay(ns0, Run(s, es).log);
      if path in now then path in later && later[path] == now[path] else path !in later || Stray(later, path)
    ensures path in Run(s, es).ns
  {
    NotLoggedAgain(s, es, path);
    hide Run, Replay, ShortRun, Stray;
    var log := Run(s, es).log;
    var later := log[|s.log|..];
    assert log == s.log + later;
    ReplayConcat(ns0, s.log, later);
    if path in Replay(ns0, s.log) {
      ReplayGrows(Replay(ns0, s.log), later);
    } else {
      ReplayOnlyLogged(Replay(ns0, s.log), later, path);
    }
  }

  /** Right after it is created, a new path is in the replay exactly if it was logged whole and its parent is there. */
  lemma PlayedNow(ns0: Tree, s: State, e: Event)
    requires Path(e) !in Replay(ns0, s.log) && Creates(s, e) && Proper(e)
    ensures var t := Replay(ns0, Step(s, e).log);
      && (Path(e) in t <==>
          Short(e) && Completes(e) && |s.log| < s.slots && IsDir(Replay(ns0, s.log), Parent(Path(e))))
      && (Path(e) in t ==> Reached(t, e))
  {
    var t := Step(s, e);
    if Completes(e) && |s.log| < s.slots {
      assert t.log[..|s.log|] == s.log;
      PlayedOnce(Replay(ns0, s.log), e);
    }
    hide Play, Entry, Parent;
  }

  lemma PlayedOnce(t: Tree, e: Event)
    requires Path(e) !in t && Proper(e)
    ensures var u := Play(t, Entry(e));
      && (Path(e) in u <==> Short(e) && IsDir(t, Parent(Path(e)))) && (Path(e) in u ==> Reached(u, e))
  {
    if Short(e) {
      WholePath(e);
    } else {
      assert |PathOf(Entry(e))| < |Path(e)|;
    }
    hide Parent, ZeroOffset, Trim, Truncated;
  }

  lemma NotYetPlayed(ns0: Tree, slots: nat, es: seq<Event>, path: string)
    requires Closed(ns0) && ShortRun(es) && path !in Run(Mount(ns0, slots), es).ns
    ensures path !in Replay(ns0, Run(Mount(ns0, slots), es).log)
  {
    var s := Run(Mount(ns0, slots), es);
    RunInv(ns0, slots, es);
    LoggedExists(Mount(ns0, slots), es);
    hide Run, Replay, ShortRun, Parent, NoLateParent, Playable;
    ReplayInside(ns0, s.log, s.ns);
  }

  /**
   For every run without cut paths and every creation of a new path after it: however the run goes
   on, clients get that node if and only if its path is short enough, its local steps completed, a
   slot was left, and clients have its parent. Otherwise they have nothing under that path, or a
   stray file.
   */
  lemma ReachExact(ns0: Tree, slots: nat, es: seq<Event>, e: Event, fs: seq<Event>)
    requires Closed(ns0) && ShortRun(es) && Proper(e) && ShortRun(fs) && Creates(Run(Mount(ns0, slots), es), e)
    ensures var s := Run(Mount(ns0, slots), es);
      var t := Replay(ns0, Run(Step(s, e), fs).log);
      && (Reached(t, e) <==>
          Short(e) && Completes(e) && |s.log| < slots && IsDir(Replay(ns0, s.log), Parent(Path(e))))
      && (!Reached(t, e) ==> Path(e) !in t || Stray(t, Path(e)))
      && Path(e) in Run(Step(s, e), fs).ns
  {
    var s := Run(Mount(ns0, slots), es);
    RunGrows(Mount(ns0, slots), es);
    NotYetPlayed(ns0, slots, es, Path(e));
    hide Run, Replay, ShortRun, Parent, Proper, Short, Completes, Closed;
    PlayedNow(ns0, s, e);
    DecidedNow(ns0, Step(s, e), fs, Path(e));
  }

  lemma {:induction false} LoggedPathsAreShort(s: State, es: seq<Event>)
    requires ShortLog(s.log)
    ensures ShortLog(Run(s, es).log)
    decreases |es|
  {
    if es != [] {
      LoggedPathsAreShort(s, es[..|es| - 1]);
      LogAfter(Run(s, es[..|es| - 1]), es[|es| - 1]);
      assert |PathOf(Entry(es[|es| - 1]))| < FAMFS_MAX_PATHLEN;
      hide Step, PathOf, Entry;
    }
  }

  /** What replay adds is no longer than what is logged. */
  lemma {:induction false} ReplayIsShort(ns: Tree, log: seq<LogEntry>, path: string)
    requires ShortLog(log) && path !in ns && |path| >= FAMFS_MAX_PATHLEN
    ensures path !in Replay(ns, log)
    decreases |log|
  {
    hide Parent, Playable, PathOf;
    if log != [] {
      var pre := log[..|log| - 1];
      assert forall i :: 0 <= i < |pre| ==> pre[i] == log[i];
      assert |PathOf(log[|log| - 1])| < FAMFS_MAX_PATHLEN;
      ReplayIsShort(ns, pre, path);
    }
  }

  /** A path of FAMFS_MAX_PATHLEN bytes or more: created locally, there from then on, and never with any client. */
  lemma LongPathsNeverReplay(ns0: Tree, slots: nat, es: seq<Event>, e: Event, fs: seq<Event>)
    requires Creates(Run(Mount(ns0, slots), es), e) && !Short(e)
    ensures var s := Run(Step(Run(Mount(ns0, slots), es), e), fs);
      Path(e) in s.ns && Path(e) !in Replay(ns0, s.log)
  {
    var s := Run(Mount(ns0, slots), es);
    RunGrows(Mount(ns0, slots), es);
    RunGrows(Step(s, e), fs);
    LoggedPathsAreShort(Mount(ns0, slots), es);
    assert [e][..0] == [];
    assert Run(s, [e]) == Step(s, e);
    LoggedPathsAreShort(s, [e]);
    LoggedPathsAreShort(Step(s, e), fs);
    hide Run, Replay, Completes, Entry, ShortLog;
    ReplayIsShort(ns0, Run(Step(s, e), fs).log, Path(e));
  }

  lemma {:induction false} RunConcat(s: State, es: seq<Event>, fs: seq<Event>)
    ensures Run(s, es + fs) == Run(Run(s, es), fs)
    decreases |fs|
  {
    hide Step;
    if fs == [] {
      assert es + fs == es;
    } else {
      assert (es + fs)[..|es + fs| - 1] == es + fs[..|fs| - 1];
      RunConcat(s, es, fs[..|fs| - 1]);
    }
  }

  /** A mkdir whose chown fails: the directory exists and is not logged. */
  predicate ChownFails(s: State, e: Event) {
    Creates(s, e) && e.Mkdir? && e.uid != 0 && e.gid != 0 && !e.chownOk && Proper(e)
  }

  /** After it, no continuation brings clients that directory, nor anything made in it. */
  lemma ChownFailureOrphans(ns0: Tree, slots: nat, es: seq<Event>, e: Event, fs: seq<Event>, path: string)
    requires Closed(ns0) && ShortRun(es) && ShortRun(fs) && ChownFails(Run(Mount(ns0, slots), es), e)
    requires path !in ns0 && Parent(path) == e.path
    ensures var s := Run(Step(Run(Mount(ns0, slots), es), e), fs);
      IsDir(s.ns, e.path) && !IsDir(Replay(ns0, s.log), e.path) && path !in Replay(ns0, s.log)
  {
    var s := Run(Step(Run(Mount(ns0, slots), es), e), fs);
    ReachExact(ns0, slots, es, e, fs);
    RunGrows(Step(Run(Mount(ns0, slots), es), e), fs);
    hide Run, Replay, Parent, ShortRun, Closed, Proper;
    if path in Replay(ns0, s.log) {
      NewUnderDir(ns0, s.log, path);
      assert false;
    }
  }

  /**
   Instead, if clients have its parent, they come to have a file under its name, exactly if a file
   below the directory is logged.
   */
  lemma OrphanNameTaken(ns0: Tree, slots: nat, es: seq<Event>, e: Event, fs: seq<Event>)
    requires Closed(ns0) && ShortRun(es) && ShortRun(fs) && ChownFails(Run(Mount(ns0, slots), es), e)
    requires IsDir(Replay(ns0, Run(Mount(ns0, slots), es).log), Parent(e.path))
    ensures var s := Run(Mount(ns0, slots), es);
      var log := Run(Step(s, e), fs).log;
      Stray(Replay(ns0, log), e.path) <==> exists i :: |s.log| <= i < |log| && FileUnder(e.path, log[i])
  {
    hide Run, Replay, Parent, ShortRun, Playable, FileUnder, InLog, Stray, Proper;
    var s := Run(Mount(ns0, slots), es);
    var u := Run(Step(s, e), fs);
    ReachExact(ns0, slots, es, e, fs);
    NotYetPlayed(ns0, slots, es, e.path);
    NotLoggedAgain(Step(s, e), fs, e.path);
    AllPlayable(ns0, slots, es, e, fs);
    NotReachedYet(Replay(ns0, u.log), s, e);
    hide Step, Creates, Completes, Entry, Reached;
    var later := u.log[|s.log|..];
    assert u.log == s.log + later;
    ReplayConcat(ns0, s.log, later);
    ReplayRooted(ns0, s.log);
    NameTaken(Replay(ns0, s.log), later, e.path);
    LaterIndex(u.log, |s.log|, e.path);
  }

  lemma NotReachedYet(t: Tree, s: State, e: Event)
    requires ChownFails(s, e)
    ensures Step(s, e).log == s.log && !Completes(e) && (Stray(t, e.path) ==> e.path in t)
  {
    hide Parent, Entry, Proper;
  }

  /** The chown of a new directory fails, a file in it is logged: clients have that file under the directory's name. */
  lemma StrayAt(ns0: Tree, d: string, fm: FileMeta)
    requires IsDir(ns0, Parent(d)) && d !in ns0 && Parent(fm.path) == d && fm.path !in ns0
    requires d != "" && Proper(Mkfile(fm, Done)) && |fm.path| < FAMFS_MAX_PATHLEN
    ensures var s := Run(Mount(ns0, 2), [Mkdir(d, 0, 1, 1, true, false), Mkfile(fm, Done)]);
      IsDir(s.ns, d) && s.log == [LogFile(fm)] && Replay(ns0, s.log) == ns0[d := File(fm)]
  {
    var e, f := Mkdir(d, 0, 1, 1, true, false), Mkfile(fm, Done);
    hide Parent, ZeroOffset;
    assert [e, f][..1] == [e] && [e][..0] == [];
    var s := State(ns0[d := Dir(0, 1, 1)], [], 2);
    assert Step(Mount(ns0, 2), e) == s;
    assert Run(Mount(ns0, 2), [e]) == s;
    assert Step(s, f).log == [LogFile(fm)];
    assert FirstMissing(ns0, fm.path) == FirstMissing(ns0, d) == d;
    assert [LogFile(fm)][..0] == [];
    assert Replay(ns0, [LogFile(fm)]) == Play(ns0, LogFile(fm));
  }

  /** For example "d" and "d/f". */
  lemma StrayHappens()
    ensures var fm := FileMeta("d/f", 1, 0, 0, 0, 0, Simple([Extent(0, 8, 1)]));
      var s := Run(Mount(map["" := Dir(0, 0, 0)], 2), [Mkdir("d", 0, 1, 1, true, false), Mkfile(fm, Done)]);
      && IsDir(s.ns, "d") && s.log == [LogFile(fm)]
      && Replay(map["" := Dir(0, 0, 0)], s.log) == map["" := Dir(0, 0, 0), "d" := File(fm)]
  {
    hide Run, Replay;
    var ns0: Tree := map["" := Dir(0, 0, 0)];
    var fm := FileMeta("d/f", 1, 0, 0, 0, 0, Simple([Extent(0, 8, 1)]));
    assert "d/f"[..2] == "d/" && "d/"[..1] == "d" && "d"[..0] == "";
    assert Parent("d/") == "d" && Parent("d/f") == "d" && Parent("d") == "";
    StrayAt(ns0, "d", fm);
    assert ns0["d" := File(fm)] == map["" := Dir(0, 0, 0), "d" := File(fm)];
  }

  lemma LaterIndex(log: seq<LogEntry>, k: nat, p: string)
    requires k <= |log|
    ensures (exists i :: 0 <= i < |log[k..]| && FileUnder(p, log[k..][i])) <==>
            exists i :: k <= i < |log| && FileUnder(p, log[i])
  {
    hide FileUnder;
    if i :| k <= i < |log| && FileUnder(p, log[i]) {
      assert log[k..][i - k] == log[i];
    }
  }

  lemma AllPlayable(ns0: Tree, slots: nat, es: seq<Event>, e: Event, fs: seq<Event>)
    requires Closed(ns0) && ShortRun(es) && ShortRun(fs) && Proper(e)
    ensures var log := Run(Step(Run(Mount(ns0, slots), es), e), fs).log;
      forall i :: 0 <= i < |log| ==> Playable(log[i])
  {
    RunConcat(Mount(ns0, slots), es + [e], fs);
    assert (es + [e])[..|es|] == es;
    assert Run(Mount(ns0, slots), es + [e]) == Step(Run(Mount(ns0, slots), es), e);
    hide Run, Step, Proper, Short, Playable;
    RunInv(ns0, slots, es + [e] + fs);
  }

  // ---------- calm runs ----------

  /** No path is cut short, and no chown fails after its mkdir. */
  predicate Calm(e: Event) {
    Short(e) && (e.Mkdir? ==> Completes(e))
  }

  ghost predicate CalmRun(es: seq<Event>) {
    forall i :: 0 <= i < |es| ==> Proper(es[i]) && Calm(es[i])
  }

  ghost predicate SameDirs(ns: Tree, t: Tree) {
    forall p :: IsDir(ns, p) ==> IsDir(t, p)
  }

  lemma SameDirsNext(ns: Tree, t: Tree, path: string, node: Node)
    requires SameDirs(ns, t)
    ensures SameDirs(ns[path := node], t[path := node])
    ensures node.File? ==> SameDirs(ns[path := node], t)
  {
    var ns', t' := ns[path := node], t[path := node];
    forall p | IsDir(ns', p)
      ensures IsDir(t', p) && (node.File? ==> IsDir(t, p))
    {
      if p != path {
        assert IsDir(ns, p);
      }
    }
    assert SameDirs(ns', t');
  }

  /** Every logged entry takes effect, and clients have every directory as long as slots are left. */
  ghost predicate CalmInv(ns0: Tree, s: State) {
    && Extends(ns0, s.ns) && AllLocal(s) && Smooth(ns0, s.log)
    && (|s.log| < s.slots ==> SameDirs(s.ns, Replay(ns0, s.log)))
  }

  lemma SmoothNext(ns: Tree, log: seq<LogEntry>, e: LogEntry)
    requires Smooth(ns, log) && Lands(Replay(ns, log), e)
    ensures Smooth(ns, log + [e])
  {
    hide Lands, Replay;
    var more := log + [e];
    assert more[..|log|] == log;
    assert forall i :: 0 <= i < |log| ==> more[i] == log[i] && more[..i] == log[..i];
  }

  lemma CalmTakes(ns0: Tree, s: State, e: Event)
    requires CalmInv(ns0, s) && Proper(e) && Calm(e) && Creates(s, e) && |s.log| < s.slots
    ensures Lands(Replay(ns0, s.log), Entry(e)) && PathOf(Entry(e)) == Path(e) && NodeOf(Entry(e)) == NewNode(e)
  {
    WholePath(e);
    assert !InLog(s.log, Path(e));
    hide Parent, ZeroOffset, Smooth, Replay, PathOf;
    SmoothOnlyLogged(ns0, s.log, Path(e));
  }

  lemma CalmPlays(ns0: Tree, s: State, e: Event)
    requires CalmInv(ns0, s) && Proper(e) && Calm(e) && Creates(s, e) && Completes(e) && |s.log| < s.slots
    ensures Replay(ns0, Step(s, e).log) == Replay(ns0, s.log)[Path(e) := NewNode(e)]
    ensures Smooth(ns0, Step(s, e).log)
  {
    CalmTakes(ns0, s, e);
    SmoothNext(ns0, s.log, Entry(e));
    hide Proper, Calm, Completes, Entry, Smooth, AllLocal, Lands, Strays;
    assert (s.log + [Entry(e)])[..|s.log|] == s.log;
  }

  lemma CalmDirs(ns0: Tree, s: State, e: Event)
    requires CalmInv(ns0, s) && Proper(e) && Calm(e) && Creates(s, e) && |Step(s, e).log| < s.slots
    ensures SameDirs(Step(s, e).ns, Replay(ns0, Step(s, e).log))
  {
    hide Proper, AllLocal, Smooth, Replay, Parent, SameDirs, Entry;
    SameDirsNext(s.ns, Replay(ns0, s.log), Path(e), NewNode(e));
    if Completes(e) {
      CalmPlays(ns0, s, e);
    }
  }

  lemma CalmSmooth(ns0: Tree, s: State, e: Event)
    requires CalmInv(ns0, s) && Proper(e) && Calm(e)
    ensures Smooth(ns0, Step(s, e).log)
  {
    hide Proper, Calm, AllLocal, Smooth, Replay, SameDirs, Entry;
    if Creates(s, e) && Completes(e) && |s.log| < s.slots {
      CalmPlays(ns0, s, e);
    }
  }

  lemma StepExtends(ns0: Tree, s: State, e: Event)
    requires Extends(ns0, s.ns)
    ensures Extends(ns0, Step(s, e).ns)
  {
    hide Parent, Completes;
  }

  lemma CalmStep(ns0: Tree, s: State, e: Event)
    requires CalmInv(ns0, s) && Proper(e) && Calm(e)
    ensures CalmInv(ns0, Step(s, e))
  {
    AllLocalNext(s, e);
    CalmSmooth(ns0, s, e);
    StepExtends(ns0, s, e);
    if Creates(s, e) && |Step(s, e).log| < s.slots {
      CalmDirs(ns0, s, e);
    }
    hide Proper, Calm, AllLocal, Smooth, Replay, SameDirs, Extends, Creates, Completes;
  }

  lemma {:induction false} CalmRunInv(ns0: Tree, slots: nat, es: seq<Event>)
    requires CalmRun(es)
    ensures CalmInv(ns0, Run(Mount(ns0, slots), es))
    decreases |es|
  {
    hide Step, Proper, Calm;
    if es != [] {
      CalmRunInv(ns0, slots, es[..|es| - 1]);
      hide CalmInv;
      CalmStep(ns0, Run(Mount(ns0, slots), es[..|es| - 1]), es[|es| - 1]);
    }
  }

  /** Over every calm run, failed files and a full log included, replay adds exactly one node per logged entry. */
  lemma CalmLogBuilds(ns0: Tree, slots: nat, es: seq<Event>)
    requires CalmRun(es)
    ensures var log := Run(Mount(ns0, slots), es).log;
      var t := Replay(ns0, log);
      && |t| == |ns0| + |log| && Extends(ns0, t)
      && forall i :: 0 <= i < |log| ==> Has(t, log[i])
  {
    CalmRunInv(ns0, slots, es);
    hide Run, Replay, Smooth;
    ReplayBuilds(ns0, Run(Mount(ns0, slots), es).log);
    ReplayGrows(ns0, Run(Mount(ns0, slots), es).log);
  }

  /** After a calm run and before a calm continuation, a new path reaches clients if and only if it was logged whole. */
  lemma CalmReach(ns0: Tree, slots: nat, es: seq<Event>, e: Event, fs: seq<Event>)
    requires Closed(ns0) && CalmRun(es) && Proper(e) && CalmRun(fs) && Creates(Run(Mount(ns0, slots), es), e)
    ensures var s := Run(Mount(ns0, slots), es);
      Reached(Replay(ns0, Run(Step(s, e), fs).log), e) <==> Short(e) && Completes(e) && |s.log| < slots
  {
    CalmRunInv(ns0, slots, es);
    RunGrows(Mount(ns0, slots), es);
    hide Run, Replay, Step, Proper, Completes, Smooth, Parent, Closed;
    ReachExact(ns0, slots, es, e, fs);
  }
}
