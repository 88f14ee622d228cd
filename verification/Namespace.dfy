/** Replay of the log into a name space (src/famfs_lib.c). */
module Namespace {
  import opened Meta

  datatype Node = Dir(mode: nat, uid: nat, gid: nat) | File(fm: FileMeta)

  /** Relative paths, "" for the mount point. */
  type Tree = map<string, Node>

  /** Everything before the last '/', or "" if there is none. */
  function Parent(path: string): (r: string)
    ensures path != "" ==> |r| < |path|
  {
    if path == "" then ""
    else if path[|path| - 1] == '/' then path[..|path| - 1]
    else Parent(path[..|path| - 1])
  }

  predicate IsDir(ns: Tree, path: string) {
    path in ns && ns[path].Dir?
  }

  /** famfs_log_entry_fc_path_is_relative, famfs_log_entry_md_path_is_relative */
  predicate Relative(path: string) {
    |path| >= 1 && path[0] != '/'
  }

  predicate Slashed(path: string) {
    path != "" && path[|path| - 1] == '/'
  }

  /** Without slashes at the end. */
  function Trim(path: string): (r: string)
    ensures |r| <= |path| && r == path[..|r|] && !Slashed(r)
    ensures Relative(path) ==> Relative(r)
  {
    if Slashed(path) then Trim(path[..|path| - 1]) else path
  }

  /** mkdir ignores slashes at the end. */
  function PathOf(e: LogEntry): string {
    match e
    case LogFile(fm) => fm.path
    case LogMkdir(path, _, _, _) => Trim(path)
    case LogOther => ""
  }

  function NodeOf(e: LogEntry): Node {
    match e
    case LogFile(fm) => File(fm)
    case LogMkdir(_, mode, uid, gid) => Dir(mode, uid, gid)
    case LogOther => Dir(0, 0, 0)
  }

  /**
   The extents that logplay checks for offset 0. The check reads the union as simple extents;
   of an interleaved map it sees one extent, whose offset field is the chunk size.
   */
  predicate ZeroOffset(fmap: Fmap) {
    match fmap
    case Simple(exts) => exists i :: 0 <= i < |exts| && exts[i].offset == 0
    case Interleaved(chunkSize, _) => chunkSize == 0
  }

  /** Entries that logplay does not skip out of hand. */
  predicate Playable(e: LogEntry) {
    match e
    case LogFile(fm) => Relative(fm.path) && !ZeroOffset(fm.fmap)
    case LogMkdir(path, _, _, _) => Relative(path)
    case LogOther => false
  }

  /** The entry takes effect under its own path: that is new and can name a file, and its parent is a directory. */
  predicate Lands(ns: Tree, e: LogEntry) {
    Playable(e) && PathOf(e) !in ns && !Slashed(PathOf(e)) && IsDir(ns, Parent(PathOf(e)))
  }

  /** The first component of a path that does not exist, from the top. */
  function FirstMissing(ns: Tree, path: string): (r: string)
    ensures |r| <= |path| && (path != "" && Parent(path) !in ns ==> |r| < |path|)
    ensures path !in ns ==> r !in ns
    decreases |path|
  {
    if path == "" || Parent(path) in ns then path else FirstMissing(ns, Parent(path))
  }

  /**
   The parent of a file is missing. What realpath then leaves in its buffer is the path of the
   first missing component, and that is where the file is created.
   */
  predicate Strays(ns: Tree, e: LogEntry) {
    && Playable(e) && e.LogFile? && PathOf(e) !in ns && Parent(PathOf(e)) !in ns
    && IsDir(ns, Parent(FirstMissing(ns, PathOf(e))))
  }

  predicate Takes(ns: Tree, e: LogEntry) {
    Lands(ns, e) || Strays(ns, e)
  }

  /** One round of the loop of __famfs_logplay. */
  function Play(ns: Tree, e: LogEntry): Tree {
    if Lands(ns, e) then ns[PathOf(e) := NodeOf(e)]
    else if Strays(ns, e) then ns[FirstMissing(ns, PathOf(e)) := NodeOf(e)]
    else ns
  }

  function Replay(ns: Tree, log: seq<LogEntry>): Tree {
    if log == [] then ns else Play(Replay(ns, log[..|log| - 1]), log[|log| - 1])
  }

  // ---------- what one entry does, written out ----------

  /** A path that is a directory, a slash and a name has that directory as parent. */
  lemma {:induction false} ParentOf(dir: string, name: string)
    requires name != "" && '/' !in name
    ensures Parent(dir + "/" + name) == dir && Parent(name) == ""
    decreases |name|
  {
    var path, short := dir + "/" + name, name[..|name| - 1];
    assert path[|path| - 1] == name[|name| - 1] && path[..|path| - 1] == dir + "/" + short;
    if short == "" {
      assert dir + "/" + short == dir + "/" && (dir + "/")[..|dir|] == dir;
    } else {
      ParentOf(dir, short);
    }
  }

  /** The extents are not refused: no simple extent at offset 0, no interleaved map with chunk size 0. */
  predicate Acceptable(fmap: Fmap) {
    match fmap
    case Simple(exts) => forall e :: e in exts ==> e.offset > 0
    case Interleaved(chunkSize, _) => chunkSize > 0
  }

  /** A file whose parent exists: created, with its metadata, exactly if this is all in order; else nothing. */
  lemma FileEntryExact(ns: Tree, fm: FileMeta)
    requires Parent(fm.path) in ns
    ensures Play(ns, LogFile(fm)) ==
      if && |fm.path| > 0 && fm.path[0] != '/' && fm.path[|fm.path| - 1] != '/' && fm.path !in ns
         && ns[Parent(fm.path)].Dir? && Acceptable(fm.fmap)
      then ns[fm.path := File(fm)] else ns
  {
    hide Parent;
    assert ZeroOffset(fm.fmap) <==> !Acceptable(fm.fmap) by {
      AcceptableExact(fm.fmap);
    }
  }

  lemma AcceptableExact(fmap: Fmap)
    ensures ZeroOffset(fmap) <==> !Acceptable(fmap)
  {
    if fmap.Simple? {
      assert forall e :: e in fmap.exts <==> exists i :: 0 <= i < |fmap.exts| && fmap.exts[i] == e;
    }
  }

  /** A directory: created, with its mode and owners, exactly if its path is relative and new and its parent is one. */
  lemma MkdirEntryExact(ns: Tree, path: string, mode: nat, uid: nat, gid: nat)
    requires path == "" || path[|path| - 1] != '/'
    ensures Play(ns, LogMkdir(path, mode, uid, gid)) ==
      if |path| > 0 && path[0] != '/' && path !in ns && Parent(path) in ns && ns[Parent(path)].Dir?
      then ns[path := Dir(mode, uid, gid)] else ns
  {
    hide Parent;
  }

  lemma {:induction false} ReplayConcat(ns: Tree, log: seq<LogEntry>, more: seq<LogEntry>)
    ensures Replay(ns, log + more) == Replay(Replay(ns, log), more)
    decreases |more|
  {
    if more == [] {
      assert log + more == log;
    } else {
      assert (log + more)[..|log + more| - 1] == log + more[..|more| - 1];
      ReplayConcat(ns, log, more[..|more| - 1]);
    }
  }

  // ---------- what replay keeps and adds ----------

  ghost predicate Extends(ns: Tree, more: Tree) {
    forall p :: p in ns ==> p in more && more[p] == ns[p]
  }

  /** Replay keeps what is there. */
  lemma {:induction false} ReplayGrows(ns: Tree, log: seq<LogEntry>)
    ensures Extends(ns, Replay(ns, log))
    decreases |log|
  {
    hide Parent, Playable;
    if log != [] {
      ReplayGrows(ns, log[..|log| - 1]);
    }
  }

  lemma PrefixGrows(ns: Tree, log: seq<LogEntry>, k: nat)
    requires k <= |log|
    ensures Extends(Replay(ns, log[..k]), Replay(ns, log))
  {
    assert log == log[..k] + log[k..];
    ReplayConcat(ns, log[..k], log[k..]);
    ReplayGrows(Replay(ns, log[..k]), log[k..]);
  }

  predicate InLog(log: seq<LogEntry>, path: string) {
    exists i :: 0 <= i < |log| && PathOf(log[i]) == path
  }

  /** A file under a name that is not its own. */
  predicate Stray(ns: Tree, path: string) {
    path in ns && ns[path].File? && ns[path].fm.path != path
  }

  /** Replay adds only what is in the log, and strays. */
  lemma {:induction false} ReplayOnlyLogged(ns: Tree, log: seq<LogEntry>, path: string)
    requires path !in ns && !InLog(log, path)
    ensures path !in Replay(ns, log) || Stray(Replay(ns, log), path)
    decreases |log|
  {
    hide Parent;
    if log != [] {
      var pre := log[..|log| - 1];
      assert forall i :: 0 <= i < |pre| ==> pre[i] == log[i];
      assert PathOf(log[|log| - 1]) != path;
      ReplayOnlyLogged(ns, pre, path);
    }
  }

  /** Every entry takes effect under its own path when its turn comes. */
  ghost predicate Smooth(ns: Tree, log: seq<LogEntry>) {
    forall i :: 0 <= i < |log| ==> Lands(Replay(ns, log[..i]), log[i])
  }

  lemma SmoothPrefix(ns: Tree, log: seq<LogEntry>)
    requires log != [] && Smooth(ns, log)
    ensures Smooth(ns, log[..|log| - 1])
  {
    hide Lands, Replay;
    var pre := log[..|log| - 1];
    assert forall i :: 0 <= i < |pre| ==> pre[i] == log[i] && pre[..i] == log[..i];
  }

  lemma SmoothLast(ns: Tree, log: seq<LogEntry>)
    requires log != [] && Smooth(ns, log)
    ensures var k := |log| - 1;
      var t := Replay(ns, log[..k]);
      PathOf(log[k]) !in t && Replay(ns, log) == t[PathOf(log[k]) := NodeOf(log[k])]
  {
    var k := |log| - 1;
    assert Lands(Replay(ns, log[..k]), log[k]);
    hide Smooth, Parent, Playable, NodeOf, PathOf;
  }

  lemma OneMore(ns: Tree, path: string, node: Node)
    requires path !in ns
    ensures |ns[path := node]| == |ns| + 1
  {
    assert ns[path := node].Keys == ns.Keys + {path};
  }

  predicate Has(ns: Tree, e: LogEntry) {
    PathOf(e) in ns && ns[PathOf(e)] == NodeOf(e)
  }

  lemma {:induction false} SmoothCount(ns: Tree, log: seq<LogEntry>)
    requires Smooth(ns, log)
    ensures |Replay(ns, log)| == |ns| + |log|
    decreases |log|
  {
    if log != [] {
      var k := |log| - 1;
      SmoothPrefix(ns, log);
      SmoothLast(ns, log);
      SmoothCount(ns, log[..k]);
      hide Smooth, Replay, NodeOf, PathOf;
      OneMore(Replay(ns, log[..k]), PathOf(log[k]), NodeOf(log[k]));
    }
  }

  lemma {:induction false} SmoothHas(ns: Tree, log: seq<LogEntry>, i: nat)
    requires Smooth(ns, log) && i < |log|
    ensures Has(Replay(ns, log), log[i])
    decreases |log|
  {
    hide Smooth, Replay, NodeOf, PathOf;
    var k := |log| - 1;
    SmoothPrefix(ns, log);
    SmoothLast(ns, log);
    if i < k {
      SmoothHas(ns, log[..k], i);
    }
  }

  /** Replay of a smooth log adds exactly one node per entry, that of the entry. */
  lemma ReplayBuilds(ns: Tree, log: seq<LogEntry>)
    requires Smooth(ns, log)
    ensures |Replay(ns, log)| == |ns| + |log|
    ensures forall i :: 0 <= i < |log| ==> Has(Replay(ns, log), log[i])
  {
    hide Smooth, Replay, Has;
    SmoothCount(ns, log);
    forall i | 0 <= i < |log|
      ensures Has(Replay(ns, log), log[i])
    {
      SmoothHas(ns, log, i);
    }
  }

  /** Replay of a smooth log adds nothing else. */
  lemma {:induction false} SmoothOnlyLogged(ns: Tree, log: seq<LogEntry>, path: string)
    requires Smooth(ns, log) && path !in ns && !InLog(log, path)
    ensures path !in Replay(ns, log)
    decreases |log|
  {
    if log != [] {
      var k := |log| - 1;
      var pre := log[..k];
      SmoothPrefix(ns, log);
      SmoothLast(ns, log);
      hide Smooth, Replay, NodeOf, PathOf;
      assert forall i :: 0 <= i < |pre| ==> pre[i] == log[i];
      assert PathOf(log[k]) != path;
      SmoothOnlyLogged(ns, pre, path);
    }
  }

  // ---------- where strays land ----------

  /** With every path goes its parent. */
  ghost predicate Rooted(ns: Tree) {
    forall p :: p in ns ==> Parent(p) in ns
  }

  lemma {:induction false} ReplayRooted(ns: Tree, log: seq<LogEntry>)
    requires Rooted(ns)
    ensures Rooted(Replay(ns, log))
    decreases |log|
  {
    hide Parent, Play;
    if log != [] {
      var pre := log[..|log| - 1];
      ReplayRooted(ns, pre);
      PlayAdds(Replay(ns, pre), log[|log| - 1]);
    }
  }

  /** `q` lies below `p`. */
  predicate Under(p: string, q: string)
    decreases |q|
  {
    q != "" && (Parent(q) == p || Under(p, Parent(q)))
  }

  /** What is missing first is the path itself or above it. */
  lemma {:induction false} MissingAbove(ns: Tree, q: string)
    ensures var r := FirstMissing(ns, q); r == q || Under(r, q)
    decreases |q|
  {
    if q != "" && Parent(q) !in ns {
      MissingAbove(ns, Parent(q));
    }
  }

  lemma {:induction false} MissingBelow(ns: Tree, p: string, q: string)
    requires Rooted(ns) && p !in ns && Under(p, q)
    ensures q !in ns && Parent(q) !in ns
    decreases |q|
  {
    if Parent(q) != p {
      MissingBelow(ns, p, Parent(q));
    }
  }

  lemma {:induction false} MissingIs(ns: Tree, p: string, q: string)
    requires Rooted(ns) && p !in ns && Parent(p) in ns && Under(p, q)
    ensures FirstMissing(ns, q) == p
    decreases |q|
  {
    MissingBelow(ns, p, q);
    if Parent(q) != p {
      MissingIs(ns, p, Parent(q));
    }
  }

  predicate FileUnder(p: string, e: LogEntry) {
    e.LogFile? && Under(p, PathOf(e))
  }

  /** One round puts something under a missing path that is not its own exactly if a file below it strays. */
  lemma TakenNext(t: Tree, e: LogEntry, p: string)
    requires Rooted(t) && p !in t && IsDir(t, Parent(p)) && Playable(e) && PathOf(e) != p
    ensures p in Play(t, e) <==> FileUnder(p, e)
  {
    if FileUnder(p, e) {
      MissingBelow(t, p, PathOf(e));
      MissingIs(t, p, PathOf(e));
    } else if Strays(t, e) {
      MissingAbove(t, PathOf(e));
    }
    hide Parent, ZeroOffset;
  }

  /** A missing directory that is not logged comes to exist, as a file, exactly if a file below it is logged. */
  lemma {:induction false} NameTaken(ns: Tree, log: seq<LogEntry>, p: string)
    requires Rooted(ns) && p !in ns && IsDir(ns, Parent(p)) && !InLog(log, p)
    requires forall i :: 0 <= i < |log| ==> Playable(log[i])
    ensures p in Replay(ns, log) <==> exists i :: 0 <= i < |log| && FileUnder(p, log[i])
    decreases |log|
  {
    hide Parent, Playable, FileUnder, Play;
    if log != [] {
      var k := |log| - 1;
      var pre, t := log[..k], Replay(ns, log[..k]);
      assert forall i :: 0 <= i < k ==> pre[i] == log[i];
      assert !InLog(pre, p);
      NameTaken(ns, pre, p);
      ReplayRooted(ns, pre);
      ReplayGrows(ns, pre);
      PlayAdds(t, log[k]);
      if p !in t {
        TakenNext(t, log[k], p);
      }
      assert (exists i :: 0 <= i < |log| && FileUnder(p, log[i])) <==>
             ((exists i :: 0 <= i < k && FileUnder(p, pre[i])) || FileUnder(p, log[k]));
    }
  }

  /** Every new node is under a directory. */
  lemma {:induction false} NewUnderDir(ns: Tree, log: seq<LogEntry>, p: string)
    requires p !in ns && p in Replay(ns, log)
    ensures IsDir(Replay(ns, log), Parent(p))
    decreases |log|
  {
    hide Parent, Play;
    if log != [] {
      var pre := log[..|log| - 1];
      PlayAdds(Replay(ns, pre), log[|log| - 1]);
      if p in Replay(ns, pre) {
        NewUnderDir(ns, pre, p);
      }
    }
  }

  /** Where strays land exists in every rooted name space that has the path. */
  lemma {:induction false} MissingInside(t: Tree, ns: Tree, path: string)
    requires Rooted(ns) && path in ns
    ensures FirstMissing(t, path) in ns
    decreases |path|
  {
    if path != "" && Parent(path) !in t {
      MissingInside(t, ns, Parent(path));
    }
  }

  /** Replay stays inside every rooted name space that has all the paths. */
  lemma {:induction false} ReplayInside(ns: Tree, log: seq<LogEntry>, more: Tree)
    requires Rooted(more) && Extends(ns, more) && forall i :: 0 <= i < |log| ==> PathOf(log[i]) in more
    ensures forall p :: p in Replay(ns, log) ==> p in more
    decreases |log|
  {
    hide Parent, Playable;
    if log != [] {
      var pre := log[..|log| - 1];
      assert forall i :: 0 <= i < |pre| ==> pre[i] == log[i];
      ReplayInside(ns, pre, more);
      MissingInside(Replay(ns, pre), more, PathOf(log[|log| - 1]));
    }
  }

  // ---------- replaying again ----------

  /** No entry makes the parent of an earlier directory. */
  ghost predicate NoLateParent(log: seq<LogEntry>) {
    forall i, j :: 0 <= i < j < |log| && LateMkdir(log[i], log[j]) ==> PathOf(log[j]) != Parent(PathOf(log[i]))
  }

  predicate LateMkdir(e: LogEntry, f: LogEntry) {
    e.LogMkdir? && f.LogMkdir? && Playable(e) && Playable(f)
  }

  /** A new directory is a logged one. */
  lemma NewDir(t: Tree, e: LogEntry, path: string)
    requires IsDir(Play(t, e), path) && !IsDir(t, path)
    ensures e.LogMkdir? && PathOf(e) == path && Lands(t, e)
  {
    hide Parent, ZeroOffset;
  }

  /** A parent that was missing in the round of entry `i` is still missing later. */
  lemma {:induction false} StillMissing(ns: Tree, log: seq<LogEntry>, i: nat, k: nat)
    requires NoLateParent(log) && i < k <= |log| && Playable(log[i]) && log[i].LogMkdir?
    requires !IsDir(Replay(ns, log[..i]), Parent(PathOf(log[i])))
    ensures !IsDir(Replay(ns, log[..k]), Parent(PathOf(log[i])))
    decreases k
  {
    assert Relative(PathOf(log[i]));
    var parent := Parent(PathOf(log[i]));
    assert PathOf(log[i]) != parent;
    hide Parent, Playable, Play, NodeOf;
    assert log[..k][..k - 1] == log[..k - 1];
    if i < k - 1 {
      StillMissing(ns, log, i, k - 1);
    }
    if IsDir(Replay(ns, log[..k]), parent) {
      NewDir(Replay(ns, log[..k - 1]), log[k - 1], parent);
      assert false;
    }
  }

  /** Nothing more can be made at the path or above it: what exists above it is not a directory. */
  predicate Stuck(t: Tree, path: string) {
    path !in t && !IsDir(t, Parent(FirstMissing(t, path)))
  }

  lemma {:induction false} StuckStays(t: Tree, e: LogEntry, path: string)
    requires Stuck(t, path)
    ensures Stuck(Play(t, e), path)
    decreases |path|
  {
    if path != "" && Parent(path) !in t {
      StuckStays(t, e, Parent(path));
    }
    PlayAdds(t, e);
    hide Parent, Play;
  }

  /** A round adds at most one node, new and under a directory. */
  lemma PlayAdds(t: Tree, e: LogEntry)
    ensures Extends(t, Play(t, e))
    ensures forall p :: p in Play(t, e) && p !in t ==> IsDir(t, Parent(p))
  {
    hide Parent, Playable;
  }

  /** A stray file blocks its own path. */
  lemma {:induction false} StrayBlocks(t: Tree, path: string, node: Node)
    requires path != "" && path !in t && Parent(path) !in t && node.File?
    ensures Stuck(t[FirstMissing(t, path) := node], path)
    decreases |path|
  {
    var parent := Parent(path);
    if parent != "" && Parent(parent) !in t {
      StrayBlocks(t, parent, node);
    }
    hide Parent;
  }

  /** Nothing more comes of a file: it exists or is stuck, or its path names a directory that exists. */
  predicate Settled(t: Tree, e: LogEntry) {
    PathOf(e) in t || Stuck(t, PathOf(e)) || (Slashed(PathOf(e)) && Parent(PathOf(e)) in t)
  }

  lemma FileSettles(t: Tree, e: LogEntry)
    requires Playable(e) && e.LogFile?
    ensures Settled(Play(t, e), e)
  {
    if Strays(t, e) {
      StrayBlocks(t, PathOf(e), NodeOf(e));
    }
    hide Parent, ZeroOffset;
  }

  lemma {:induction false} StaysSettled(ns: Tree, log: seq<LogEntry>, i: nat, k: nat)
    requires i < k <= |log| && Playable(log[i]) && log[i].LogFile?
    ensures Settled(Replay(ns, log[..k]), log[i])
    decreases k
  {
    hide Playable, Play, Stuck, Parent;
    var t := Replay(ns, log[..k - 1]);
    assert log[..k][..k - 1] == log[..k - 1];
    if i == k - 1 {
      FileSettles(t, log[i]);
    } else {
      StaysSettled(ns, log, i, k - 1);
      PlayAdds(t, log[k - 1]);
      if Stuck(t, PathOf(log[i])) {
        StuckStays(t, log[k - 1], PathOf(log[i]));
      }
    }
  }

  lemma SettledIsIdle(t: Tree, e: LogEntry)
    requires Settled(t, e) && e.LogFile?
    ensures !Takes(t, e)
  {
    hide Parent, Playable;
  }

  /** A directory that did not land in its round does not land later either. */
  lemma MkdirAgain(ns: Tree, log: seq<LogEntry>, i: nat, k: nat)
    requires NoLateParent(log) && i < k <= |log| && log[i].LogMkdir?
    ensures !Takes(Replay(ns, log[..k]), log[i])
  {
    hide Parent, Playable, NoLateParent;
    var t := Replay(ns, log[..k]);
    if Lands(t, log[i]) {
      var now, next := log[..i], log[..i + 1];
      assert next[..i] == now && log[..k][..i + 1] == next;
      PrefixGrows(ns, log[..k], i + 1);
      assert !Lands(Replay(ns, now), log[i]);
      StillMissing(ns, log, i, k);
      assert false;
    }
  }

  /** Playing an entry again changes nothing. */
  lemma PlayAgain(ns: Tree, log: seq<LogEntry>, i: nat, k: nat)
    requires NoLateParent(log) && i < k <= |log|
    ensures Play(Replay(ns, log[..k]), log[i]) == Replay(ns, log[..k])
  {
    hide Replay, NoLateParent, Parent;
    if log[i].LogMkdir? {
      MkdirAgain(ns, log, i, k);
    } else if Playable(log[i]) {
      StaysSettled(ns, log, i, k);
      SettledIsIdle(Replay(ns, log[..k]), log[i]);
    }
  }

  /** Replaying a prefix and later any prefix, longer or shorter, equals replaying the longer one once. */
  lemma {:induction false} ReplayIncremental(ns: Tree, log: seq<LogEntry>, k: nat, m: nat)
    requires NoLateParent(log) && k <= |log| && m <= |log|
    ensures Replay(Replay(ns, log[..k]), log[..m]) == Replay(ns, log[..if m <= k then k else m])
    decreases m
  {
    hide Play, NoLateParent;
    if m > 0 {
      ReplayIncremental(ns, log, k, m - 1);
      assert log[..m][..m - 1] == log[..m - 1];
      if m <= k {
        PlayAgain(ns, log, m - 1, k);
      }
    }
  }

  lemma {:induction false} ReplaySame(t: Tree, log: seq<LogEntry>)
    requires forall i :: 0 <= i < |log| ==> Play(t, log[i]) == t
    ensures Replay(t, log) == t
    decreases |log|
  {
    hide Play;
    if log != [] {
      ReplaySame(t, log[..|log| - 1]);
    }
  }

  /** Entry `i` finds in what the first replay leaves what it did not find in its round. */
  ghost predicate Waiting(ns: Tree, log: seq<LogEntry>, i: int) {
    0 <= i < |log| && Takes(Replay(ns, log), log[i])
  }

  /** Entry `j` brings the parent of the earlier directory `i` after its turn. */
  ghost predicate Late(ns: Tree, log: seq<LogEntry>, i: int, j: int) {
    && 0 <= i < j < |log| && log[i].LogMkdir? && log[j].LogMkdir? && Playable(log[i])
    && PathOf(log[j]) == Parent(PathOf(log[i])) && Lands(Replay(ns, log[..j]), log[j])
  }

  /** For any log: a second replay changes nothing exactly when no entry is left waiting for a late parent. */
  lemma ReplayTwiceExact(ns: Tree, log: seq<LogEntry>)
    ensures Replay(Replay(ns, log), log) == Replay(ns, log) <==> forall i :: !Waiting(ns, log, i)
    ensures forall i :: Waiting(ns, log, i) ==> exists j :: Late(ns, log, i, j)
  {
    hide Parent, Playable;
    var t := Replay(ns, log);
    if forall i :: !Waiting(ns, log, i) {
      forall i | 0 <= i < |log|
        ensures Play(t, log[i]) == t
      {
        assert !Waiting(ns, log, i);
      }
      ReplaySame(t, log);
    } else {
      var i :| Waiting(ns, log, i);
      FirstEffect(t, log, i);
    }
    forall i | Waiting(ns, log, i)
      ensures exists j :: Late(ns, log, i, j)
    {
      var j := WaitsForLate(ns, log, i);
    }
  }

  /** If one entry takes effect on `t`, so does some entry of the replay. */
  lemma {:induction false} FirstEffect(t: Tree, log: seq<LogEntry>, i: nat)
    requires i < |log| && Takes(t, log[i])
    ensures Replay(t, log) != t
    decreases |log|
  {
    hide Parent, Playable;
    var k := |log| - 1;
    ReplayGrows(t, log[..k]);
    if Replay(t, log[..k]) == t {
      if i < k {
        FirstEffect(t, log[..k], i);
      }
    } else {
      PrefixGrows(t, log, k);
    }
  }

  lemma {:induction false} WaitsForLate(ns: Tree, log: seq<LogEntry>, i: nat) returns (j: nat)
    requires Waiting(ns, log, i)
    ensures Late(ns, log, i, j)
  {
    hide Replay, Parent, NodeOf, PathOf;
    OnlyMkdirsWait(ns, log, i);
    DidNotLand(ns, log, i);
    hide Takes, Lands, Play;
    var parent := Parent(PathOf(log[i]));
    assert log[..|log|] == log;
    j := FirstDir(ns, log, parent, i + 1, |log|);
    LandsAt(ns, log, parent, j);
  }

  lemma OnlyMkdirsWait(ns: Tree, log: seq<LogEntry>, i: nat)
    requires Waiting(ns, log, i)
    ensures log[i].LogMkdir? && Playable(log[i])
  {
    hide Replay, Parent;
    assert log[..|log|] == log;
    if log[i].LogFile? {
      StaysSettled(ns, log, i, |log|);
      SettledIsIdle(Replay(ns, log), log[i]);
      assert false;
    }
  }

  lemma LandsAt(ns: Tree, log: seq<LogEntry>, path: string, j: nat)
    requires j < |log| && !IsDir(Replay(ns, log[..j]), path) && IsDir(Replay(ns, log[..j + 1]), path)
    ensures log[j].LogMkdir? && PathOf(log[j]) == path && Lands(Replay(ns, log[..j]), log[j])
  {
    hide Play, Lands, PathOf;
    assert log[..j + 1][..j] == log[..j];
    NewDir(Replay(ns, log[..j]), log[j], path);
  }

  /** The round in which a directory comes to exist. */
  lemma {:induction false} FirstDir(ns: Tree, log: seq<LogEntry>, path: string, lo: nat, hi: nat) returns (j: nat)
    requires lo <= hi <= |log| && !IsDir(Replay(ns, log[..lo]), path) && IsDir(Replay(ns, log[..hi]), path)
    ensures lo <= j < hi && !IsDir(Replay(ns, log[..j]), path) && IsDir(Replay(ns, log[..j + 1]), path)
    decreases hi
  {
    hide Replay;
    if IsDir(Replay(ns, log[..hi - 1]), path) {
      j := FirstDir(ns, log, path, lo, hi - 1);
    } else {
      j := hi - 1;
    }
  }

  /** A directory that lands only later had no parent in its round, nor right after it. */
  lemma DidNotLand(ns: Tree, log: seq<LogEntry>, i: nat)
    requires i < |log| && log[i].LogMkdir? && Takes(Replay(ns, log), log[i])
    ensures var parent := Parent(PathOf(log[i]));
      && IsDir(Replay(ns, log), parent) && !IsDir(Replay(ns, log[..i + 1]), parent) && i + 1 < |log|
  {
    hide Parent, Playable;
    assert log[..i + 1][..i] == log[..i];
    PrefixGrows(ns, log, i + 1);
    assert !Lands(Replay(ns, log[..i]), log[i]);
    assert log[..|log|] == log;
  }

  /** Without logged parents incremental replay is not full replay: the directory comes too late. */
  lemma LateParentBreaksReplay()
    ensures var log := [LogMkdir("d/e", 0, 0, 0), LogMkdir("d", 0, 0, 0)];
      var ns := map["" := Dir(0, 0, 0)];
      Replay(Replay(ns, log), log) != Replay(ns, log)
  {
    var d, de := LogMkdir("d", 0, 0, 0), LogMkdir("d/e", 0, 0, 0);
    var log := [de, d];
    var ns: Tree := map["" := Dir(0, 0, 0)];
    assert "d/e"[..2] == "d/" && "d/"[..1] == "d" && "d"[..0] == "";
    assert Parent("d/") == "d" && Parent("d/e") == "d" && Parent("d") == "";
    assert log[..1] == [de] && [de][..0] == [];
    assert Replay(ns, [de]) == Play(ns, de) == ns;
    var t := ns["d" := NodeOf(d)];
    assert Replay(ns, log) == Play(ns, d) == t;
    assert Replay(t, [de]) == Play(t, de);
    assert "d/e" in Play(t, de) && "d/e" !in t;
  }
}
