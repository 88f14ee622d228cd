/** The master's create calls on its name space and its log in memory (src/famfs_lib.c). */
module Creator {
  import opened Meta
  import opened Namespace
  import opened Journal
  import M = Master

  class Host {
    const journal: FamfsLog
    var ns: Tree

    constructor (journal: FamfsLog, ns: Tree)
      requires journal.Valid() && journal.log == []
      ensures this.journal == journal && Now() == M.Mount(ns, journal.entries.Length)
    {
      this.journal := journal;
      this.ns := ns;
    }

    ghost function Now(): M.State
      reads this, journal
    {
      M.State(ns, journal.log, journal.entries.Length)
    }

    /** The path is a file of that size, which __famfs_mkfile may open instead. */
    predicate HasFile(fm: FileMeta)
      reads this
    {
      fm.path in ns && ns[fm.path].File? && ns[fm.path].fm.size == fm.size
    }

    /**
     __famfs_mkfile. `local` is how far the local steps get, `fd` the descriptor that they end with,
     and `existing` what open() gives for a file that exists. A positive result is a descriptor.
     The caller gets one without an entry exactly for a file that exists, and an entry is logged
     for a caller that gets an error exactly when the new file could not be mapped or opened.
     */
    method Mkfile(fm: FileMeta, openExisting: bool, existing: int, local: M.Local, fd: int) returns (rc: int)
      requires journal.Valid() && Storable(M.Entry(M.Mkfile(fm, local))) && fd > 0
      modifies this`ns, journal`nextSeqnum, journal`nextIndex, journal`log, journal.entries
      ensures journal.Valid() && Now() == M.Step(old(Now()), M.Mkfile(fm, local))
      ensures var creates := M.Creates(old(Now()), M.Mkfile(fm, local)) && |old(journal.log)| < journal.entries.Length;
        var appended := |journal.log| > |old(journal.log)|;
        && (appended && rc <= 0 <==> creates && local.Unopened?)
        && (!appended && rc > 0 <==> openExisting && old(HasFile(fm)) && existing > 0)
        && (appended && rc > 0 <==> creates && local.Done?)
      ensures var path, slots := fm.path, journal.entries.Length;
        var made := path !in old(ns) && IsDir(old(ns), Parent(path)) && !local.NotCreated?;
        var logged := made && (local.Done? || local.Unopened?) && |old(journal.log)| < slots;
        && ns == (if made then old(ns)[path := File(fm)] else old(ns))
        && (!logged ==> journal.log == old(journal.log))
        && (logged && |path| < 80 ==> journal.log == old(journal.log) + [LogFile(fm)])
        && (logged && |path| >= 80 ==> journal.log == old(journal.log) + [LogFile(fm.(path := path[..79]))])
    {
      hide Parent, Storable;
      if fm.path in ns {
        return if openExisting && HasFile(fm) then existing else -1;
      }
      if !IsDir(ns, Parent(fm.path)) || local.NotCreated? {
        return -1;
      }
      ns := ns[fm.path := File(fm)];
      if local.Unfinished? {
        return -1;
      }
      rc := journal.Log(LogFile(fm.(path := M.Truncated(fm.path))));
      if rc == 0 {
        rc := if local.Done? then fd else -1;
      }
    }

    /** __famfs_mkdir: success if and only if the directory is new, is made with its owners, and gets a slot. */
    method Mkdir(path: string, mode: nat, uid: nat, gid: nat, made: bool, chownOk: bool) returns (rc: int)
      requires journal.Valid() && Storable(M.Entry(M.Mkdir(path, mode, uid, gid, made, chownOk)))
      modifies this`ns, journal`nextSeqnum, journal`nextIndex, journal`log, journal.entries
      ensures journal.Valid() && Now() == M.Step(old(Now()), M.Mkdir(path, mode, uid, gid, made, chownOk))
      ensures var free := path !in old(ns) && IsDir(old(ns), Parent(path)) && made;
        var logged := free && (uid == 0 || gid == 0 || chownOk) && |old(journal.log)| < journal.entries.Length;
        && (rc == 0 <==> logged)
        && ns == (if free then old(ns)[path := Dir(mode, uid, gid)] else old(ns))
        && (!logged ==> journal.log == old(journal.log))
        && (logged && |path| < 80 ==> journal.log == old(journal.log) + [LogMkdir(path, mode, uid, gid)])
        && (logged && |path| >= 80 ==> journal.log == old(journal.log) + [LogMkdir(path[..79], mode, uid, gid)])
    {
      hide Parent, Storable;
      if path in ns || !IsDir(ns, Parent(path)) || !made {
        return -1;
      }
      ns := ns[path := Dir(mode, uid, gid)];
      if uid != 0 && gid != 0 && !chownOk {
        return -1;
      }
      rc := journal.Log(LogMkdir(M.Truncated(path), mode, uid, gid));
    }
  }
}
