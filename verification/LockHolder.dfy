/** Creations under the lock on the log, one step of a run each (src/famfs_alloc.c, src/famfs_lib.c). */
module LockHolder {
  import opened Common
  import opened Meta
  import opened Units
  import opened Bitmap
  import opened Rebuild
  import opened Buckets
  import opened Strided
  import opened FileAlloc
  import opened LockedLog
  import S = Sessions

  /** The log on the device, and the session of the process that holds the lock. */
  class Holder {
    const logLen: nat
    const devsize: nat
    var param: Param
    var log: seq<Slot>
    var session: Session?
    ghost var allLogged: bool

    ghost function Dev(): Device {
      var nbits := CeilDiv(devsize, FAMFS_ALLOC_UNIT);
      Device(FAMFS_ALLOC_UNIT, devsize, nbits, Capacity(nbits))
    }

    ghost function Repr(): set<object>
      reads this, session
    {
      if session == null then {this} else var current: Session := session; {this, current, current.bitmap}
    }

    /** The state of the run. */
    ghost function Now(): S.Disk
      reads this, Repr()
    {
      var memory := if session == null then None else Some(S.Memory(session.InUse(), session.curPos));
      S.Disk(log, memory, allLogged)
    }

    ghost predicate Valid()
      reads this, Repr()
    {
      && S.Mkfs(Dev(), logLen) && S.Sound(Dev(), logLen, Now())
      && (session != null ==> session.Valid() && session.devsize == devsize && session.param == param)
    }

    /** The first process after mkfs. */
    constructor (logLen: nat, devsize: nat, param: Param)
      requires var nbits := CeilDiv(devsize, FAMFS_ALLOC_UNIT);
        S.Mkfs(Device(FAMFS_ALLOC_UNIT, devsize, nbits, Capacity(nbits)), logLen)
      ensures Valid() && Now() == S.Formatted && session == null
      ensures this.logLen == logLen && this.devsize == devsize && this.param == param
    {
      this.logLen := logLen;
      this.devsize := devsize;
      this.param := param;
      this.log := [];
      this.session := null;
      this.allLogged := true;
      new;
      S.FormattedSound(Dev(), logLen);
    }

    /** famfs_init_locked_log of the next process. */
    method Open(param: Param)
      requires Valid()
      modifies this
      ensures Valid() && session == null && this.param == param && log == old(log)
      ensures Now() == S.Next(Dev(), logLen, old(Now()), S.OpenSession)
    {
      S.NextSound(Dev(), logLen, Now(), S.OpenSession);
      hide S.Sound, S.Mkfs;
      this.param := param;
      session := null;
      allLogged := true;
    }

    /** The bitmap is built by the first request. */
    method Prepare() returns (current: Session)
      requires Valid()
      modifies this`session
      ensures Valid() && session == current && current.Valid() && current.Dev() == Dev() && current.param == param
      ensures if old(session) == null then fresh(current) && fresh(current.bitmap) else current == old(session)
      ensures S.Memory(current.InUse(), current.curPos) == S.Current(Dev(), logLen, old(Now()))
      ensures old(session) != null ==> current.bitmap == old(session.bitmap)
    {
      S.BuildSound(Dev(), logLen, Now());
      hide S.Rebuilt, Disjoint, CeilDiv, Used, MarkAll, InDevice;
      if session == null {
        session := new Session(log, logLen, devsize, param);
      }
      current := session;
    }

    /** famfs_file_alloc on the session's bitmap. */
    method Request(current: Session, size: nat, rand: nat -> nat)
      returns (result: Result, ghost order: seq<nat>, ghost a: Outcome)
      requires current.Valid()
      modifies current`curPos, current.bitmap
      ensures current.bitmap == old(current.bitmap) && Permutation(order, Iota(0, current.param.nbuckets))
      ensures a == Answer(old(current.Dev()), current.param, old(current.InUse()), old(current.curPos), size, order)
      ensures result == ResultOf(a)
      ensures !a.Stopped? ==> current.Valid() && current.curPos == a.cur
      ensures !a.Stopped? ==> current.InUse() == if a.Granted? then a.used else old(current.InUse())
    {
      hide Used, Answer, Permutation, Capacity, CeilDiv;
      result, order := current.Alloc(size, rand);
      a := Answer(old(current.Dev()), current.param, old(current.InUse()), old(current.curPos), size, order);
    }

    /** One creation: its answer and what it leaves are one step of a run, for every request and every rand(). */
    method Create(fm: FileMeta, logged: bool, rand: nat -> nat) returns (result: Result, ghost order: seq<nat>)
      requires Valid()
      modifies this, Repr()
      ensures Valid() && param == old(param) && Permutation(order, Iota(0, param.nbuckets))
      ensures var e := S.Create(fm, param, order, logged);
        && Now() == S.Next(Dev(), logLen, old(Now()), e)
        && result == ResultOf(S.Reply(Dev(), logLen, old(Now()), e))
      ensures log == if result.Ok? && logged then old(log) + [Slot(LogFile(fm.(fmap := result.fmap)), true)]
                     else old(log)
    {
      ghost var before := Now();
      ghost var a;
      var current := Prepare();
      hide S.Sound, S.Mkfs, Used, Answer, Permutation, S.Current, S.Next, Capacity, CeilDiv, Session.Valid;
      result, order, a := Request(current, fm.size, rand);
      ghost var e := S.Create(fm, param, order, logged);
      S.NextSound(Dev(), logLen, before, e);
      Settle(result, fm, logged, before, e);
    }

    /** famfs_log_file_creation, the return to the caller, or the end of the process. */
    method Settle(result: Result, fm: FileMeta, logged: bool, ghost before: S.Disk, ghost e: S.Event)
      requires S.Mkfs(Dev(), logLen) && e.Create? && e.fm == fm && e.logged == logged
      requires var a := S.Reply(Dev(), logLen, before, e);
        && result == ResultOf(a) && log == before.log && allLogged == before.allLogged
        && session != null && session.devsize == devsize && session.param == param
        && (!a.Stopped? ==> session.Valid() && session.curPos == a.cur)
        && (!a.Stopped? ==>
            session.InUse() == if a.Granted? then a.used else S.Current(Dev(), logLen, before).used)
      requires S.Sound(Dev(), logLen, S.Next(Dev(), logLen, before, e))
      modifies this
      ensures Valid() && param == old(param) && Now() == S.Next(Dev(), logLen, before, e)
      ensures log == if result.Ok? && logged then old(log) + [Slot(LogFile(fm.(fmap := result.fmap)), true)]
                     else old(log)
    {
      hide S.Sound, S.Mkfs, Used, S.Reply, S.Current, Capacity, CeilDiv, Session.Valid;
      if result.Ok? {
        if logged {
          log := log + [Slot(LogFile(fm.(fmap := result.fmap)), true)];
        } else {
          allLogged := false;
        }
      } else if result.Halt? {
        session := null;
        allLogged := true;
      }
    }
  }

  function ResultOf(a: Outcome): Result {
    match a
    case Granted(fmap, _, _) => Ok(fmap)
    case Refused(rc, _) => Error(rc)
    case Stopped(why) => Halt(why)
  }
}
