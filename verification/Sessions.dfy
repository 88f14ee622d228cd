/** Runs of locked-log sessions: what creations, failed ones included, keep (src/famfs_alloc.c, src/famfs_lib.c). */
module Sessions {
  import opened Common
  import opened Meta
  import opened Units
  import opened Rebuild
  import opened Buckets
  import opened Strided
  import opened FileAlloc
  import opened FileAllocExact
  import opened Namespace

  /** The in-memory bitmap of a session, and its cursor in bytes. */
  datatype Memory = Memory(used: set<int>, cur: nat)

  /**
   The log, the session once it has a bitmap, and whether it has logged every allocation that it
   made. Sessions are serialized by the lock on the log.
   */
  datatype Disk = Disk(log: seq<Slot>, session: Option<Memory>, allLogged: bool)

  /** A creation brings its size and parameters, the order that the shuffle gave, and whether it gets logged. */
  datatype Event =
    | OpenSession
    | Create(fm: FileMeta, param: Param, order: seq<nat>, logged: bool)
    | LogWithoutExtents(entry: LogEntry)

  /** Orders are shuffles, and only creations log extents. */
  ghost predicate Enabled(e: Event) {
    match e
    case OpenSession => true
    case Create(_, param, order, _) => Permutation(order, Iota(0, param.nbuckets))
    case LogWithoutExtents(entry) => !entry.LogFile?
  }

  ghost function Rebuilt(d: Device, logLen: nat, log: seq<Slot>): set<int>
    requires d.unit > 0
  {
    MarkAll(d.unit, Blank, Regions(logLen, log)).used
  }

  /** The bitmap that a request finds: the session's, or one built from the log. */
  ghost function Current(d: Device, logLen: nat, s: Disk): Memory
    requires d.unit > 0
  {
    if s.session.Some? then s.session.value else Memory(Rebuilt(d, logLen, s.log), 0)
  }

  ghost function Reply(d: Device, logLen: nat, s: Disk, e: Event): Outcome
    requires d.unit > 0 && e.Create?
  {
    var m := Current(d, logLen, s);
    Answer(d, e.param, m.used, m.cur, e.fm.size, e.order)
  }

  /** A process that stops leaves the log; the next session starts without a bitmap. */
  ghost function Next(d: Device, logLen: nat, s: Disk, e: Event): Disk
    requires d.unit > 0
  {
    match e
    case OpenSession => Disk(s.log, None, true)
    case LogWithoutExtents(entry) => s.(log := s.log + [Slot(entry, true)])
    case Create(fm, _, _, logged) =>
      match Reply(d, logLen, s, e)
      case Granted(fmap, used, cur) =>
        if logged then Disk(s.log + [Slot(LogFile(fm.(fmap := fmap)), true)], Some(Memory(used, cur)), s.allLogged)
        else Disk(s.log, Some(Memory(used, cur)), false)
      case Refused(_, cur) => s.(session := Some(Memory(Current(d, logLen, s).used, cur)))
      case Stopped(_) => Disk(s.log, None, true)
  }

  ghost predicate IsRun(es: seq<Event>) {
    forall i :: 0 <= i < |es| ==> Enabled(es[i])
  }

  ghost function After(d: Device, logLen: nat, s: Disk, es: seq<Event>): Disk
    requires d.unit > 0
  {
    if es == [] then s else Next(d, logLen, After(d, logLen, s, es[..|es| - 1]), es[|es| - 1])
  }

  const Formatted := Disk([], None, true)

  /** A device on which mkfs put the superblock and the log. */
  ghost predicate Mkfs(d: Device, logLen: nat) {
    Shaped(d) && InDevice(d.unit, d.nbits, Regions(logLen, []))
  }

  /** Logged extents are disjoint and inside the bitmap, and the session's bitmap covers the one in the log. */
  ghost predicate Sound(d: Device, logLen: nat, s: Disk)
    requires d.unit > 0
  {
    var rebuilt := Rebuilt(d, logLen, s.log);
    && Disjoint(d.unit, Regions(logLen, s.log)) && InDevice(d.unit, d.cap, Regions(logLen, s.log))
    && (s.session.Some? ==> rebuilt <= s.session.value.used && s.session.value.cur / d.unit <= d.cap)
    && (s.session.Some? && s.allLogged ==> rebuilt == s.session.value.used)
  }

  lemma {:induction false} DisjointConcat(unit: nat, rs: seq<Extent>, es: seq<Extent>)
    requires unit > 0 && Disjoint(unit, rs) && Disjoint(unit, es)
    requires forall i :: 0 <= i < |es| ==> UnitsOf(unit, es[i]) !! MarkAll(unit, Blank, rs).used
    ensures Disjoint(unit, rs + es)
  {
    hide MarkAll, UnitsOf;
    var all, used := rs + es, MarkAll(unit, Blank, rs).used;
    forall i, j | 0 <= i < j < |all|
      ensures UnitsOf(unit, all[i]) !! UnitsOf(unit, all[j])
    {
      if i < |rs| && j >= |rs| {
        UsedDisjoint(unit, rs, es[j - |rs|]);
      }
    }
  }

  lemma LogGrows(logLen: nat, log: seq<Slot>, slot: Slot)
    ensures Regions(logLen, log + [slot]) == Regions(logLen, log) + SlotExtents(slot)
  {
    var more := log + [slot];
    RegionsNext(logLen, more, |log|);
    assert more[..|log|] == log && more[..|log| + 1] == more;
  }

  lemma InDeviceConcat(unit: nat, nbits: nat, rs: seq<Extent>, es: seq<Extent>)
    requires unit > 0
    ensures InDevice(unit, nbits, rs + es) <==> InDevice(unit, nbits, rs) && InDevice(unit, nbits, es)
  {
    hide CeilDiv;
    var all := rs + es;
    assert forall e :: e in all <==> e in rs || e in es;
  }

  /** Logging new extents keeps the log sound. */
  lemma LogSound(d: Device, logLen: nat, s: Disk, fm: FileMeta, used: set<int>, cur: nat)
    requires d.unit > 0 && Sound(d, logLen, s) && s.session.Some? && cur / d.unit <= d.cap
    requires Allocates(d.unit, s.session.value.used, Extents(fm.fmap), used)
    requires InDevice(d.unit, d.cap, Extents(fm.fmap))
    ensures Sound(d, logLen, Disk(s.log + [Slot(LogFile(fm), true)], Some(Memory(used, cur)), s.allLogged))
  {
    hide UnitsOf, MarkAll, InDevice;
    var rs, es := Regions(logLen, s.log), Extents(fm.fmap);
    LogGrows(logLen, s.log, Slot(LogFile(fm), true));
    DisjointConcat(d.unit, rs, es);
    InDeviceConcat(d.unit, d.cap, rs, es);
    MarkAllConcat(d.unit, Blank, rs, es);
    MarkAllUsed(d.unit, MarkAll(d.unit, Blank, rs), es);
    var rebuilt, rebuilt' := Rebuilt(d, logLen, s.log), MarkAll(d.unit, Blank, rs + es).used;
    assert forall k :: k in rebuilt' ==> k in used;
    if s.allLogged {
      assert forall k :: k in used ==> k in rebuilt';
    }
  }

  /** A request that comes first in its session builds the bitmap. */
  lemma BuildSound(d: Device, logLen: nat, s: Disk)
    requires d.unit > 0 && Sound(d, logLen, s)
    ensures Sound(d, logLen, s.(session := Some(Current(d, logLen, s)))) && 0 in Current(d, logLen, s).used
  {
    hide Rebuilt, Disjoint, InDevice;
    if s.session.None? {
      assert 0 / d.unit == 0;
    }
    RebuiltHasSuperblock(d, logLen, s.log);
  }

  lemma RebuiltHasSuperblock(d: Device, logLen: nat, log: seq<Slot>)
    requires d.unit > 0
    ensures 0 in Rebuilt(d, logLen, log)
  {
    SuperblockMarked(d.unit, logLen, log);
  }

  lemma CursorBound(d: Device, p: Param, used: set<int>, cur: nat, size: nat, order: seq<nat>)
    requires d.unit > 0 && cur / d.unit <= d.cap
    ensures var a := Answer(d, p, used, cur, size, order);
      !a.Stopped? ==> a.cur / d.unit <= d.cap
  {
    hide ValidateParam, Contiguous, Place, StripExtents;
    ContiguousBound(d, used, cur, size);
    UnitMultiple(d.unit, 0);
    ContiguousBound(d, used, 0, size);
  }

  lemma ContiguousBound(d: Device, used: set<int>, cur: nat, size: nat)
    requires d.unit > 0 && cur / d.unit <= d.cap
    ensures var a := Contiguous(d, used, cur, size); !a.Stopped? ==> a.cur / d.unit <= d.cap
  {
    hide FirstFit, CeilDiv;
    var n := CeilDiv(size, d.unit);
    var r := FirstFit(used, d.nbits, cur / d.unit, d.nbits, n);
    if r != -1 {
      UnitMultiple(d.unit, r + n);
    }
  }

  lemma CreateSound(d: Device, logLen: nat, s: Disk, e: Event)
    requires d.unit > 0 && Sound(d, logLen, s) && e.Create?
    ensures Sound(d, logLen, Next(d, logLen, s, e))
  {
    var m := Current(d, logLen, s);
    BuildSound(d, logLen, s);
    hide Rebuilt, Disjoint, InDevice, Answer, Allocates;
    var a := Reply(d, logLen, s, e);
    GrantSound(d, e.param, m.used, m.cur, e.fm.size, e.order);
    CursorBound(d, e.param, m.used, m.cur, e.fm.size, e.order);
    if a.Granted? {
      AllocatesMore(d.unit, m.used, Extents(a.fmap), a.used);
      if e.logged {
        LogSound(d, logLen, s.(session := Some(m)), e.fm.(fmap := a.fmap), a.used, a.cur);
      }
    }
  }

  lemma AllocatesMore(unit: nat, used: set<int>, es: seq<Extent>, used': set<int>)
    requires unit > 0 && Allocates(unit, used, es, used')
    ensures used <= used'
  {
    hide UnitsOf, Disjoint;
    assert forall k :: k in used ==> k in used';
  }

  lemma NextSound(d: Device, logLen: nat, s: Disk, e: Event)
    requires d.unit > 0 && Sound(d, logLen, s) && Enabled(e)
    ensures Sound(d, logLen, Next(d, logLen, s, e))
  {
    match e
    case OpenSession =>
    case Create(_, _, _, _) => CreateSound(d, logLen, s, e);
    case LogWithoutExtents(entry) =>
      hide Rebuilt, Disjoint, InDevice;
      LogGrows(logLen, s.log, Slot(entry, true));
      assert Regions(logLen, s.log) + [] == Regions(logLen, s.log);
      SameRegions(d, logLen, s.log, s.log + [Slot(entry, true)]);
  }

  lemma SameRegions(d: Device, logLen: nat, log: seq<Slot>, more: seq<Slot>)
    requires d.unit > 0 && Regions(logLen, log) == Regions(logLen, more)
    ensures Rebuilt(d, logLen, log) == Rebuilt(d, logLen, more)
  {
  }

  lemma FormattedSound(d: Device, logLen: nat)
    requires Mkfs(d, logLen)
    ensures Sound(d, logLen, Formatted)
  {
    hide MarkAll, CeilDiv;
    assert |Regions(logLen, [])| == 1;
  }

  lemma {:induction false} RunSound(d: Device, logLen: nat, es: seq<Event>)
    requires Mkfs(d, logLen) && IsRun(es)
    ensures Sound(d, logLen, After(d, logLen, Formatted, es))
    decreases |es|
  {
    hide Sound, Enabled, Next;
    if es == [] {
      FormattedSound(d, logLen);
    } else {
      RunSound(d, logLen, es[..|es| - 1]);
      NextSound(d, logLen, After(d, logLen, Formatted, es[..|es| - 1]), es[|es| - 1]);
    }
  }

  /**
   Over every run from a fresh file system, with requests of any size and any shuffle, refused and
   stopped ones included: no two logged extents share a unit, none touches the superblock or the
   log, all lie inside the bitmap that a rebuild allocates, the rebuild counts no error, and it
   never calls free what the session has in use; with everything logged the two bitmaps agree.
   */
  lemma EveryRunIsSound(d: Device, logLen: nat, es: seq<Event>)
    requires Mkfs(d, logLen) && IsRun(es)
    ensures var s := After(d, logLen, Formatted, es);
      var rebuilt := MarkAll(d.unit, Blank, Regions(logLen, s.log));
      && Disjoint(d.unit, Regions(logLen, s.log)) && InDevice(d.unit, d.cap, Regions(logLen, s.log))
      && rebuilt.errors == 0
      && (s.session.Some? ==> rebuilt.used <= s.session.value.used)
      && (s.session.Some? && s.allLogged ==> rebuilt.used == s.session.value.used)
  {
    RunSound(d, logLen, es);
    hide UnitsOf, MarkAll, Disjoint, InDevice, After;
    ErrorsMeanOverlap(d.unit, Regions(logLen, After(d, logLen, Formatted, es).log));
  }

  predicate FileAt(log: seq<Slot>, i: nat) {
    i < |log| && log[i].valid && log[i].entry.LogFile?
  }

  ghost predicate EveryFileHeld(unit: nat, log: seq<Slot>)
    requires unit > 0
  {
    forall i :: 0 <= i < |log| && FileAt(log, i) ==> Holds(unit, log[i].entry.fm.fmap, log[i].entry.fm.size)
  }

  lemma MoreHeld(unit: nat, log: seq<Slot>, slot: Slot)
    requires unit > 0 && EveryFileHeld(unit, log)
    requires slot.valid && slot.entry.LogFile? ==> Holds(unit, slot.entry.fm.fmap, slot.entry.fm.size)
    ensures EveryFileHeld(unit, log + [slot])
  {
    hide Holds;
    assert forall i :: 0 <= i < |log| ==> (log + [slot])[i] == log[i];
  }

  lemma NextHoldsFiles(d: Device, logLen: nat, s: Disk, e: Event)
    requires d.unit > 0 && Sound(d, logLen, s) && Enabled(e) && EveryFileHeld(d.unit, s.log)
    ensures EveryFileHeld(d.unit, Next(d, logLen, s, e).log)
  {
    hide Rebuilt, Sound, Answer, Holds, Allocates, InDevice, Current, Permutation, Iota, EveryFileHeld;
    if e.Create? {
      var m := Current(d, logLen, s);
      BuildSound(d, logLen, s);
      GrantSound(d, e.param, m.used, m.cur, e.fm.size, e.order);
      var a := Reply(d, logLen, s, e);
      if a.Granted? {
        MoreHeld(d.unit, s.log, Slot(LogFile(e.fm.(fmap := a.fmap)), true));
      }
    } else if e.LogWithoutExtents? {
      MoreHeld(d.unit, s.log, Slot(e.entry, true));
    }
  }

  /** Over every run every logged file has extents that hold it. */
  lemma {:induction false} EveryRunHoldsFiles(d: Device, logLen: nat, es: seq<Event>)
    requires Mkfs(d, logLen) && IsRun(es)
    ensures EveryFileHeld(d.unit, After(d, logLen, Formatted, es).log)
    decreases |es|
  {
    hide Next, Enabled, Sound, Holds;
    if es != [] {
      EveryRunHoldsFiles(d, logLen, es[..|es| - 1]);
      RunSound(d, logLen, es[..|es| - 1]);
      NextHoldsFiles(d, logLen, After(d, logLen, Formatted, es[..|es| - 1]), es[|es| - 1]);
    }
  }

  // ---------- logged files are the files that were asked for ----------

  /** Entry `i` of the log is the file that creation `j` asked for, with a map of the shape that it asked for. */
  ghost predicate AskedFor(d: Device, es: seq<Event>, log: seq<Slot>, i: int, j: int)
    requires d.unit > 0
  {
    && 0 <= i < |log| && log[i].entry.LogFile? && 0 <= j < |es| && es[j].Create? && es[j].logged
    && log[i].entry.fm == es[j].fm.(fmap := log[i].entry.fm.fmap)
    && Shape(d.unit, es[j].param, es[j].fm.size, log[i].entry.fm.fmap)
  }

  lemma NextAskedFor(d: Device, logLen: nat, s: Disk, e: Event)
    requires d.unit > 0 && Enabled(e)
    ensures var log := Next(d, logLen, s, e).log;
      && s.log <= log && |log| <= |s.log| + 1
      && (|log| > |s.log| && log[|s.log|].entry.LogFile? ==> AskedFor(d, [e], log, |s.log|, 0))
  {
    if e.Create? {
      var m := Current(d, logLen, s);
      GrantShape(d, e.param, m.used, m.cur, e.fm.size, e.order);
    }
    hide Current, Answer, Shape, Permutation;
  }

  /** Over every run every logged file was asked for, and has the chunk size, strips and lengths that were asked for. */
  lemma {:induction false} EveryRunShapesFiles(d: Device, logLen: nat, es: seq<Event>, i: nat) returns (j: nat)
    requires d.unit > 0 && IsRun(es)
    requires var log := After(d, logLen, Formatted, es).log; i < |log| && log[i].entry.LogFile?
    ensures AskedFor(d, es, After(d, logLen, Formatted, es).log, i, j)
    decreases |es|
  {
    hide Next, Enabled, Shape;
    var last, rest := |es| - 1, es[..|es| - 1];
    var s := After(d, logLen, Formatted, rest);
    NextAskedFor(d, logLen, s, es[last]);
    if i < |s.log| {
      j := EveryRunShapesFiles(d, logLen, rest, i);
      assert rest[j] == es[j];
    } else {
      j := last;
      assert [es[last]][0] == es[last];
    }
  }

  /** Over every run, logplay does not refuse the map of any logged file that has bytes. */
  lemma EveryRunPlayable(d: Device, logLen: nat, es: seq<Event>, i: nat)
    requires Mkfs(d, logLen) && IsRun(es)
    requires var log := After(d, logLen, Formatted, es).log;
      i < |log| && log[i].entry.LogFile? && 0 < log[i].entry.fm.size
    ensures Acceptable(After(d, logLen, Formatted, es).log[i].entry.fm.fmap)
    decreases |es|
  {
    hide Next, Enabled, Shape;
    var last, rest := |es| - 1, es[..|es| - 1];
    var s := After(d, logLen, Formatted, rest);
    NextAskedFor(d, logLen, s, es[last]);
    if i < |s.log| {
      EveryRunPlayable(d, logLen, rest, i);
    } else {
      RunSound(d, logLen, rest);
      NextPlayable(d, logLen, s, es[last]);
    }
  }

  lemma NextPlayable(d: Device, logLen: nat, s: Disk, e: Event)
    requires d.unit > 0 && Sound(d, logLen, s) && Enabled(e)
    requires var log := Next(d, logLen, s, e).log;
      |log| > |s.log| && log[|s.log|].entry.LogFile? && 0 < log[|s.log|].entry.fm.size
    ensures Acceptable(Next(d, logLen, s, e).log[|s.log|].entry.fm.fmap)
  {
    BuildSound(d, logLen, s);
    var m := Current(d, logLen, s);
    hide Current, Sound, Answer, Permutation;
    if e.Create? && 0 < e.fm.size {
      GrantOffsets(d, e.param, m.used, m.cur, e.fm.size, e.order);
    }
  }

  // ---------- when the log stays inside the device ----------

  /** The creation gets logged with an extent that ends past the device, by the bitmap it finds. */
  ghost predicate LogsPastDevice(d: Device, logLen: nat, s: Disk, e: Event)
    requires d.unit > 0
  {
    && e.Create? && e.logged && Reply(d, logLen, s, e).Granted?
    && var m := Current(d, logLen, s); PastDevice(d, e.param, m.used, m.cur, e.fm.size, e.order)
  }

  ghost predicate StepPastDevice(d: Device, logLen: nat, es: seq<Event>, i: int)
    requires d.unit > 0
  {
    0 <= i < |es| && LogsPastDevice(d, logLen, After(d, logLen, Formatted, es[..i]), es[i])
  }

  /** Files have bytes (famfs_mkfile asserts it), and their sizes fit the 64-bit arithmetic. */
  predicate Sized(es: seq<Event>) {
    forall i :: 0 <= i < |es| && es[i].Create? ==> 0 < es[i].fm.size && Representable(es[i].param, es[i].fm.size)
  }

  lemma NextInDevice(d: Device, logLen: nat, s: Disk, e: Event)
    requires Shaped(d) && 2 <= d.unit && Sound(d, logLen, s) && Enabled(e)
    requires e.Create? ==> 0 < e.fm.size && Representable(e.param, e.fm.size)
    ensures InDevice(d.unit, d.nbits, Regions(logLen, Next(d, logLen, s, e).log)) <==>
            InDevice(d.unit, d.nbits, Regions(logLen, s.log)) && !LogsPastDevice(d, logLen, s, e)
  {
    if e.Create? {
      var m := Current(d, logLen, s);
      BuildSound(d, logLen, s);
      GrantInDevice(d, e.param, m.used, m.cur, e.fm.size, e.order);
    }
    hide Answer, PastDevice, InDevice, Rebuilt, Disjoint, Permutation, Shaped;
    var more := Next(d, logLen, s, e).log;
    if |more| > |s.log| {
      var slot := more[|s.log|];
      LogGrows(logLen, s.log, slot);
      InDeviceConcat(d.unit, d.nbits, Regions(logLen, s.log), SlotExtents(slot));
      if slot.entry.LogFile? {
        assert SlotExtents(slot) == Extents(slot.entry.fm.fmap);
      } else {
        assert Regions(logLen, s.log) + [] == Regions(logLen, s.log);
      }
    }
  }

  /**
   The log of a run stays inside the device exactly when no logged creation met a bitmap that sends
   it past the end; it is inside the bitmap that a rebuild allocates in any case.
   */
  lemma {:induction false} RunInDevice(d: Device, logLen: nat, es: seq<Event>)
    requires Mkfs(d, logLen) && 2 <= d.unit && IsRun(es) && Sized(es)
    ensures InDevice(d.unit, d.nbits, Regions(logLen, After(d, logLen, Formatted, es).log)) <==>
            forall i :: !StepPastDevice(d, logLen, es, i)
    decreases |es|
  {
    hide InDevice, LogsPastDevice, Next, Enabled, Sound, Shaped;
    if es != [] {
      var last, rest := |es| - 1, es[..|es| - 1];
      RunInDevice(d, logLen, rest);
      RunSound(d, logLen, rest);
      NextInDevice(d, logLen, After(d, logLen, Formatted, rest), es[last]);
      hide After;
      forall i | i != last
        ensures StepPastDevice(d, logLen, es, i) <==> StepPastDevice(d, logLen, rest, i)
      {
        if 0 <= i < last {
          assert rest[i] == es[i] && rest[..i] == es[..i];
        }
      }
      assert StepPastDevice(d, logLen, es, last) <==>
             LogsPastDevice(d, logLen, After(d, logLen, Formatted, rest), es[last]);
    }
  }
}
