/**
 The FUSE daemon over its inode cache: request handlers of any number of threads, one step per
 critical section of the cache mutex (src/famfs_fused.c, src/famfs_fused_icache.c).
 */
module Daemon {
  import opened Inodes

  /**
   Why references are held, per inode: kernel lookups, handlers in progress, open files, and the
   second reference that each famfs_open takes and no famfs_release gives back.
   */
  datatype Ledger = Ledger(lookups: map<int, nat>, holds: map<int, nat>, opens: map<int, nat>, leaks: map<int, nat>)

  datatype State = State(cache: Cache, ledger: Ledger)

  datatype Event =
    | Get(id: int)
    | FindOrInsert(parent: int, ino: nat, addr: int)
    | Put(id: int)
    | Forget(id: int, nlookup: nat)
    | SetAttr(id: int)
    | Open(id: int)
    | Release(id: int)

  function Bump(m: map<int, nat>, id: int): map<int, nat> {
    m[id := At(m, id) + 1]
  }

  function Less(m: map<int, nat>, id: int, n: nat): map<int, nat> {
    m[id := if At(m, id) >= n then At(m, id) - n else 0]
  }

  function Total(l: Ledger, id: int): nat {
    At(l.lookups, id) + At(l.holds, id) + At(l.opens, id) + At(l.leaks, id)
  }

  /** Everything that is owed for; the root has two references of its own. */
  function Owed(l: Ledger): map<int, nat> {
    map k | k in l.lookups.Keys + l.holds.Keys + l.opens.Keys + l.leaks.Keys + {ROOT} ::
      Total(l, k) + (if k == ROOT then 2 else 0)
  }

  /** What the kernel may refer to: the root, what it looked up and did not forget, what it has open. */
  predicate Known(l: Ledger, id: int) {
    id == ROOT || At(l.lookups, id) > 0 || At(l.opens, id) > 0
  }

  /**
   A step is taken when its thread holds the reference that the handler got before, and when the
   kernel keeps its side: no nodeid that it forgot, no more forgets than lookups, no release
   without open. The address of a new inode is not in use.
   */
  predicate Enabled(s: State, e: Event) {
    match e
    case Get(id) => Known(s.ledger, id)
    case FindOrInsert(parent, _, addr) => At(s.ledger.holds, parent) > 0 && addr !in s.cache.parent && addr != 0
    case Put(id) => At(s.ledger.holds, id) > 0
    case Forget(id, n) => At(s.ledger.holds, id) > 0 && At(s.ledger.lookups, id) >= n
    case SetAttr(id) => At(s.ledger.holds, id) > 0
    case Open(id) => At(s.ledger.holds, id) > 0
    case Release(id) => At(s.ledger.holds, id) > 0 && At(s.ledger.opens, id) > 0
  }

  /** The middle part of famfs_do_lookup, under the mutex. */
  function LookupStep(s: State, parent: int, ino: nat, addr: int): State {
    var c, l, id := s.cache, s.ledger, Find(s.cache, ino);
    if id != 0 && id in c.refs then
      State(GetRef(GetRef(c, id), id), l.(lookups := Bump(l.lookups, id), holds := Bump(l.holds, id)))
    else if id == 0 && parent in c.refs then
      State(Insert(c, addr, ino, parent), l.(lookups := Bump(l.lookups, addr), holds := Bump(l.holds, addr)))
    else s
  }

  function Step(s: State, e: Event): State {
    var c, l := s.cache, s.ledger;
    if !Enabled(s, e) then s else
    match e
    case Get(id) => if id in c.refs && c.refs[id] >= 1 then State(GetRef(c, id), l.(holds := Bump(l.holds, id))) else s
    case FindOrInsert(parent, ino, addr) => LookupStep(s, parent, ino, addr)
    case Put(id) => State(PutRef(c, id, 1), l.(holds := Less(l.holds, id, 1)))
    case Forget(id, n) =>
      State(PutRef(c, id, n + 1), l.(holds := Less(l.holds, id, 1), lookups := Less(l.lookups, id, n)))
    case SetAttr(id) => State(Pin(c, id), l)
    case Open(id) =>
      if id in c.refs
      then State(GetRef(c, id),
                 l.(holds := Less(l.holds, id, 1), leaks := Bump(l.leaks, id), opens := Bump(l.opens, id)))
      else s
    case Release(id) =>
      State(PutRef(c, id, 2), l.(holds := Less(l.holds, id, 1), opens := Less(l.opens, id, 1)))
  }

  function Run(s: State, es: seq<Event>): State {
    if es == [] then s else Step(Run(s, es[..|es| - 1]), es[|es| - 1])
  }

  /** famfs_icache_init */
  function Start(): State {
    State(RootOnly(), Ledger(map[], map[], map[], map[]))
  }

  ghost predicate Inv(s: State) {
    WellFormed(s.cache) && Balanced(s.cache, Owed(s.ledger))
  }

  lemma OwedAt(l: Ledger, k: int)
    ensures At(Owed(l), k) == Total(l, k) + (if k == ROOT then 2 else 0)
  {
  }

  lemma SameLedger(c: Cache, owed: map<int, nat>, l: Ledger)
    requires Balanced(c, owed) && (forall k :: At(owed, k) == Total(l, k) + (if k == ROOT then 2 else 0))
    ensures Balanced(c, Owed(l))
  {
    hide Balanced, Owed, Total;
    forall k
      ensures At(owed, k) == At(Owed(l), k)
    {
      OwedAt(l, k);
    }
    SameOwed(c, owed, Owed(l));
  }

  lemma OwedAll(l: Ledger)
    ensures forall k :: At(Owed(l), k) == Total(l, k) + (if k == ROOT then 2 else 0)
  {
    hide Owed, Total;
    forall k
      ensures At(Owed(l), k) == Total(l, k) + (if k == ROOT then 2 else 0)
    {
      OwedAt(l, k);
    }
  }

  /** What a thread holds or the kernel refers to is in the cache, with a reference. */
  lemma HeldIsCached(s: State, id: int)
    requires Inv(s) && (At(s.ledger.holds, id) > 0 || Known(s.ledger, id))
    ensures id in s.cache.refs && s.cache.refs[id] >= 1
  {
    OwedAt(s.ledger, id);
    hide Kids, Owed;
  }

  lemma GetInv(s: State, id: int, l: Ledger)
    requires Inv(s) && id in s.cache.refs
    requires forall k :: Total(l, k) == Total(s.ledger, k) + (if k == id then 1 else 0)
    ensures Inv(State(GetRef(s.cache, id), l))
  {
    hide WellFormed, Balanced, GetRef, Owed, Total;
    var owed := Owed(s.ledger);
    GetKeeps(s.cache, owed, id);
    OwedAll(s.ledger);
    SameLedger(GetRef(s.cache, id), owed[id := At(owed, id) + 1], l);
  }

  lemma PutInv(s: State, id: int, n: nat, l: Ledger)
    requires Inv(s) && id in s.cache.refs
    requires forall k :: Total(l, k) + (if k == id then n else 0) == Total(s.ledger, k)
    ensures Inv(State(PutRef(s.cache, id, n), l))
  {
    hide WellFormed, Balanced, PutRef, Owed, Total;
    var owed := Owed(s.ledger);
    OwedAll(s.ledger);
    assert Total(l, id) + n == Total(s.ledger, id);
    PutKeeps(s.cache, owed, id, n);
    SameLedger(PutRef(s.cache, id, n), owed[id := At(owed, id) - n], l);
  }

  lemma FoundInv(s: State, id: int)
    requires Inv(s) && id in s.cache.refs
    ensures var l := s.ledger;
      Inv(State(GetRef(GetRef(s.cache, id), id), l.(lookups := Bump(l.lookups, id), holds := Bump(l.holds, id))))
  {
    hide Inv;
    var l := s.ledger.(lookups := Bump(s.ledger.lookups, id));
    GetInv(s, id, l);
    GetInv(State(GetRef(s.cache, id), l), id, l.(holds := Bump(l.holds, id)));
  }

  lemma BumpBoth(l: Ledger, id: int)
    ensures forall k :: Total(l.(lookups := Bump(l.lookups, id), holds := Bump(l.holds, id)), k) ==
                        Total(l, k) + (if k == id then 2 else 0)
  {
  }

  lemma MissedInv(s: State, parent: int, ino: nat, addr: int)
    requires Inv(s) && parent in s.cache.refs && addr !in s.cache.parent && addr != 0 && Find(s.cache, ino) == 0
    ensures var l := s.ledger;
      Inv(State(Insert(s.cache, addr, ino, parent), l.(lookups := Bump(l.lookups, addr), holds := Bump(l.holds, addr))))
  {
    NotCached(s, addr);
    hide WellFormed, Balanced, Find, Insert, Owed;
    var l := s.ledger;
    var l' := l.(lookups := Bump(l.lookups, addr), holds := Bump(l.holds, addr));
    InsertKeeps(s.cache, Owed(l), addr, ino, parent);
    OwedAll(l);
    BumpBoth(l, addr);
    hide Total;
    SameLedger(Insert(s.cache, addr, ino, parent), Owed(l)[addr := 2], l');
  }

  lemma LookupInv(s: State, parent: int, ino: nat, addr: int)
    requires Inv(s) && At(s.ledger.holds, parent) > 0 && addr !in s.cache.parent && addr != 0
    ensures Inv(LookupStep(s, parent, ino, addr))
  {
    hide Inv, Find, GetRef, Insert;
    var id := Find(s.cache, ino);
    HeldIsCached(s, parent);
    if id != 0 && id in s.cache.refs {
      FoundInv(s, id);
    } else if id == 0 {
      MissedInv(s, parent, ino, addr);
    }
  }

  lemma NotCached(s: State, addr: int)
    requires Inv(s) && addr !in s.cache.parent
    ensures addr != ROOT && At(Owed(s.ledger), addr) == 0
  {
    hide Owed, Kids;
  }

  lemma StepInv(s: State, e: Event)
    requires Inv(s)
    ensures Inv(Step(s, e))
  {
    hide Inv, LookupStep, PutRef, GetRef, Pin;
    var l := s.ledger;
    if Enabled(s, e) && !e.FindOrInsert? {
      HeldIsCached(s, e.id);
    }
    if Enabled(s, e) {
      match e
      case Get(id) => GetInv(s, id, l.(holds := Bump(l.holds, id)));
      case FindOrInsert(parent, ino, addr) => LookupInv(s, parent, ino, addr);
      case Put(id) => PutInv(s, id, 1, l.(holds := Less(l.holds, id, 1)));
      case Forget(id, n) => PutInv(s, id, n + 1, l.(holds := Less(l.holds, id, 1), lookups := Less(l.lookups, id, n)));
      case SetAttr(id) => PinInv(s, id);
      case Open(id) =>
        GetInv(s, id, l.(holds := Less(l.holds, id, 1), leaks := Bump(l.leaks, id), opens := Bump(l.opens, id)));
      case Release(id) =>
        PutInv(s, id, 2, l.(holds := Less(l.holds, id, 1), opens := Less(l.opens, id, 1)));
    }
  }

  lemma PinInv(s: State, id: int)
    requires Inv(s) && id in s.cache.refs
    ensures Inv(State(Pin(s.cache, id), s.ledger))
  {
    hide WellFormed, Balanced, Owed;
    PinKeeps(s.cache, Owed(s.ledger), id);
  }

  lemma StartInv()
    ensures Inv(Start())
  {
    var c := Start().cache;
    assert Kids(c.parent, ROOT) == {};
    OwedAll(Start().ledger);
  }

  lemma {:induction false} RunInv(es: seq<Event>)
    ensures Inv(Run(Start(), es))
    decreases |es|
  {
    hide Inv, Step, Start;
    if es == [] {
      StartInv();
    } else {
      RunInv(es[..|es| - 1]);
      StepInv(Run(Start(), es[..|es| - 1]), es[|es| - 1]);
    }
  }

  /**
   Over every interleaving of requests: each inode number is cached at most once, every parent
   is cached, every count is exactly what is owed plus the cached children, and nothing that the
   kernel or a handler refers to has been freed.
   */
  lemma EveryRunIsAccounted(es: seq<Event>)
    ensures var s := Run(Start(), es);
      && (forall k, m :: k in s.cache.ino && m in s.cache.ino && s.cache.ino[k] == s.cache.ino[m] ==> k == m)
      && (forall i :: 0 <= i < |s.cache.order| ==> s.cache.order[i] in s.cache.parent)
      && (forall i :: 0 <= i < |s.cache.order| ==> s.cache.parent[s.cache.order[i]] in s.cache.refs)
      && (forall k :: k in s.cache.refs ==>
            s.cache.refs[k] == Total(s.ledger, k) + |Kids(s.cache.parent, k)| + (if k == ROOT then 2 else 0))
      && (forall k :: Known(s.ledger, k) || At(s.ledger.holds, k) > 0 ==> k in s.cache.refs)
  {
    RunInv(es);
    var s := Run(Start(), es);
    hide Run, Kids;
    OwedAll(s.ledger);
    hide Owed;
    assert forall i :: 0 <= i < |s.cache.order| ==> s.cache.order[i] in s.cache.parent && s.cache.order[i] != ROOT;
  }

  // ---------- what stays when nobody refers to anything ----------

  ghost predicate Quiet(l: Ledger) {
    forall k :: At(l.lookups, k) == 0 && At(l.holds, k) == 0 && At(l.opens, k) == 0
  }

  /** The ancestor `steps` levels up. */
  function Climb(parent: map<int, int>, from: int, steps: nat): int {
    if steps == 0 then from
    else var below := Climb(parent, from, steps - 1); if below in parent then parent[below] else 0
  }

  predicate HasKid(c: Cache, id: int, j: int) {
    0 <= j < |c.order| && c.order[j] in c.parent && c.parent[c.order[j]] == id
  }

  /** Only inodes in the list are children, and children come before their parents. */
  lemma KidsInList(c: Cache, i: nat)
    requires WellFormed(c) && i < |c.order|
    ensures (forall j :: !HasKid(c, c.order[i], j)) ==> Kids(c.parent, c.order[i]) == {}
    ensures forall j :: HasKid(c, c.order[i], j) ==> j < i
  {
    hide Distinct;
    forall k | k in Kids(c.parent, c.order[i])
      ensures exists j :: HasKid(c, c.order[i], j)
    {
      assert k != ROOT && k in c.order;
      var j :| 0 <= j < |c.order| && c.order[j] == k;
      assert HasKid(c, c.order[i], j);
    }
  }

  /** Pinned by an attribute change, or with a reference that no release gives back. */
  ghost predicate Kept(s: State, w: int) {
    w in s.cache.pinned || At(s.ledger.leaks, w) > 0
  }

  /** Every inode still cached in a quiet state is, or is above, one that is kept. */
  lemma {:induction false} QuietReason(s: State, i: nat) returns (w: int, steps: nat)
    requires Inv(s) && Quiet(s.ledger) && i < |s.cache.order|
    ensures Kept(s, w) && w in s.cache.refs && Climb(s.cache.parent, w, steps) == s.cache.order[i]
    decreases i
  {
    hide Rooted, Numbered, Ordered;
    var id := s.cache.order[i];
    OwedAt(s.ledger, id);
    KidsInList(s.cache, i);
    if j :| HasKid(s.cache, id, j) {
      hide Owed, Kids, Balanced;
      w, steps := QuietReason(s, j);
      steps := steps + 1;
    } else {
      hide Owed;
      w, steps := id, 0;
    }
  }

  lemma KeptIsCached(s: State, w: int)
    requires Inv(s) && Kept(s, w)
    ensures w in s.cache.refs
  {
    OwedAt(s.ledger, w);
    hide Owed, Kids;
  }

  /** Climbing from a cached inode stays in the cache until it leaves the root. */
  lemma {:induction false} ClimbCached(c: Cache, w: int, steps: nat)
    requires WellFormed(c) && w in c.refs
    ensures var k := Climb(c.parent, w, steps); k == 0 || k in c.refs
    decreases steps
  {
    hide Numbered, Ordered, Distinct;
    if steps > 0 {
      ClimbCached(c, w, steps - 1);
    }
  }

  ghost predicate AtOrAboveKept(s: State, k: int) {
    k != 0 && exists w, steps: nat :: Kept(s, w) && Climb(s.cache.parent, w, steps) == k
  }

  /**
   When nobody refers to anything, over every run: exactly the root, and what is at or above a
   pinned inode or one that was ever opened, is still cached.
   */
  lemma QuietExact(es: seq<Event>, k: int)
    requires Quiet(Run(Start(), es).ledger)
    ensures var s := Run(Start(), es); k in s.cache.refs <==> k == ROOT || AtOrAboveKept(s, k)
  {
    hide Run;
    var s := Run(Start(), es);
    RunInv(es);
    CachedIsListed(s.cache, k);
    hide Inv, Kept, Climb;
    if k in s.cache.refs && k != ROOT {
      var i :| 0 <= i < |s.cache.order| && s.cache.order[i] == k;
      var w, steps := QuietReason(s, i);
    }
    if AtOrAboveKept(s, k) {
      var w, steps: nat :| Kept(s, w) && Climb(s.cache.parent, w, steps) == k;
      KeptIsCached(s, w);
      WellFormedInv(s);
      ClimbCached(s.cache, w, steps);
    }
  }

  lemma WellFormedInv(s: State)
    requires Inv(s)
    ensures WellFormed(s.cache)
  {
  }

  lemma CachedIsListed(c: Cache, k: int)
    requires WellFormed(c)
    ensures ROOT in c.refs && (k in c.refs && k != ROOT ==> k != 0 && k in c.order)
  {
    hide Numbered, Ordered, Distinct;
  }

  // ---------- when the cache drains ----------

  /** The step makes something stay: it opens a file or changes attributes. */
  ghost predicate Keeps(s: State, e: Event) {
    Enabled(s, e) && (e.Open? || e.SetAttr?)
  }

  ghost predicate KeepsAt(es: seq<Event>, i: int) {
    0 <= i < |es| && Keeps(Run(Start(), es[..i]), es[i])
  }

  lemma KeepsBefore(es: seq<Event>, i: int)
    requires es != []
    ensures var last, rest := |es| - 1, es[..|es| - 1];
      KeepsAt(es, i) <==> if i == last then Keeps(Run(Start(), rest), es[last]) else KeepsAt(rest, i)
  {
    hide Keeps, Run;
    var last, rest := |es| - 1, es[..|es| - 1];
    if 0 <= i < last {
      assert rest[..i] == es[..i] && rest[i] == es[i];
    }
  }

  lemma {:induction false} PutPins(c: Cache, id: int, n: nat)
    ensures PutRef(c, id, n).pinned == c.pinned
    decreases |c.order|
  {
    if id in c.refs && c.refs[id] >= n && Dies(c, id, n) && id in c.order && id in c.parent {
      PutPins(Drop(c, id), c.parent[id], 1);
    }
  }

  /** Steps that keep nothing leave the kept ones alone; the others add to them. */
  lemma KeptNext(s: State, e: Event)
    requires Inv(s)
    ensures var t := Step(s, e);
      && s.cache.pinned <= t.cache.pinned && (forall w :: Kept(s, w) ==> Kept(t, w))
      && (Keeps(s, e) ==> Kept(t, e.id))
      && (!Keeps(s, e) ==> t.cache.pinned == s.cache.pinned && t.ledger.leaks == s.ledger.leaks)
  {
    if e.Open? && Enabled(s, e) {
      HeldIsCached(s, e.id);
    }
    if e.Put? || e.Forget? || e.Release? {
      PutPins(s.cache, e.id, if e.Put? then 1 else if e.Forget? then e.nlookup + 1 else 2);
    }
    hide Inv, Find, PutRef, Known;
  }

  ghost predicate SomeKept(s: State) {
    exists w :: Kept(s, w)
  }

  ghost predicate SomeKeep(es: seq<Event>) {
    exists i :: KeepsAt(es, i)
  }

  lemma SomeKeptNext(s: State, e: Event)
    requires Inv(s)
    ensures SomeKept(Step(s, e)) <==> SomeKept(s) || Keeps(s, e)
  {
    KeptNext(s, e);
    var t := Step(s, e);
    hide Step, Keeps, Inv;
    if SomeKept(s) {
      var w :| Kept(s, w);
      assert Kept(t, w);
    } else if !Keeps(s, e) {
      assert forall w :: Kept(t, w) ==> Kept(s, w);
    }
  }

  lemma SomeKeepNext(es: seq<Event>)
    requires es != []
    ensures var last, rest := |es| - 1, es[..|es| - 1];
      SomeKeep(es) <==> SomeKeep(rest) || Keeps(Run(Start(), rest), es[last])
  {
    var last, rest := |es| - 1, es[..|es| - 1];
    assert !KeepsAt(rest, last);
    hide Keeps, KeepsAt, Run;
    KeepsBefore(es, last);
    if i :| KeepsAt(rest, i) {
      KeepsBefore(es, i);
    }
    if i :| KeepsAt(es, i) {
      KeepsBefore(es, i);
    }
  }

  /** Something is kept after a run exactly when some step kept something. */
  lemma {:induction false} KeptExact(es: seq<Event>)
    ensures SomeKept(Run(Start(), es)) <==> SomeKeep(es)
    decreases |es|
  {
    if es == [] {
      assert forall w :: !Kept(Start(), w);
    } else {
      hide Step, Keeps, Inv, SomeKept, SomeKeep;
      var last, rest := |es| - 1, es[..|es| - 1];
      KeptExact(rest);
      RunInv(rest);
      SomeKeptNext(Run(Start(), rest), es[last]);
      SomeKeepNext(es);
    }
  }

  lemma OnlyRoot(s: State)
    requires Inv(s) && s.cache.order == [] && s.cache.pinned == {} && Total(s.ledger, ROOT) == 0
    ensures s.cache == Start().cache
  {
    var c := s.cache;
    OwedAt(s.ledger, ROOT);
    hide Owed, Total;
    forall k | k in c.parent
      ensures k == ROOT
    {
      assert k != ROOT ==> k in c.order;
    }
    assert c.parent.Keys == {ROOT};
    assert Kids(c.parent, ROOT) == {};
    assert c.parent == map[ROOT := 0] && c.ino == map[ROOT := 1] && c.refs == map[ROOT := 2];
  }

  /** Forgetting every lookup empties the cache if and only if nothing was ever opened or had its attributes changed. */
  lemma ForgettingDrains(es: seq<Event>)
    requires Quiet(Run(Start(), es).ledger)
    ensures Run(Start(), es).cache == Start().cache <==> forall i :: !KeepsAt(es, i)
  {
    hide Run, KeepsAt;
    var s := Run(Start(), es);
    RunInv(es);
    KeptExact(es);
    if forall i :: !KeepsAt(es, i) {
      hide Inv;
      if s.cache.order != [] {
        var w, steps := QuietReason(s, 0);
        assert false;
      }
      NothingLeaks(s);
      OnlyRoot(s);
    } else {
      var w :| Kept(s, w);
      NotDrained(s, w);
    }
  }

  lemma NothingLeaks(s: State)
    requires Quiet(s.ledger) && forall w :: !Kept(s, w)
    ensures Total(s.ledger, ROOT) == 0 && s.cache.pinned == {}
  {
    assert !Kept(s, ROOT);
    forall w
      ensures w !in s.cache.pinned
    {
      assert !Kept(s, w);
    }
  }

  lemma NotDrained(s: State, w: int)
    requires Inv(s) && Kept(s, w)
    ensures s.cache != Start().cache
  {
    KeptIsCached(s, w);
    OwedAt(s.ledger, w);
    hide Owed, WellFormed;
  }

  // ---------- what requests do to the ledger and the cache, written out ----------

  /** The ledgers differ only at `id`, by these amounts. */
  ghost predicate Changed(l: Ledger, m: Ledger, id: int, lookups: int, opens: int, leaks: int) {
    forall k ::
      && At(m.lookups, k) == At(l.lookups, k) + (if k == id then lookups else 0)
      && At(m.opens, k) == At(l.opens, k) + (if k == id then opens else 0)
      && At(m.leaks, k) == At(l.leaks, k) + (if k == id then leaks else 0)
      && At(m.holds, k) == At(l.holds, k)
  }

  lemma GetKnown(s: State, id: int)
    requires Inv(s) && Known(s.ledger, id)
    ensures id in s.cache.refs && s.cache.refs[id] >= 1
    ensures Step(s, Get(id)) == State(GetRef(s.cache, id), s.ledger.(holds := Bump(s.ledger.holds, id)))
  {
    HeldIsCached(s, id);
    hide Inv, Find, PutRef, LookupStep;
  }

  /** Dropping `n + 1` references of an inode that has just got one more. */
  lemma DropMany(c: Cache, id: int, n: nat)
    requires WellFormed(c) && id in c.refs && c.refs[id] >= n
    ensures var d := PutRef(GetRef(c, id), id, n + 1);
      if c.refs[id] == n && id !in c.pinned && id != ROOT then id !in d.refs
      else d == c.(refs := c.refs[id := c.refs[id] - n])
  {
    var up := GetRef(c, id);
    RootNumber(c, id);
    if Dies(up, id, n + 1) {
      GetRefWellFormed(c, id);
      PutGone(up, id, n + 1);
    } else {
      hide WellFormed, Dies;
      assert up.refs[id := up.refs[id] - (n + 1)] == c.refs[id := c.refs[id] - n];
    }
  }

  lemma RootNumber(c: Cache, id: int)
    requires WellFormed(c) && id in c.refs
    ensures id in c.ino && (c.ino[id] == 1 <==> id == ROOT)
  {
    hide Rooted, Ordered, Distinct;
  }

  lemma GetRefWellFormed(c: Cache, id: int)
    requires WellFormed(c) && id in c.refs
    ensures WellFormed(GetRef(c, id))
  {
    assert GetRef(c, id).refs.Keys == c.refs.Keys;
    hide Distinct;
  }

  /** An inode that dies does not come back in the rest of the cascade. */
  lemma PutGone(c: Cache, id: int, n: nat)
    requires WellFormed(c) && Dies(c, id, n)
    ensures id !in PutRef(c, id, n).refs
  {
    hide WellFormed;
    DyingIsListed(c, id, n);
    PutOnlyDrops(Drop(c, id), c.parent[id], 1);
    assert PutRef(c, id, n) == PutRef(Drop(c, id), c.parent[id], 1);
    assert id !in Drop(c, id).refs.Keys;
  }

  lemma DyingIsListed(c: Cache, id: int, n: nat)
    requires WellFormed(c) && Dies(c, id, n)
    ensures id in c.order && id in c.parent && id != ROOT
  {
    hide Rooted, Ordered, Distinct;
  }

  lemma {:induction false} PutOnlyDrops(c: Cache, id: int, n: nat)
    ensures PutRef(c, id, n).refs.Keys <= c.refs.Keys
    decreases |c.order|
  {
    if id in c.refs && c.refs[id] >= n && Dies(c, id, n) && id in c.order && id in c.parent {
      PutOnlyDrops(Drop(c, id), c.parent[id], 1);
    }
  }

  lemma BumpLess(m: map<int, nat>, id: int)
    ensures forall k :: At(Less(Bump(m, id), id, 1), k) == At(m, k)
  {
  }

  lemma LessAt(m: map<int, nat>, id: int, n: nat)
    requires n <= At(m, id)
    ensures forall k :: At(Less(m, id, n), k) == At(m, k) - (if k == id then n else 0)
  {
  }

  lemma BumpAt(m: map<int, nat>, id: int)
    ensures forall k :: At(Bump(m, id), k) == At(m, k) + (if k == id then 1 else 0)
  {
  }

  lemma HeldNow(s: State, id: int)
    requires Inv(s) && Known(s.ledger, id)
    ensures var t := Step(s, Get(id));
      && At(t.ledger.holds, id) > 0 && id in t.cache.refs
      && t.ledger == s.ledger.(holds := Bump(s.ledger.holds, id)) && t.cache == GetRef(s.cache, id)
  {
    GetKnown(s, id);
    hide Inv, Step, Known;
  }

  lemma ForgetStep(s: State, id: int, n: nat)
    requires At(s.ledger.holds, id) > 0 && At(s.ledger.lookups, id) >= n
    ensures var l := s.ledger;
      Step(s, Forget(id, n)) == State(PutRef(s.cache, id, n + 1),
                                      l.(holds := Less(l.holds, id, 1), lookups := Less(l.lookups, id, n)))
  {
    hide PutRef, LookupStep;
  }

  /**
   A forget takes exactly the forgotten lookups from the ledger and from the count; an inode that
   had no other reference, is not pinned and is not the root leaves the cache.
   */
  lemma ForgetExact(s: State, id: int, n: nat)
    requires Inv(s) && Known(s.ledger, id) && n <= At(s.ledger.lookups, id)
    ensures id in s.cache.refs && s.cache.refs[id] >= n
    ensures var t := Step(Step(s, Get(id)), Forget(id, n));
      && Changed(s.ledger, t.ledger, id, 0 - n, 0, 0)
      && (if s.cache.refs[id] == n && id !in s.cache.pinned && id != ROOT then id !in t.cache.refs
          else t.cache == s.cache.(refs := s.cache.refs[id := s.cache.refs[id] - n]))
  {
    hide Inv, Step, PutRef, GetRef, Known, Bump, Less, WellFormed;
    GetKnown(s, id);
    HeldNow(s, id);
    WellFormedInv(s);
    RefsCover(s, id);
    DropMany(s.cache, id, n);
    ForgetStep(Step(s, Get(id)), id, n);
    BumpLess(s.ledger.holds, id);
    LessAt(s.ledger.lookups, id, n);
  }

  lemma RefsCover(s: State, id: int)
    requires Inv(s) && id in s.cache.refs
    ensures s.cache.refs[id] >= Total(s.ledger, id)
  {
    OwedAt(s.ledger, id);
    hide Owed, Kids, WellFormed;
  }

  lemma OpenStep(s: State, id: int)
    requires At(s.ledger.holds, id) > 0 && id in s.cache.refs
    ensures var l := s.ledger;
      Step(s, Open(id)) ==
      State(GetRef(s.cache, id),
            l.(holds := Less(l.holds, id, 1), leaks := Bump(l.leaks, id), opens := Bump(l.opens, id)))
  {
    hide PutRef, LookupStep;
  }

  lemma OpenExact(s: State, id: int)
    requires Inv(s) && Known(s.ledger, id)
    ensures id in s.cache.refs
    ensures var t := Step(Step(s, Get(id)), Open(id));
      && Changed(s.ledger, t.ledger, id, 0, 1, 1)
      && t.cache == s.cache.(refs := s.cache.refs[id := s.cache.refs[id] + 2])
  {
    hide Inv, Step, PutRef, Known, Bump, Less;
    GetKnown(s, id);
    HeldNow(s, id);
    OpenStep(Step(s, Get(id)), id);
    BumpLess(s.ledger.holds, id);
    BumpAt(s.ledger.leaks, id);
    BumpAt(s.ledger.opens, id);
    SetTwice(s.cache.refs, id, s.cache.refs[id] + 1, s.cache.refs[id] + 2);
  }

  lemma ReleaseStep(s: State, id: int)
    requires At(s.ledger.holds, id) > 0 && At(s.ledger.opens, id) > 0
    ensures var l := s.ledger;
      Step(s, Release(id)) ==
      State(PutRef(s.cache, id, 2), l.(holds := Less(l.holds, id, 1), opens := Less(l.opens, id, 1)))
  {
    hide PutRef, LookupStep;
  }

  lemma ReleaseExact(s: State, id: int)
    requires Inv(s) && At(s.ledger.opens, id) > 0
    ensures id in s.cache.refs && s.cache.refs[id] >= 1
    ensures var t := Step(Step(s, Get(id)), Release(id));
      && Changed(s.ledger, t.ledger, id, 0, -1, 0)
      && (if s.cache.refs[id] == 1 && id !in s.cache.pinned && id != ROOT then id !in t.cache.refs
          else t.cache == s.cache.(refs := s.cache.refs[id := s.cache.refs[id] - 1]))
  {
    hide Inv, Step, PutRef, GetRef, Bump, Less, WellFormed;
    GetKnown(s, id);
    HeldNow(s, id);
    WellFormedInv(s);
    DropMany(s.cache, id, 1);
    ReleaseStep(Step(s, Get(id)), id);
    BumpLess(s.ledger.holds, id);
    LessAt(s.ledger.opens, id, 1);
  }

  lemma SetAttrExact(s: State, id: int)
    requires Inv(s) && Known(s.ledger, id)
    ensures id in s.cache.refs
    ensures var t := Step(Step(Step(s, Get(id)), SetAttr(id)), Put(id));
      && Changed(s.ledger, t.ledger, id, 0, 0, 0) && t.cache == s.cache.(pinned := s.cache.pinned + {id})
  {
    GetKnown(s, id);
    hide Inv, LookupStep, Known, Find;
    var up := State(Pin(GetRef(s.cache, id), id), s.ledger.(holds := Bump(s.ledger.holds, id)));
    assert Step(Step(s, Get(id)), SetAttr(id)) == up;
    assert id in up.cache.pinned && !Dies(up.cache, id, 1);
    assert up.cache.refs[id := up.cache.refs[id] - 1] == s.cache.refs;
  }

  lemma PutAgainExact(s: State, id: int)
    requires Inv(s) && Known(s.ledger, id)
    ensures var t := Step(Step(s, Get(id)), Put(id)); Changed(s.ledger, t.ledger, id, 0, 0, 0) && t.cache == s.cache
  {
    GetKnown(s, id);
    hide Inv, LookupStep, Known, Find;
    var up := GetRef(s.cache, id);
    assert !Dies(up, id, 1);
    assert up.refs[id := up.refs[id] - 1] == s.cache.refs;
  }

  // ---------- the kernel can always forget ----------

  lemma {:induction false} RunConcat(s: State, es: seq<Event>, fs: seq<Event>)
    ensures Run(s, es + fs) == Run(Run(s, es), fs)
    decreases |fs|
  {
    hide Step;
    if fs == [] {
      assert es + fs == es;
    } else {
      assert (es + fs)[..|es + fs| - 1] == es + fs[..|fs| - 1];
      RunConcat(s, es, fs[..|fs| - 1]);
    }
  }

  lemma RunTwo(s: State, a: Event, b: Event)
    ensures Run(s, [a, b]) == Step(Step(s, a), b)
  {
    hide Step;
    assert [a, b][..1] == [a] && [a][..0] == [];
    assert Run(s, [a]) == Step(s, a);
  }

  /** Inodes with lookups that are not forgotten. */
  function Remembered(l: Ledger): set<int> {
    set k | k in l.lookups && l.lookups[k] > 0
  }

  ghost predicate AtRest(l: Ledger) {
    forall k :: At(l.holds, k) == 0 && At(l.opens, k) == 0
  }

  lemma ForgetOne(s: State, id: int)
    requires Inv(s) && AtRest(s.ledger) && id in Remembered(s.ledger)
    ensures var t := Run(s, [Get(id), Forget(id, At(s.ledger.lookups, id))]);
      && Inv(t) && AtRest(t.ledger) && Remembered(t.ledger) == Remembered(s.ledger) - {id}
  {
    hide Inv, Step, Run;
    var n := At(s.ledger.lookups, id);
    ForgetExact(s, id, n);
    RunTwo(s, Get(id), Forget(id, n));
    StepInv(s, Get(id));
    StepInv(Step(s, Get(id)), Forget(id, n));
    var l, m := s.ledger, Step(Step(s, Get(id)), Forget(id, n)).ledger;
    forall k
      ensures k in Remembered(m) <==> k in Remembered(l) && k != id
    {
      assert At(m.lookups, k) == At(l.lookups, k) - (if k == id then n else 0);
    }
  }

  /** From every state without requests in progress and open files, forgetting what was looked up leads to rest. */
  lemma {:induction false} ForgetEverything(s: State) returns (es: seq<Event>)
    requires Inv(s) && AtRest(s.ledger)
    ensures Quiet(Run(s, es).ledger)
    ensures forall i :: 0 <= i < |es| ==> es[i].Get? || es[i].Forget?
    decreases |Remembered(s.ledger)|
  {
    hide Inv, Step;
    if id :| id in Remembered(s.ledger) {
      var two := [Get(id), Forget(id, At(s.ledger.lookups, id))];
      ForgetOne(s, id);
      Fewer(Remembered(s.ledger), id);
      var rest := ForgetEverything(Run(s, two));
      RunConcat(s, two, rest);
      es := two + rest;
    } else {
      es := [];
      assert forall k :: At(s.ledger.lookups, k) > 0 ==> k in Remembered(s.ledger);
    }
  }

  lemma Fewer(s: set<int>, x: int)
    requires x in s
    ensures |s - {x}| < |s|
  {
  }

  lemma {:induction false} StillNothingKept(es: seq<Event>, fs: seq<Event>, i: int)
    requires (forall j :: !KeepsAt(es, j)) && forall j :: 0 <= j < |fs| ==> fs[j].Get? || fs[j].Forget?
    ensures !KeepsAt(es + fs, i)
  {
    var all := es + fs;
    if 0 <= i < |es| {
      assert all[i] == es[i] && all[..i] == es[..i];
      assert !KeepsAt(es, i);
    } else if |es| <= i < |all| {
      assert all[i] == fs[i - |es|];
    }
    hide Run, Enabled;
  }

  /**
   After every run in which nothing was opened or had its attributes changed, and which has no
   request in progress, forgetting what was looked up empties the cache.
   */
  lemma CacheCanDrain(es: seq<Event>) returns (fs: seq<Event>)
    requires AtRest(Run(Start(), es).ledger) && forall i :: !KeepsAt(es, i)
    ensures Run(Start(), es + fs).cache == Start().cache
    ensures forall i :: 0 <= i < |fs| ==> fs[i].Get? || fs[i].Forget?
  {
    hide Run, KeepsAt, Inv;
    RunInv(es);
    fs := ForgetEverything(Run(Start(), es));
    RunConcat(Start(), es, fs);
    forall i
      ensures !KeepsAt(es + fs, i)
    {
      StillNothingKept(es, fs, i);
    }
    ForgettingDrains(es + fs);
  }

  // ---------- opens ----------

  lemma {:induction false} LeaksStay(s: State, es: seq<Event>, id: int)
    ensures At(Run(s, es).ledger.leaks, id) >= At(s.ledger.leaks, id)
    decreases |es|
  {
    if es != [] {
      LeaksStay(s, es[..|es| - 1], id);
      hide Enabled, Find, PutRef;
    }
  }

  lemma {:induction false} RunFrom(s: State, es: seq<Event>)
    requires Inv(s)
    ensures Inv(Run(s, es))
    decreases |es|
  {
    hide Inv, Step;
    if es != [] {
      RunFrom(s, es[..|es| - 1]);
      StepInv(Run(s, es[..|es| - 1]), es[|es| - 1]);
    }
  }

  /** An inode that was opened once is never freed, whatever is released and forgotten later. */
  lemma OpenedStays(s: State, id: int, es: seq<Event>)
    requires Inv(s) && At(s.ledger.holds, id) > 0
    ensures id in Run(Step(s, Open(id)), es).cache.refs
  {
    var t := Step(s, Open(id));
    HeldIsCached(s, id);
    assert At(t.ledger.leaks, id) > 0;
    StepInv(s, Open(id));
    hide Step;
    LeaksStay(t, es, id);
    RunFrom(t, es);
    hide Run;
    OwedAt(Run(t, es).ledger, id);
    hide Owed, Kids;
  }

  /** Open and release of a known inode leave it with one reference more than before. */
  lemma OpenReleaseLeaksOne(s: State, id: int)
    requires Inv(s) && Known(s.ledger, id)
    ensures id in s.cache.refs
    ensures var t := Step(Step(Step(Step(s, Get(id)), Open(id)), Get(id)), Release(id));
      t.cache == GetRef(s.cache, id) && t.ledger.leaks == Bump(s.ledger.leaks, id)
  {
    HeldIsCached(s, id);
    var mid := Step(Step(s, Get(id)), Open(id));
    OpenAdds(s, id);
    hide Step, Inv, Known, Find;
    ReleaseTakes(mid, id);
    SetTwice(s.cache.refs, id, s.cache.refs[id] + 2, s.cache.refs[id] + 1);
  }

  lemma SetTwice(refs: map<int, nat>, id: int, n: nat, m: nat)
    ensures refs[id := n][id := m] == refs[id := m]
  {
  }

  lemma OpenAdds(s: State, id: int)
    requires Known(s.ledger, id) && id in s.cache.refs && s.cache.refs[id] >= 1
    ensures var t := Step(Step(s, Get(id)), Open(id));
      && t.cache == s.cache.(refs := s.cache.refs[id := s.cache.refs[id] + 2])
      && t.ledger.leaks == Bump(s.ledger.leaks, id) && At(t.ledger.opens, id) > 0
  {
    hide Find, PutRef, LookupStep;
  }

  lemma ReleaseTakes(s: State, id: int)
    requires At(s.ledger.opens, id) > 0 && id in s.cache.refs && s.cache.refs[id] >= 2
    ensures var t := Step(Step(s, Get(id)), Release(id));
      t.cache == s.cache.(refs := s.cache.refs[id := s.cache.refs[id] - 1]) && t.ledger.leaks == s.ledger.leaks
  {
    hide Find, LookupStep;
    var c := Step(s, Get(id)).cache;
    assert c == s.cache.(refs := s.cache.refs[id := s.cache.refs[id] + 1]);
    assert !Dies(c, id, 2);
    assert c.refs[id := c.refs[id] - 2] == s.cache.refs[id := s.cache.refs[id] - 1];
  }
}
