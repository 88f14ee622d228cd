/** The request handlers of the FUSE daemon that take and drop references (src/famfs_fused.c). */
module Handlers {
  import opened Inodes
  import opened ICache
  import opened Daemon

  class FamfsCtx {
    const icache: InodeCache
    ghost var ledger: Ledger

    ghost function Now(): State
      reads this, icache
    {
      State(icache.model, ledger)
    }

    ghost predicate Ready()
      reads this, icache, icache.nodes
    {
      icache.Valid() && Inv(Now())
    }

    constructor ()
      ensures Ready() && Now() == Start()
    {
      icache := new InodeCache();
      ledger := Ledger(map[], map[], map[], map[]);
      new;
      StartInv();
    }

    /** famfs_get_inode_from_nodeid; the pointer is what the kernel was given as nodeid. */
    method Get(inode: Inode) returns (r: Inode?)
      requires Ready() && inode in icache.nodes && Known(ledger, inode.nodeid)
      modifies this`ledger, icache`model, inode`refcount
      ensures Ready() && r == inode && Now() == Step(old(Now()), Event.Get(inode.nodeid))
      ensures ledger == old(ledger).(holds := Bump(old(ledger).holds, inode.nodeid))
      ensures icache.model.parent == old(icache.model.parent)
    {
      hide Inv, icache.Valid;
      icache.Reads(inode);
      HeldIsCached(Now(), inode.nodeid);
      StepInv(Now(), Event.Get(inode.nodeid));
      if inode.icache != icache || inode.refcount < 1 {
        return null;
      }
      icache.SetRefs(inode, inode.refcount + 1);
      ledger := ledger.(holds := Bump(ledger.holds, inode.nodeid));
      return inode;
    }

    /** famfs_inode_putref */
    method Put(inode: Inode)
      requires Ready() && inode in icache.nodes && At(ledger.holds, inode.nodeid) > 0
      modifies this`ledger, icache, icache.nodes
      ensures Ready() && Now() == Step(old(Now()), Event.Put(inode.nodeid))
      ensures ledger == old(ledger).(holds := Less(old(ledger).holds, inode.nodeid, 1))
      ensures icache.nodes <= old(icache.nodes)
      ensures forall o :: o in old(icache.nodes) && o.nodeid in icache.model.refs ==> o in icache.nodes
    {
      hide Inv, icache.Valid;
      Owing(Now(), inode.nodeid);
      StepInv(Now(), Event.Put(inode.nodeid));
      icache.PutRefLocked(inode, 1, Owed(ledger));
      ledger := ledger.(holds := Less(ledger.holds, inode.nodeid, 1));
    }

    /** famfs_icache_unref_inode, of the lookups that the kernel forgets and of the handler's own reference. */
    method Unref(inode: Inode, nlookup: nat)
      requires Ready() && inode in icache.nodes && At(ledger.holds, inode.nodeid) > 0
      requires nlookup <= At(ledger.lookups, inode.nodeid)
      modifies this`ledger, icache, icache.nodes
      ensures Ready() && Now() == Step(old(Now()), Event.Forget(inode.nodeid, nlookup))
    {
      hide Inv, icache.Valid;
      Owing(Now(), inode.nodeid);
      StepInv(Now(), Event.Forget(inode.nodeid, nlookup));
      icache.PutRefLocked(inode, nlookup + 1, Owed(ledger));
      ledger := ledger.(holds := Less(ledger.holds, inode.nodeid, 1),
                        lookups := Less(ledger.lookups, inode.nodeid, nlookup));
    }

    method PinHeld(inode: Inode)
      requires Ready() && inode in icache.nodes && At(ledger.holds, inode.nodeid) > 0
      modifies icache`model, inode`pinned
      ensures Ready() && Now() == Step(old(Now()), Event.SetAttr(inode.nodeid))
    {
      hide Inv, icache.Valid;
      Owing(Now(), inode.nodeid);
      StepInv(Now(), Event.SetAttr(inode.nodeid));
      icache.SetPinned(inode, Owed(ledger));
    }

    method OpenHeld(inode: Inode)
      requires Ready() && inode in icache.nodes && At(ledger.holds, inode.nodeid) > 0
      modifies this`ledger, icache`model, inode`refcount
      ensures Ready() && Now() == Step(old(Now()), Event.Open(inode.nodeid))
    {
      hide Inv, icache.Valid;
      icache.Reads(inode);
      ghost var id := inode.nodeid;
      StepInv(Now(), Event.Open(id));
      icache.SetRefs(inode, inode.refcount + 1);
      ledger := ledger.(holds := Less(ledger.holds, id, 1), leaks := Bump(ledger.leaks, id),
                        opens := Bump(ledger.opens, id));
    }

    method ReleaseHeld(inode: Inode)
      requires Ready() && inode in icache.nodes
      requires At(ledger.holds, inode.nodeid) > 0 && At(ledger.opens, inode.nodeid) > 0
      modifies this`ledger, icache, icache.nodes
      ensures Ready() && Now() == Step(old(Now()), Event.Release(inode.nodeid))
    {
      hide Inv, icache.Valid;
      Owing(Now(), inode.nodeid);
      StepInv(Now(), Event.Release(inode.nodeid));
      icache.PutRefLocked(inode, 2, Owed(ledger));
      ledger := ledger.(holds := Less(ledger.holds, inode.nodeid, 1), opens := Less(ledger.opens, inode.nodeid, 1));
    }

    /** A found inode gets a second reference. */
    method TakeFound(inode: Inode, ghost s: State, parent: int, ino: nat, addr: int)
      requires icache.Valid() && inode in icache.nodes && ledger == s.ledger && Inv(s)
      requires inode.nodeid == Find(s.cache, ino) && inode.nodeid in s.cache.refs && inode.nodeid != 0
      requires icache.model == GetRef(s.cache, inode.nodeid) && Enabled(s, Event.FindOrInsert(parent, ino, addr))
      modifies this`ledger, icache`model, inode`refcount
      ensures Ready() && Now() == Step(s, Event.FindOrInsert(parent, ino, addr))
      ensures ledger == LookedUp(s.ledger, inode.nodeid)
      ensures icache.model == GetRef(GetRef(s.cache, inode.nodeid), inode.nodeid)
    {
      hide Inv, icache.Valid, Find, Step, Enabled;
      StepInv(s, Event.FindOrInsert(parent, ino, addr));
      FoundStep(s, parent, ino, addr);
      icache.Reads(inode);
      icache.SetRefs(inode, inode.refcount + 1);
      ledger := ledger.(lookups := Bump(ledger.lookups, inode.nodeid), holds := Bump(ledger.holds, inode.nodeid));
    }

    method InsertNew(parent: Inode, ino: nat, addr: int) returns (inode: Inode)
      requires Ready() && parent in icache.nodes && Find(icache.model, ino) == 0
      requires Enabled(Now(), Event.FindOrInsert(parent.nodeid, ino, addr)) && addr !in icache.model.parent && addr != 0
      modifies this`ledger, icache, icache.nodes
      ensures Ready() && Now() == Step(old(Now()), Event.FindOrInsert(parent.nodeid, ino, addr))
      ensures fresh(inode) && inode.nodeid == addr && inode.ino == ino && icache.nodes == old(icache.nodes) + {inode}
      ensures inode.parent == parent && Inserted(old(icache.model), icache.model, addr, ino, parent.nodeid)
      ensures ledger == LookedUp(old(ledger), inode.nodeid)
    {
      hide Inv, icache.Valid, Find, Step, Insert, Owed, Enabled;
      ghost var s := Now();
      StepInv(s, Event.FindOrInsert(parent.nodeid, ino, addr));
      Owing(s, parent.nodeid);
      icache.Reads(parent);
      MissedStep(s, parent.nodeid, ino, addr);
      inode := new Inode(addr, ino, parent, icache);
      icache.InsertLocked(inode, Owed(ledger));
      InsertWrites(s.cache, addr, ino, parent.nodeid);
      ledger := ledger.(lookups := Bump(ledger.lookups, addr), holds := Bump(ledger.holds, addr));
    }

    /** famfs_do_lookup while it has the mutex; `addr` is what calloc returns. */
    method FindOrInsert(parent: Inode, ino: nat, addr: int) returns (inode: Inode)
      requires Ready() && parent in icache.nodes && At(ledger.holds, parent.nodeid) > 0
      requires addr !in icache.model.parent && addr != 0
      modifies this`ledger, icache, icache.nodes
      ensures Ready() && Now() == Step(old(Now()), Event.FindOrInsert(parent.nodeid, ino, addr))
      ensures inode in icache.nodes && inode.ino == ino && old(icache.nodes) <= icache.nodes
      ensures ledger == LookedUp(old(ledger), inode.nodeid)
      ensures fresh(icache.nodes - old(icache.nodes))
      ensures if NumberCached(old(icache.model), ino)
              then inode in old(icache.nodes) && TwiceMore(old(icache.model), icache.model, inode.nodeid)
              else inode.parent == parent && inode.nodeid == addr
                   && Inserted(old(icache.model), icache.model, addr, ino, parent.nodeid)
    {
      hide Inv, icache.Valid, Find, Step, Owed, NumberCached, Inserted, TwiceMore;
      ghost var s := Now();
      NumberFound(s, ino);
      Owing(s, parent.nodeid);
      var found := icache.FindGetLocked(ino, Owed(ledger));
      if found != null {
        inode := found;
        GotTwice(s.cache, inode.nodeid);
        TakeFound(inode, s, parent.nodeid, ino, addr);
      } else {
        inode := InsertNew(parent, ino, addr);
      }
    }

    // ---------- whole requests ----------

    /**
     famfs_do_lookup. `present` is whether the name exists in the shadow tree, with inode number
     `ino`. The kernel is given the inode, with one lookup more.
     */
    method Lookup(parent: Inode, present: bool, ino: nat, addr: int) returns (inode: Inode?)
      requires Ready() && parent in icache.nodes && Known(ledger, parent.nodeid)
      requires addr !in icache.model.parent && addr != 0
      modifies this`ledger, icache, icache.nodes
      ensures Ready() && (inode == null <==> !present)
      ensures var id, s := parent.nodeid, Step(old(Now()), Event.Get(parent.nodeid));
        Now() == if inode == null then Step(s, Event.Put(id))
                 else Step(Step(Step(s, Event.FindOrInsert(id, ino, addr)), Event.Put(id)), Event.Put(inode.nodeid))
      ensures inode != null ==> inode in icache.nodes && inode.ino == ino
      ensures var id := if inode == null then parent.nodeid else inode.nodeid;
        Changed(old(ledger), ledger, id, if inode == null then 0 else 1, 0, 0)
      ensures inode == null ==> icache.model == old(icache.model)
    {
      hide Inv, icache.Valid, Step, Changed, Bump, Less, LookedUp;
      ghost var was := ledger;
      BumpAt(was.holds, parent.nodeid);
      if !present {
        PutAgainExact(Now(), parent.nodeid);
      }
      var p := Get(parent);
      if !present {
        Put(p);
        return null;
      }
      var child := FindOrInsert(p, ino, addr);
      HoldsBoth(was, p.nodeid, child.nodeid);
      Put(p);
      HeldIsCached(Now(), child.nodeid);
      Put(child);
      HeldIsCached(Now(), child.nodeid);
      inode := child;
    }

    /** famfs_forget_one */
    method Forget(nodeid: Inode, nlookup: nat)
      requires Ready() && nodeid in icache.nodes && Known(ledger, nodeid.nodeid)
      requires nlookup <= At(ledger.lookups, nodeid.nodeid)
      modifies this`ledger, icache, icache.nodes
      ensures Ready()
      ensures var id := nodeid.nodeid; Now() == Step(Step(old(Now()), Event.Get(id)), Event.Forget(id, nlookup))
      ensures Changed(old(ledger), ledger, nodeid.nodeid, 0 - nlookup, 0, 0)
      ensures var id, c := nodeid.nodeid, old(icache.model);
        && id in c.refs && c.refs[id] >= nlookup
        && if c.refs[id] == nlookup && id !in c.pinned && id != ROOT then id !in icache.model.refs
           else icache.model == c.(refs := c.refs[id := c.refs[id] - nlookup])
    {
      hide Inv, icache.Valid, Step, Changed;
      ForgetExact(Now(), nodeid.nodeid, nlookup);
      var inode := Get(nodeid);
      Unref(inode, nlookup);
    }

    /** famfs_setattr; a change of size is refused. */
    method SetAttr(nodeid: Inode, truncate: bool) returns (ok: bool)
      requires Ready() && nodeid in icache.nodes && Known(ledger, nodeid.nodeid)
      modifies this`ledger, icache, icache.nodes
      ensures Ready() && ok == !truncate
      ensures var id, s := nodeid.nodeid, Step(old(Now()), Event.Get(nodeid.nodeid));
        Now() == Step(if ok then Step(s, Event.SetAttr(id)) else s, Event.Put(id))
      ensures Changed(old(ledger), ledger, nodeid.nodeid, 0, 0, 0)
      ensures var c := old(icache.model);
        icache.model == if ok then c.(pinned := c.pinned + {nodeid.nodeid}) else c
    {
      hide Inv, icache.Valid, Step, Changed;
      SetAttrExact(Now(), nodeid.nodeid);
      PutAgainExact(Now(), nodeid.nodeid);
      var inode := Get(nodeid);
      ok := !truncate;
      if ok {
        PinHeld(inode);
      }
      Put(inode);
    }

    /** famfs_open */
    method Open(nodeid: Inode)
      requires Ready() && nodeid in icache.nodes && Known(ledger, nodeid.nodeid)
      modifies this`ledger, icache`model, nodeid`refcount
      ensures Ready()
      ensures var id := nodeid.nodeid; Now() == Step(Step(old(Now()), Event.Get(id)), Event.Open(id))
      ensures Changed(old(ledger), ledger, nodeid.nodeid, 0, 1, 1)
      ensures var id, c := nodeid.nodeid, old(icache.model);
        id in c.refs && icache.model == c.(refs := c.refs[id := c.refs[id] + 2])
    {
      hide Inv, icache.Valid, Step, Changed;
      OpenExact(Now(), nodeid.nodeid);
      var inode := Get(nodeid);
      OpenHeld(inode);
    }

    /** famfs_release */
    method Release(nodeid: Inode)
      requires Ready() && nodeid in icache.nodes && At(ledger.opens, nodeid.nodeid) > 0
      modifies this`ledger, icache, icache.nodes
      ensures Ready()
      ensures var id := nodeid.nodeid; Now() == Step(Step(old(Now()), Event.Get(id)), Event.Release(id))
      ensures Changed(old(ledger), ledger, nodeid.nodeid, 0, -1, 0)
      ensures var id, c := nodeid.nodeid, old(icache.model);
        && id in c.refs && c.refs[id] >= 1
        && if c.refs[id] == 1 && id !in c.pinned && id != ROOT then id !in icache.model.refs
           else icache.model == c.(refs := c.refs[id := c.refs[id] - 1])
    {
      hide Inv, icache.Valid, Step, Changed;
      ReleaseExact(Now(), nodeid.nodeid);
      var inode := Get(nodeid);
      ReleaseHeld(inode);
    }
  }

  ghost predicate NumberCached(c: Cache, ino: nat) {
    exists k :: k in c.ino && c.ino[k] == ino
  }

  /** The inode has two references more, and nothing else changed. */
  predicate TwiceMore(c: Cache, d: Cache, id: int) {
    id in c.refs && d == c.(refs := c.refs[id := c.refs[id] + 2])
  }

  /** A new inode with two references, at the head of the list and under its parent, which has one reference more. */
  predicate Inserted(c: Cache, d: Cache, id: int, ino: nat, parent: int) {
    && parent in c.refs && id !in c.refs
    && d == Cache([id] + c.order, c.ino[id := ino], c.parent[id := parent],
                  c.refs[parent := c.refs[parent] + 1][id := 2], c.pinned)
  }

  lemma InsertWrites(c: Cache, id: int, ino: nat, parent: int)
    requires parent in c.refs && id !in c.parent && c.parent.Keys == c.refs.Keys
    ensures Inserted(c, Insert(c, id, ino, parent), id, ino, parent)
  {
  }

  lemma GotTwice(c: Cache, id: int)
    requires id in c.refs
    ensures TwiceMore(c, GetRef(GetRef(c, id), id), id)
  {
    SetTwice(c.refs, id, c.refs[id] + 1, c.refs[id] + 2);
  }

  lemma NumberFound(s: State, ino: nat)
    requires Inv(s)
    ensures Find(s.cache, ino) == 0 <==> !NumberCached(s.cache, ino)
    ensures s.cache.parent.Keys == s.cache.refs.Keys
  {
    WellFormedInv(s);
    var c := s.cache;
    if id :| id in c.ino && c.ino[id] == ino {
      NotZero(c, id);
      FindExact(c, ino, id);
    }
    if Find(c, ino) != 0 {
      FindExact(c, ino, Find(c, ino));
    }
    hide Find, Inv, Numbered, Rooted, Ordered;
  }

  lemma NotZero(c: Cache, id: int)
    requires WellFormed(c) && id in c.ino
    ensures id != 0
  {
    hide Numbered, Ordered, Distinct;
  }

  function LookedUp(l: Ledger, id: int): Ledger {
    l.(lookups := Bump(l.lookups, id), holds := Bump(l.holds, id))
  }

  /** The ledger of a lookup from its parent's reference on: the child is held and known, and in the end known. */
  lemma HoldsBoth(l: Ledger, p: int, c: int)
    ensures var got := LookedUp(l.(holds := Bump(l.holds, p)), c);
      var put := got.(holds := Less(got.holds, p, 1));
      var end := put.(holds := Less(put.holds, c, 1));
      && At(got.holds, p) > 0 && At(put.holds, c) > 0 && At(end.lookups, c) > 0
      && Changed(l, end, c, 1, 0, 0)
  {
    BumpAt(l.holds, p);
    BumpAt(Bump(l.holds, p), c);
    LessAt(Bump(Bump(l.holds, p), c), p, 1);
    LessAt(Less(Bump(Bump(l.holds, p), c), p, 1), c, 1);
    BumpAt(l.lookups, c);
    hide Bump, Less;
  }

  lemma FoundStep(s: State, parent: int, ino: nat, addr: int)
    requires Enabled(s, Event.FindOrInsert(parent, ino, addr))
    requires Find(s.cache, ino) != 0 && Find(s.cache, ino) in s.cache.refs
    ensures var c, l, id := s.cache, s.ledger, Find(s.cache, ino);
      Step(s, Event.FindOrInsert(parent, ino, addr)) ==
      State(GetRef(GetRef(c, id), id), l.(lookups := Bump(l.lookups, id), holds := Bump(l.holds, id)))
  {
    hide Find;
  }

  lemma MissedStep(s: State, parent: int, ino: nat, addr: int)
    requires Enabled(s, Event.FindOrInsert(parent, ino, addr)) && Find(s.cache, ino) == 0 && parent in s.cache.refs
    ensures var c, l := s.cache, s.ledger;
      Step(s, Event.FindOrInsert(parent, ino, addr)) ==
      State(Insert(c, addr, ino, parent), l.(lookups := Bump(l.lookups, addr), holds := Bump(l.holds, addr)))
  {
    hide Find;
  }

  lemma Owing(s: State, id: int)
    requires Inv(s)
    ensures Balanced(s.cache, Owed(s.ledger)) && At(Owed(s.ledger), id) >= Total(s.ledger, id)
  {
    OwedAt(s.ledger, id);
  }
}
