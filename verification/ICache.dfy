/** The inode cache in the heap: a circular doubly linked list with parent pointers (src/famfs_fused_icache.c). */
module ICache {
  import opened Inodes

  class Inode {
    const nodeid: int
    const ino: nat
    var next: Inode?
    var prev: Inode?
    var parent: Inode?
    var icache: InodeCache?
    var refcount: nat
    var pinned: bool

    /** famfs_inode_alloc; `nodeid` is the address that calloc returned. */
    constructor (nodeid: int, ino: nat, parent: Inode?, icache: InodeCache?)
      ensures this.nodeid == nodeid && this.ino == ino && this.parent == parent && this.icache == icache
      ensures refcount == 1 && !pinned && next == null && prev == null
    {
      this.nodeid := nodeid;
      this.ino := ino;
      this.parent := parent;
      this.icache := icache;
      refcount := 1;
      pinned := false;
      next, prev := null, null;
    }
  }

  class InodeCache {
    const root: Inode
    var count: nat
    ghost var list: seq<Inode>
    ghost var nodes: set<Inode>
    ghost var model: Cache

    /** The objects of the cache: the root and the list. */
    ghost predicate Mapped()
      reads this
    {
      && root in nodes && root.nodeid == ROOT && |list| == |model.order| == count
      && Numbering(list, model.order) && Members(root, list, nodes)
    }

    ghost function Ring(): (r: seq<Inode>)
      requires Mapped()
      reads this
      ensures forall i :: 0 <= i < |r| ==> r[i] in nodes
    {
      [root] + list + [root]
    }

    /** The ring is closed in both directions. */
    ghost predicate Linked()
      requires Mapped()
      reads this, nodes
    {
      var ring := Ring();
      forall i, j :: 0 <= i && j == i + 1 && j < |ring| ==> ring[i].next == ring[j] && ring[j].prev == ring[i]
    }

    /** The other fields are those of the model. */
    ghost predicate Filled()
      reads this, nodes
    {
      && root in nodes
      && (forall o :: o in nodes ==>
            && o.nodeid in model.ino && o.nodeid in model.refs && o.nodeid in model.parent
            && o.icache == this && o.ino == model.ino[o.nodeid] && o.refcount == model.refs[o.nodeid]
            && (o.pinned <==> o.nodeid in model.pinned))
      && root.parent == null
      && (forall o :: o in nodes && o != root ==>
            o.parent != null && o.parent in nodes && o.parent.nodeid == model.parent[o.nodeid])
    }

    ghost predicate Valid()
      reads this, nodes
    {
      WellFormed(model) && Mapped() && Linked() && Filled()
    }

    /** famfs_icache_init */
    constructor ()
      ensures Valid() && fresh(nodes) && model == RootOnly()
    {
      RootOnlyWellFormed();
      hide WellFormed;
      var r := new Inode(ROOT, 1, null, null);
      root := r;
      count := 0;
      list := [];
      nodes := {r};
      model := RootOnly();
      new;
      root.next := root;
      root.prev := root;
      root.icache := this;
      root.refcount := 2;
    }

    // ---------- an inode leaves the ring ----------

    /** Node ids tell the objects apart, and the list has each where the model has its id. */
    lemma Position(inode: Inode)
      requires Listed(model) && Mapped() && inode in nodes && inode != root
      ensures inode.nodeid in model.order && inode.nodeid != ROOT && list[Index(model.order, inode.nodeid)] == inode
      ensures forall o :: o in nodes && o != inode ==> o.nodeid != inode.nodeid
    {
      hide Index;
      var i :| 0 <= i < |list| && list[i] == inode;
      assert model.order[i] == inode.nodeid;
      forall o | o in nodes && o != inode
        ensures o.nodeid != inode.nodeid
      {
        assert o != root ==> exists j :: 0 <= j < |list| && list[j] == o;
      }
    }

    /** All but the two ends of the ring differ. */
    lemma RingDistinct()
      requires Listed(model) && Mapped()
      ensures Apart(Ring())
    {
      var ring := Ring();
      assert forall i :: 0 < i < |ring| - 1 ==> ring[i] == list[i - 1] && ring[i].nodeid == model.order[i - 1];
    }

    /** What holds of an inode about to leave. */
    ghost predicate Leaving(i: int)
      reads this, nodes
    {
      && Valid() && Listed(model) && 0 <= i < |list| && |list| == |model.order| == count
      && list[i] in nodes && list[i] != root && Kids(model.parent, list[i].nodeid) == {}
      && list[i].nodeid in model.order && i == Index(model.order, list[i].nodeid)
      && list[i].prev == Ring()[i] && list[i].next == Ring()[i + 2] && list[i] == Ring()[i + 1]
      && Apart(Ring()) && Skips(Stay(root, list, i), Ring(), i)
      && (forall o :: o in nodes && o != list[i] ==> o.nodeid != list[i].nodeid)
      && WellFormed(Drop(model, list[i].nodeid))
    }

    lemma Before(inode: Inode) returns (i: int)
      requires Valid() && inode in nodes && inode != root && Kids(model.parent, inode.nodeid) == {}
      ensures Leaving(i) && 0 <= i < |list| && list[i] == inode
      ensures inode.prev != null && inode.next != null && inode.prev in nodes && inode.next in nodes && count > 0
      ensures inode.nodeid in model.order && WellFormed(Drop(model, inode.nodeid))
    {
      Position(inode);
      i := Index(model.order, inode.nodeid);
      RingDistinct();
      StaySkips(root, list, i);
      DropWellFormed(model, inode.nodeid);
      var ring := Ring();
      assert ring[i + 1] == inode && ring[i].next == ring[i + 1];
      hide WellFormed, Listed, Kids, Index, Without, Linked, Filled, Apart, Skips;
    }

    twostate lemma StillMapped(i: int)
      requires old(Leaving(i)) && 0 <= i < |old(list)| && old(list)[i].nodeid in old(model.order)
      requires model == Drop(old(model), old(list)[i].nodeid) && nodes == old(nodes) - {old(list)[i]}
      requires list == old(list)[..i] + old(list)[i + 1..] && count == old(count) - 1
      ensures Mapped()
    {
      assert Distinct(old(model.order)) && Numbering(old(list), old(model.order));
      assert Members(root, old(list), old(nodes));
      hide WellFormed, Listed, Kids, Index, Without, Linked, Filled, Apart, Skips, Members, Numbering;
      FewerNumbers(old(list), old(model.order), i);
      FewerMembers(root, old(list), old(nodes), old(model.order), i);
    }

    twostate lemma StillLinked(i: int)
      requires old(Leaving(i)) && 0 <= i < |old(list)| && Mapped() && list == old(list)[..i] + old(list)[i + 1..]
      requires old(list[i].prev) != null && old(list[i].next) != null
      requires old(list[i].prev).next == old(list[i].next) && old(list[i].next).prev == old(list[i].prev)
      requires forall o :: o in old(nodes) && o != old(list[i].prev) ==> o.next == old(o.next)
      requires forall o :: o in old(nodes) && o != old(list[i].next) ==> o.prev == old(o.prev)
      ensures Linked()
    {
      hide WellFormed, Listed, Kids, Index, Without, Filled;
      var ring := old(Ring());
      forall j, k | 0 <= j && k == j + 1 && k < |Ring()|
        ensures Ring()[j].next == Ring()[k] && Ring()[k].prev == Ring()[j]
      {
        var j', k' := if j <= i then j else j + 1, if k <= i then k else k + 1;
        assert Ring()[j] == ring[j'] && Ring()[k] == ring[k'];
        if j != i {
          assert old(ring[j'].next) == ring[k'] && old(ring[k'].prev) == ring[j'];
        }
      }
    }

    twostate lemma StillFilled(i: int)
      requires old(Leaving(i)) && 0 <= i < |old(list)| && old(list)[i].nodeid in old(model.order) && Mapped()
      requires model == Drop(old(model), old(list)[i].nodeid) && nodes == old(nodes) - {old(list)[i]}
      requires forall o :: o in nodes ==>
        && o.icache == old(o.icache) && o.refcount == old(o.refcount)
        && o.pinned == old(o.pinned) && o.parent == old(o.parent)
      ensures Filled()
    {
      hide WellFormed, Index, Without, Listed, Mapped, Linked, Apart, Skips;
      forall o | o in nodes && o != root
        ensures o.parent != null && o.parent in nodes && o.parent.nodeid == model.parent[o.nodeid]
      {
        assert o.nodeid !in Kids(old(model.parent), old(list)[i].nodeid);
      }
    }

    /** The pointer updates of famfs_inode_putref_locked. */
    method Bypass(inode: Inode, prev: Inode, next: Inode)
      requires prev == inode.prev && next == inode.next && count > 0
      modifies prev`next, next`prev, inode`icache, this`count
      ensures prev.next == next && next.prev == prev && inode.icache == null && count == old(count) - 1
    {
      next.prev := prev;
      prev.next := next;
      count := count - 1;
      inode.icache := null;
    }

    /** Taking an inode out of the ring. */
    method Unlink(inode: Inode)
      requires Valid() && inode in nodes && inode != root && Kids(model.parent, inode.nodeid) == {}
      requires inode.nodeid in model.order
      modifies this, nodes
      ensures Valid() && model == Drop(old(model), inode.nodeid) && nodes == old(nodes) - {inode}
      ensures inode.parent == old(inode.parent)
    {
      hide WellFormed, Leaving, Drop, Kids, Mapped, Linked, Filled;
      ghost var i := Before(inode);
      Bypass(inode, inode.prev, inode.next);
      model, nodes, list := Drop(model, inode.nodeid), nodes - {inode}, list[..i] + list[i + 1..];
      StillMapped(i);
      StillLinked(i);
      StillFilled(i);
    }

    // ---------- reference counts ----------

    lemma OneObject(inode: Inode)
      requires Listed(model) && Mapped() && inode in nodes
      ensures forall o :: o in nodes && o != inode ==> o.nodeid != inode.nodeid
    {
      if inode == root {
        assert forall o :: o in nodes && o != root ==> exists j :: 0 <= j < |list| && list[j] == o;
      } else {
        Position(inode);
      }
    }

    twostate lemma RefsKept()
      requires old(Valid()) && nodes == old(nodes) && list == old(list) && count == old(count)
      requires model.refs.Keys == old(model).refs.Keys && model == old(model).(refs := model.refs)
      requires forall o :: o in nodes ==>
        && o.next == old(o.next) && o.prev == old(o.prev) && o.parent == old(o.parent)
        && o.icache == old(o.icache) && o.pinned == old(o.pinned)
        && (o.nodeid in model.refs ==> o.refcount == model.refs[o.nodeid])
      ensures Valid()
    {
      RefsWellFormed(old(model), model.refs);
      hide WellFormed;
      assert Mapped();
      assert Ring() == old(Ring());
    }

    lemma Counts()
      requires Valid()
      ensures forall o :: o in nodes ==> o.nodeid in model.refs && o.refcount == model.refs[o.nodeid]
    {
      hide WellFormed, Linked, Mapped;
    }

    method SetRefs(inode: Inode, refcount: nat)
      requires Valid() && inode in nodes && inode.nodeid in model.refs
      modifies this`model, inode`refcount
      ensures Valid() && model == old(model).(refs := old(model).refs[inode.nodeid := refcount])
      ensures inode.refcount == refcount
    {
      OneObject(inode);
      Counts();
      hide Valid;
      inode.refcount := refcount;
      model := model.(refs := model.refs[inode.nodeid := refcount]);
      RefsKept();
    }

    /** What an object says of its inode. */
    lemma Reads(inode: Inode)
      requires Valid() && inode in nodes
      ensures WellFormed(model)
      ensures var id := inode.nodeid;
        && id in model.refs && id in model.ino && id in model.parent && inode.icache == this
        && inode.refcount == model.refs[id] && (inode.pinned <==> id in model.pinned) && inode.ino == model.ino[id]
        && (inode.ino == 1 <==> inode == root) && (id == ROOT <==> inode == root) && id != 0
        && (inode != root ==> inode.parent != null && inode.parent in nodes && inode.parent.nodeid == model.parent[id])
    {
      OneObject(inode);
      OneObject(root);
      hide Listed, Ordered, Linked;
    }

    lemma DistinctIds()
      requires Valid()
      ensures forall o, p :: o in nodes && p in nodes && o.nodeid == p.nodeid ==> o == p
    {
      forall o | o in nodes
        ensures forall p :: p in nodes && p != o ==> p.nodeid != o.nodeid
      {
        OneObject(o);
      }
    }

    /** Every cached node id has its object. */
    lemma Present(id: int) returns (o: Inode)
      requires Valid() && id in model.refs
      ensures o in nodes && o.nodeid == id
    {
      if id == ROOT {
        o := root;
      } else {
        var i :| 0 <= i < |model.order| && model.order[i] == id;
        o := list[i];
      }
    }

    twostate lemma PinKept()
      requires old(Valid()) && nodes == old(nodes) && list == old(list) && count == old(count)
      requires model == old(model).(pinned := model.pinned) && WellFormed(model)
      requires forall o :: o in nodes ==>
        && o.next == old(o.next) && o.prev == old(o.prev) && o.parent == old(o.parent)
        && o.icache == old(o.icache) && o.refcount == old(o.refcount) && (o.pinned <==> o.nodeid in model.pinned)
      ensures Valid()
    {
      hide WellFormed;
      assert Mapped();
      assert Ring() == old(Ring());
    }

    lemma Pins()
      requires Valid()
      ensures forall o :: o in nodes ==> (o.pinned <==> o.nodeid in model.pinned)
    {
      hide WellFormed, Linked, Mapped;
    }

    /** The pinning of famfs_setattr. */
    method SetPinned(inode: Inode, ghost owed: map<int, nat>)
      requires Valid() && Balanced(model, owed) && inode in nodes
      modifies this`model, inode`pinned
      ensures Valid() && model == Pin(old(model), inode.nodeid)
    {
      hide Valid, WellFormed, Balanced;
      Reads(inode);
      DistinctIds();
      Pins();
      PinKeeps(model, owed, inode.nodeid);
      inode.pinned := true;
      model := Pin(model, inode.nodeid);
      PinKept();
    }

    /** famfs_inode_putref_locked, with its assertion. */
    method PutRefLocked(inode: Inode, n: nat, ghost owed: map<int, nat>)
      requires Valid() && Balanced(model, owed) && inode in nodes && n <= At(owed, inode.nodeid)
      modifies this, nodes
      ensures Valid() && model == PutRef(old(model), inode.nodeid, n)
      ensures nodes <= old(nodes) && forall o :: o in old(nodes) && o.nodeid in model.refs ==> o in nodes
      decreases |model.order|
    {
      hide Valid, Mapped, Linked, Filled, PutRef, Balanced, Drop, Kids, WellFormed;
      ghost var c, id := model, inode.nodeid;
      DistinctIds();
      Reads(inode);
      PutAllowed(c, owed, id, n);
      assert inode.refcount >= n;
      SetRefs(inode, inode.refcount - n);
      if inode.refcount == 0 && !inode.pinned && inode.ino != 1 {
        PutCascades(c, owed, id, n);
        Unlink(inode);
        PutRefLocked(inode.parent, 1, owed[id := 0][c.parent[id] := At(owed, c.parent[id]) + 1]);
        inode.parent := null;
        forall o | o in old(nodes) && o.nodeid in model.refs
          ensures o in nodes
        {
          var p := Present(o.nodeid);
        }
      } else {
        PutRemains(c, owed, id, n);
      }
    }

    // ---------- an inode enters the ring ----------

    twostate lemma NowMapped()
      requires old(Mapped()) && |list| == |old(list)| + 1 && list[1..] == old(list) && nodes == old(nodes) + {list[0]}
      requires model.order == [list[0].nodeid] + old(model.order) && count == old(count) + 1
      ensures Mapped()
    {
      assert forall i :: 0 < i < |list| ==> list[i] == old(list)[i - 1] && model.order[i] == old(model.order)[i - 1];
      assert list[0] in list && forall o :: o in old(list) ==> o in list;
    }

    twostate lemma NowLinked()
      requires old(Mapped() && Linked() && Apart(Ring())) && Mapped() && list != [] && list[1..] == old(list)
      requires list[0] !in old(nodes) && old(root.next) != null
      requires root.next == list[0] && list[0].prev == root
      requires list[0].next == old(root.next) && old(root.next).prev == list[0]
      requires forall o :: o in old(nodes) && o != root ==> o.next == old(o.next)
      requires forall o :: o in old(nodes) && o != old(root.next) ==> o.prev == old(o.prev)
      ensures Linked()
    {
      var ring, was := Ring(), old(Ring());
      assert forall j :: 1 < j < |ring| ==> ring[j] == was[j - 1];
      assert was[1] == old(root.next) by {
        assert old(was[0].next) == was[1];
      }
      forall j, k | 0 <= j && k == j + 1 && k < |ring|
        ensures ring[j].next == ring[k] && ring[k].prev == ring[j]
      {
        if j > 1 {
          assert old(was[j - 1].next) == was[k - 1] && old(was[k - 1].prev) == was[j - 1];
        }
      }
    }

    twostate lemma NowFilled()
      requires old(Filled()) && list != [] && nodes == old(nodes) + {list[0]}
      requires (forall o :: o in old(nodes) ==> o.nodeid != list[0].nodeid) && list[0].nodeid !in old(model.pinned)
      requires list[0].parent != null && list[0].parent in old(nodes) && list[0].parent.nodeid in old(model.refs)
      requires model == Insert(old(model), list[0].nodeid, list[0].ino, list[0].parent.nodeid)
      requires forall o :: o in old(nodes) ==>
        && o.icache == old(o.icache) && o.pinned == old(o.pinned) && o.parent == old(o.parent)
        && o.refcount == old(o.refcount) + (if o.nodeid == list[0].parent.nodeid then 1 else 0)
      requires list[0].icache == this && list[0].refcount == 2 && !list[0].pinned
      ensures Filled()
    {
    }

    /** What holds when an inode enters. */
    ghost predicate Entering(id: int)
      reads this, nodes
    {
      && Valid() && Apart(Ring()) && root.next != null && root.next in nodes
      && (forall o :: o in nodes ==> o.nodeid != id) && id !in model.pinned
    }

    lemma BeforeInsert(id: int)
      requires Valid() && id !in model.parent
      ensures Entering(id) && root in nodes && root.next != null && root.next in nodes
    {
      RingDistinct();
      var ring := Ring();
      assert ring[0].next == ring[1];
      hide Rooted, Ordered, Numbered;
    }

    twostate lemma NowValid(id: int)
      requires |list| == |old(list)| + 1 && list[1..] == old(list) && old(Entering(id)) && id == list[0].nodeid
      requires nodes == old(nodes) + {list[0]} && count == old(count) + 1
      requires list[0].parent != null && list[0].parent in old(nodes) && list[0].parent.nodeid in old(model.refs)
      requires model == Insert(old(model), list[0].nodeid, list[0].ino, list[0].parent.nodeid) && WellFormed(model)
      requires list[0] !in old(nodes) && old(root.next) != null
      requires root.next == list[0] && list[0].prev == root
      requires list[0].next == old(root.next) && old(root.next).prev == list[0]
      requires forall o :: o in old(nodes) && o != root ==> o.next == old(o.next)
      requires forall o :: o in old(nodes) && o != old(root.next) ==> o.prev == old(o.prev)
      requires forall o :: o in old(nodes) ==>
        && o.icache == old(o.icache) && o.pinned == old(o.pinned) && o.parent == old(o.parent)
        && o.refcount == old(o.refcount) + (if o.nodeid == list[0].parent.nodeid then 1 else 0)
      requires list[0].icache == this && list[0].refcount == 2 && !list[0].pinned
      ensures Valid()
    {
      hide WellFormed, Mapped, Linked, Filled, Apart;
      NowMapped();
      NowLinked();
      NowFilled();
    }

    method Splice(inode: Inode, next: Inode)
      requires next == root.next && inode != root && inode != next
      modifies root`next, next`prev, inode`next, inode`prev, inode`icache, inode`refcount
      ensures root.next == inode && inode.prev == root && inode.next == next && next.prev == inode
      ensures inode.icache == this && inode.refcount == 2
    {
      inode.refcount := 2;
      next.prev := inode;
      inode.next := next;
      inode.prev := root;
      root.next := inode;
      inode.icache := this;
    }

    /** famfs_icache_insert_locked, at the head of the list. */
    method InsertLocked(inode: Inode, ghost owed: map<int, nat>)
      requires Valid() && Balanced(model, owed) && inode !in nodes && inode.parent != null && inode.parent in nodes
      requires inode.nodeid !in model.parent && inode.nodeid != 0 && !inode.pinned && Find(model, inode.ino) == 0
      modifies this, nodes, inode
      ensures Valid() && nodes == old(nodes) + {inode} && inode.parent == old(inode.parent) && inode.parent != null
      ensures inode.parent.nodeid in old(model.refs)
      ensures model == Insert(old(model), inode.nodeid, inode.ino, inode.parent.nodeid)
    {
      hide Valid, Mapped, Linked, Filled, Balanced, WellFormed, Insert, Entering, Find;
      Reads(inode.parent);
      OneParent(inode.parent);
      BeforeInsert(inode.nodeid);
      InsertKeeps(model, owed, inode.nodeid, inode.ino, inode.parent.nodeid);
      Splice(inode, root.next);
      inode.parent.refcount := inode.parent.refcount + 1;
      count := count + 1;
      model := Insert(model, inode.nodeid, inode.ino, inode.parent.nodeid);
      nodes, list := nodes + {inode}, [inode] + list;
      NowValid(inode.nodeid);
    }

    lemma OneParent(inode: Inode)
      requires Valid() && inode in nodes
      ensures forall o :: o in nodes && o != inode ==> o.nodeid != inode.nodeid
    {
      OneObject(inode);
    }

    // ---------- finding an inode ----------

    /** The step of the search from position `i`. */
    lemma Scan(p: Inode, i: int, ino: nat)
      requires Valid() && 0 <= i <= |list| && p == Ring()[i + 1]
      ensures p in nodes && |list| == |model.order| && (p == root <==> i == |list|)
      ensures p == root ==> FindIn(model.order[i..], model.ino, ino) == 0
      ensures p != root ==> p.next == Ring()[i + 2]
      ensures p != root ==>
        FindIn(model.order[i..], model.ino, ino) ==
        (if p.ino == ino then p.nodeid else FindIn(model.order[i + 1..], model.ino, ino))
    {
      RingDistinct();
      hide WellFormed, Listed;
      var ring := Ring();
      if i < |list| {
        assert ring[i + 1] == list[i] && ring[i + 1].next == ring[i + 2];
        assert model.order[i..][0] == p.nodeid && model.order[i..][1..] == model.order[i + 1..];
        assert ring[0] != ring[i + 1];
      }
    }

    /** famfs_icache_find_get_from_ino_locked */
    method FindGetLocked(ino: nat, ghost owed: map<int, nat>) returns (inode: Inode?)
      requires Valid() && Balanced(model, owed)
      modifies this`model, nodes`refcount
      ensures Valid() && (inode == null <==> Find(old(model), ino) == 0)
      ensures inode == null ==> model == old(model)
      ensures inode != null ==>
        && inode in nodes && inode.ino == ino && inode.nodeid == Find(old(model), ino)
        && inode.nodeid in old(model.refs) && model == GetRef(old(model), inode.nodeid)
    {
      hide Valid, Mapped, Linked, Filled, WellFormed, Balanced, FindIn;
      assert root in nodes && Mapped() by {
        Start();
      }
      if ino == 1 {
        Reads(root);
        SetRefs(root, root.refcount + 1);
        return root;
      }
      Start();
      var p: Inode := root.next;
      ghost var i := 0;
      assert model.order[0..] == model.order;
      while p != root
        invariant Valid() && model == old(model) && Balanced(model, owed)
        invariant Mapped() && 0 <= i <= |list| && |list| == |model.order| && p == Ring()[i + 1]
        invariant FindIn(model.order[i..], model.ino, ino) == FindIn(model.order, model.ino, ino)
        decreases |list| - i
      {
        Scan(p, i, ino);
        Reads(p);
        if p.ino == ino {
          Referenced(model, owed, p.nodeid);
          assert p.refcount > 0 || p.pinned;
          SetRefs(p, p.refcount + 1);
          return p;
        }
        p := p.next;
        i := i + 1;
      }
      Scan(p, i, ino);
      inode := null;
    }

    lemma Start()
      requires Valid()
      ensures root in nodes && Mapped() && root.next != null && root.next == Ring()[1] && |list| == |model.order|
    {
      var ring := Ring();
      assert ring[0].next == ring[1];
    }
  }

  // ---------- one round of the cascade ----------

  lemma DropForgets(c: Cache, id: int)
    requires id in c.order
    ensures Drop(c.(refs := c.refs[id := 0]), id) == Drop(c, id)
  {
    hide Index, Without;
    assert c.refs[id := 0] - {id} == c.refs - {id};
  }

  lemma Referenced(c: Cache, owed: map<int, nat>, id: int)
    requires Balanced(c, owed) && id in c.refs && id != ROOT
    ensures c.refs[id] > 0 || id in c.pinned
  {
    hide Kids;
  }

  lemma PutAllowed(c: Cache, owed: map<int, nat>, id: int, n: nat)
    requires Balanced(c, owed) && id in c.refs && n <= At(owed, id)
    ensures c.refs[id] >= n
  {
    hide Kids;
  }

  lemma PutRemains(c: Cache, owed: map<int, nat>, id: int, n: nat)
    requires Balanced(c, owed) && id in c.refs && n <= At(owed, id) && !Dies(c, id, n)
    ensures c.refs[id] >= n && PutRef(c, id, n) == c.(refs := c.refs[id := c.refs[id] - n])
  {
    hide Kids, Drop;
  }

  lemma PutGoes(c: Cache, id: int, n: nat)
    requires Dies(c, id, n) && id in c.order && id in c.parent
    ensures PutRef(c, id, n) == PutRef(Drop(c, id), c.parent[id], 1)
  {
    hide Drop;
  }

  /** The inode goes, and the cascade goes on with its parent. */
  lemma PutCascades(c: Cache, owed: map<int, nat>, id: int, n: nat)
    requires WellFormed(c) && Balanced(c, owed) && Dies(c, id, n) && n <= At(owed, id)
    ensures Kids(c.parent, id) == {} && id in c.order && id in c.parent && c.parent[id] != id
    ensures Drop(c.(refs := c.refs[id := 0]), id) == Drop(c, id)
    ensures PutRef(c, id, n) == PutRef(Drop(c, id), c.parent[id], 1)
    ensures var parent := c.parent[id]; Balanced(Drop(c, id), owed[id := 0][parent := At(owed, parent) + 1])
  {
    hide Kids, Drop, PutRef;
    DiesAlone(c, owed, id, n);
    ParentCached(c, id);
    hide WellFormed;
    DropBalanced(c, owed, id);
    DropForgets(c, id);
    PutGoes(c, id, n);
  }

  ghost predicate Numbering(list: seq<Inode>, order: seq<int>) {
    |list| == |order| && forall i :: 0 <= i < |list| ==> list[i].nodeid == order[i]
  }

  ghost predicate Members(root: Inode, list: seq<Inode>, nodes: set<Inode>) {
    (forall i :: 0 <= i < |list| ==> list[i] in nodes) && (forall o :: o in nodes ==> o == root || o in list)
  }

  lemma FewerNumbers(list: seq<Inode>, order: seq<int>, i: int)
    requires Numbering(list, order) && 0 <= i < |list|
    ensures Numbering(list[..i] + list[i + 1..], Without(order, i))
  {
    hide Without;
  }

  lemma FewerMembers(root: Inode, list: seq<Inode>, nodes: set<Inode>, order: seq<int>, i: int)
    requires Numbering(list, order) && Distinct(order) && Members(root, list, nodes) && 0 <= i < |list|
    ensures Members(root, list[..i] + list[i + 1..], nodes - {list[i]})
  {
    var less := list[..i] + list[i + 1..];
    forall j | 0 <= j < |less|
      ensures less[j] in nodes - {list[i]}
    {
      assert less[j] == list[if j < i then j else j + 1];
    }
    forall o | o in nodes && o != root && o != list[i]
      ensures o in less
    {
      var j :| 0 <= j < |list| && list[j] == o;
      assert o == less[if j < i then j else j - 1];
    }
  }

  ghost function Stay(root: Inode, list: seq<Inode>, i: int): seq<Inode>
    requires 0 <= i < |list|
  {
    [root] + (list[..i] + list[i + 1..]) + [root]
  }

  lemma StaySkips(root: Inode, list: seq<Inode>, i: int)
    requires 0 <= i < |list|
    ensures Skips(Stay(root, list, i), [root] + list + [root], i)
  {
  }

  /** All but the two ends differ. */
  ghost predicate Apart(ring: seq<Inode>) {
    forall i, j :: 0 <= i < j < |ring| && j - i < |ring| - 1 ==> ring[i] != ring[j]
  }

  /** `less` is `ring` without its element after `i`. */
  ghost predicate Skips(less: seq<Inode>, ring: seq<Inode>, i: int) {
    && |less| == |ring| - 1 && i + 1 < |ring|
    && forall j :: 0 <= j < |less| ==> less[j] == ring[if j <= i then j else j + 1]
  }
}
