/** The inode cache as a value: list order, parents and reference counts (src/famfs_fused_icache.c). */
module Inodes {
  /** Node ids are addresses; FUSE_ROOT_ID stands for the root, 0 for no inode. */
  const ROOT := 1

  /** `order` is the list from the head, without the root; the maps give the fields of each inode. */
  datatype Cache = Cache(
    order: seq<int>,
    ino: map<int, nat>,
    parent: map<int, int>,
    refs: map<int, nat>,
    pinned: set<int>)

  predicate Distinct(s: seq<int>) {
    forall i, j :: 0 <= i < j < |s| ==> s[i] != s[j]
  }

  predicate Listed(c: Cache) {
    && ROOT in c.parent && c.parent.Keys == c.refs.Keys == c.ino.Keys && c.pinned <= c.parent.Keys
    && Distinct(c.order)
    && (forall i :: 0 <= i < |c.order| ==> c.order[i] in c.parent && c.order[i] != ROOT)
    && (forall k :: k in c.parent && k != ROOT ==> k in c.order)
  }

  /** Every inode number at most once. */
  predicate Numbered(c: Cache) {
    && ROOT in c.ino && c.ino[ROOT] == 1
    && (forall k, m :: k in c.ino && m in c.ino && c.ino[k] == c.ino[m] ==> k == m)
  }

  /** Every parent is cached or the root. */
  predicate Rooted(c: Cache) {
    && ROOT in c.parent && 0 !in c.parent && c.parent[ROOT] == 0
    && (forall k {:trigger c.parent[k]} :: k in c.parent && k != ROOT ==> c.parent[k] in c.parent)
  }

  /** Parents come later in the list than their children. */
  predicate Ordered(c: Cache) {
    && (forall i :: 0 <= i < |c.order| ==> c.order[i] in c.parent)
    && (forall i, j :: 0 <= i < |c.order| && 0 <= j < |c.order| && c.parent[c.order[i]] == c.order[j] ==> i < j)
  }

  predicate WellFormed(c: Cache) {
    Listed(c) && Numbered(c) && Rooted(c) && Ordered(c)
  }

  /** The cache that famfs_icache_init sets up. */
  function RootOnly(): Cache {
    Cache([], map[ROOT := 1], map[ROOT := 0], map[ROOT := 2], {})
  }

  lemma RootOnlyWellFormed()
    ensures WellFormed(RootOnly())
  {
  }

  function Kids(parent: map<int, int>, id: int): set<int> {
    set k | k in parent && parent[k] == id
  }

  function At(m: map<int, nat>, id: int): nat {
    if id in m then m[id] else 0
  }

  /** References are accounted for: `owed` outside the cache, and one per cached child. */
  ghost predicate Balanced(c: Cache, owed: map<int, nat>) {
    && (forall k :: k in c.refs ==> c.refs[k] == At(owed, k) + |Kids(c.parent, k)|)
    && (forall k :: At(owed, k) > 0 ==> k in c.refs)
    && (forall k :: k in c.refs && k != ROOT ==> c.refs[k] > 0 || k in c.pinned)
  }

  function Index(s: seq<int>, x: int): (i: nat)
    requires x in s
    ensures i < |s| && s[i] == x
  {
    if s[0] == x then 0 else Index(s[1..], x) + 1
  }

  function Without(s: seq<int>, i: nat): (r: seq<int>)
    requires i < |s|
    ensures |r| == |s| - 1
    ensures forall j :: 0 <= j < |r| ==> r[j] == s[if j < i then j else j + 1]
    ensures forall j :: 0 <= j < |s| && j != i ==> s[j] in r
  {
    var r := s[..i] + s[i + 1..];
    assert forall j :: 0 <= j < |s| && j != i ==> s[j] == r[if j < i then j else j - 1];
    r
  }

  /** Unlink from the list. */
  function Drop(c: Cache, id: int): (r: Cache)
    requires id in c.order
    ensures |r.order| == |c.order| - 1
  {
    Cache(Without(c.order, Index(c.order, id)), c.ino - {id}, c.parent - {id}, c.refs - {id}, c.pinned - {id})
  }

  /** Whether dropping `n` references takes the inode out of the cache. */
  predicate Dies(c: Cache, id: int, n: nat) {
    id in c.refs && c.refs[id] == n && id !in c.pinned && id in c.ino && c.ino[id] != 1
  }

  /** An inode leaves with its last references, unless it is pinned or the root. */
  lemma DiesExact(c: Cache, id: int, n: nat)
    requires Listed(c) && Numbered(c)
    ensures Dies(c, id, n) <==> id in c.refs && c.refs[id] == n && id !in c.pinned && id != ROOT
  {
    assert id in c.refs ==> id in c.ino;
  }

  /** famfs_inode_putref_locked; a failed assertion stops it. */
  function PutRef(c: Cache, id: int, n: nat): Cache
    decreases |c.order|
  {
    if id !in c.refs || c.refs[id] < n then c
    else if Dies(c, id, n) && id in c.order && id in c.parent then PutRef(Drop(c, id), c.parent[id], 1)
    else c.(refs := c.refs[id := c.refs[id] - n])
  }

  // ---------- one inode leaves ----------

  lemma DropListed(c: Cache, id: int)
    requires Listed(c) && id in c.order
    ensures Listed(Drop(c, id))
  {
    hide Index, Without;
    var i, r := Index(c.order, id), Drop(c, id);
    assert forall j :: 0 <= j < |c.order| && j != i ==> c.order[j] in r.order;
    forall k | k in r.parent && k != ROOT
      ensures k in r.order
    {
      var j :| 0 <= j < |c.order| && c.order[j] == k;
    }
  }

  lemma DropNumbered(c: Cache, id: int)
    requires Numbered(c) && id in c.order && id != ROOT
    ensures Numbered(Drop(c, id))
  {
    hide Index, Without;
  }

  lemma DropRooted(c: Cache, id: int)
    requires Rooted(c) && id in c.order && id != ROOT && Kids(c.parent, id) == {}
    ensures Rooted(Drop(c, id))
  {
    hide Index, Without;
    var r := Drop(c, id);
    forall k | k in r.parent && k != ROOT
      ensures r.parent[k] in r.parent
    {
      assert k !in Kids(c.parent, id) && r.parent[k] == c.parent[k];
    }
  }

  lemma DropOrdered(c: Cache, id: int)
    requires Ordered(c) && id in c.order && Distinct(c.order)
    ensures Ordered(Drop(c, id))
  {
    hide Without, Index;
    var i := Index(c.order, id);
    var r := Drop(c, id);
    assert forall j :: 0 <= j < |r.order| ==> r.order[j] == c.order[if j < i then j else j + 1];
    assert forall j :: 0 <= j < |r.order| ==> r.order[j] in r.parent && r.parent[r.order[j]] == c.parent[r.order[j]];
  }

  lemma DropWellFormed(c: Cache, id: int)
    requires WellFormed(c) && id in c.order && Kids(c.parent, id) == {}
    ensures WellFormed(Drop(c, id))
  {
    assert id != ROOT;
    hide Listed, Numbered, Rooted, Ordered, Drop;
    DropListed(c, id);
    DropNumbered(c, id);
    DropRooted(c, id);
    DropOrdered(c, id);
  }

  lemma DropBalanced(c: Cache, owed: map<int, nat>, id: int)
    requires c.refs.Keys == c.parent.Keys && Balanced(c, owed) && id in c.order && id in c.parent
    requires Kids(c.parent, id) == {} && c.parent[id] in c.parent
    ensures var parent := c.parent[id]; Balanced(Drop(c, id), owed[id := 0][parent := At(owed, parent) + 1])
  {
    hide Index, Without;
    var r, parent := Drop(c, id), c.parent[id];
    forall k | k in r.refs
      ensures |Kids(r.parent, k)| == |Kids(c.parent, k)| - (if k == parent then 1 else 0)
    {
      assert Kids(r.parent, k) == Kids(c.parent, k) - {id};
    }
    assert id !in Kids(c.parent, id);
  }

  lemma DiesAlone(c: Cache, owed: map<int, nat>, id: int, n: nat)
    requires WellFormed(c) && Balanced(c, owed) && Dies(c, id, n) && n <= At(owed, id)
    ensures Kids(c.parent, id) == {} && id in c.order && id in c.parent && At(owed, id) == n
  {
    assert id != ROOT;
  }

  /** The cascade keeps the cache well formed and accounted for, whatever leaves. */
  lemma {:induction false} PutKeeps(c: Cache, owed: map<int, nat>, id: int, n: nat)
    requires WellFormed(c) && Balanced(c, owed) && id in c.refs && n <= At(owed, id)
    ensures var r := PutRef(c, id, n); WellFormed(r) && Balanced(r, owed[id := At(owed, id) - n])
    decreases |c.order|
  {
    hide WellFormed, Kids;
    assert c.refs[id] >= n;
    if Dies(c, id, n) {
      DiesAlone(c, owed, id, n);
      var parent := c.parent[id];
      ParentCached(c, id);
      DropWellFormed(c, id);
      DropBalanced(c, owed, id);
      hide Balanced, Dies, Drop;
      var owed' := owed[id := 0][parent := At(owed, parent) + 1];
      PutKeeps(Drop(c, id), owed', parent, 1);
      SameOwed(PutRef(c, id, n), owed'[parent := At(owed', parent) - 1], owed[id := At(owed, id) - n]);
    } else {
      PutStays(c, owed, id, n);
    }
  }

  lemma PutStays(c: Cache, owed: map<int, nat>, id: int, n: nat)
    requires WellFormed(c) && Balanced(c, owed) && id in c.refs && n <= At(owed, id) && !Dies(c, id, n)
    ensures c.refs[id] >= n
    ensures var r := c.(refs := c.refs[id := c.refs[id] - n]);
      WellFormed(r) && Balanced(r, owed[id := At(owed, id) - n])
  {
    hide Kids, Rooted, Ordered;
    assert id in c.ino && (c.ino[id] == 1 ==> id == ROOT);
    RefsWellFormed(c, c.refs[id := c.refs[id] - n]);
  }

  /** Reference counts do not matter to the shape of the cache. */
  lemma RefsWellFormed(c: Cache, refs: map<int, nat>)
    requires WellFormed(c) && refs.Keys == c.refs.Keys
    ensures WellFormed(c.(refs := refs))
  {
  }

  lemma ParentCached(c: Cache, id: int)
    requires WellFormed(c) && id in c.order
    ensures id in c.parent && id != ROOT && c.parent[id] in c.parent && c.parent[id] != id
    ensures c.parent.Keys == c.refs.Keys && c.parent[id] in Drop(c, id).refs
  {
    hide Index, Without;
    var i :| 0 <= i < |c.order| && c.order[i] == id;
    assert c.parent[c.order[i]] == c.order[i] ==> i < i;
  }

  lemma SameOwed(c: Cache, a: map<int, nat>, b: map<int, nat>)
    requires Balanced(c, a) && forall k :: At(a, k) == At(b, k)
    ensures Balanced(c, b)
  {
    hide Kids;
  }

  // ---------- what the cascade removes, read off the cache before it ----------

  function AsSet(s: seq<int>): set<int> {
    set x | x in s
  }

  function Filter(s: seq<int>, out: set<int>): seq<int> {
    if s == [] then [] else (if s[0] in out then [] else [s[0]]) + Filter(s[1..], out)
  }

  /** From `id` upwards, inodes that die: the first of losing `n` references, the others of losing one. */
  predicate IsChain(c: Cache, chain: seq<int>, id: int, n: nat) {
    && (chain != [] ==> chain[0] == id)
    && (forall j :: 0 <= j < |chain| ==> chain[j] in c.parent && Dies(c, chain[j], if j == 0 then n else 1))
    && (forall j :: 0 <= j < |chain| - 1 ==> chain[j + 1] == c.parent[chain[j]])
  }

  /** The inode at which the cascade ends, and what it loses. */
  function Stop(c: Cache, chain: seq<int>, id: int): int {
    if chain == [] then id
    else var last := chain[|chain| - 1]; if last in c.parent then c.parent[last] else 0
  }

  function Loss(chain: seq<int>, n: nat): nat {
    if chain == [] then n else 1
  }

  lemma {:induction false} FilterConcat(s: seq<int>, t: seq<int>, out: set<int>)
    ensures Filter(s + t, out) == Filter(s, out) + Filter(t, out)
  {
    if s == [] {
      assert s + t == t;
    } else {
      assert (s + t)[1..] == s[1..] + t;
      FilterConcat(s[1..], t, out);
    }
  }

  lemma {:induction false} FilterSame(s: seq<int>, a: set<int>, b: set<int>)
    requires forall i :: 0 <= i < |s| ==> (s[i] in a <==> s[i] in b)
    ensures Filter(s, a) == Filter(s, b)
  {
    if s != [] {
      FilterSame(s[1..], a, b);
      assert s[0] in a <==> s[0] in b;
    }
  }

  lemma FilterOne(x: int, out: set<int>)
    ensures Filter([x], out + {x}) == []
  {
  }

  lemma FilterWithout(s: seq<int>, i: nat, out: set<int>)
    requires i < |s| && Distinct(s)
    ensures Filter(Without(s, i), out) == Filter(s, out + {s[i]})
  {
    hide Filter;
    var a, b, more := s[..i], s[i + 1..], out + {s[i]};
    assert s == a + ([s[i]] + b);
    FilterConcat(a, [s[i]] + b, more);
    FilterConcat([s[i]], b, more);
    FilterConcat(a, b, out);
    FilterSame(a, out, more);
    FilterSame(b, out, more);
    FilterOne(s[i], out);
  }

  lemma {:induction false} FilterNone(s: seq<int>)
    ensures Filter(s, {}) == s
  {
    if s != [] {
      FilterNone(s[1..]);
      assert s == [s[0]] + s[1..];
    }
  }

  /** What is left when the chain goes. */
  predicate Cut(c: Cache, r: Cache, chain: seq<int>, stop: int, loss: nat)
    requires stop in c.refs && c.refs[stop] >= loss
  {
    var gone := AsSet(chain);
    && r.order == Filter(c.order, gone) && r.ino == c.ino - gone && r.parent == c.parent - gone
    && r.pinned == c.pinned && r.refs == (c.refs - gone)[stop := c.refs[stop] - loss]
  }

  lemma ChainLonger(c: Cache, chain: seq<int>, id: int, n: nat)
    requires id in c.order && id in c.parent && Dies(c, id, n) && IsChain(Drop(c, id), chain, c.parent[id], 1)
    requires c.parent[id] != id
    ensures IsChain(c, [id] + chain, id, n) && Stop(c, [id] + chain, id) == Stop(Drop(c, id), chain, c.parent[id])
  {
    hide Index, Without;
    var longer := [id] + chain;
    assert forall j :: 0 < j < |longer| ==> longer[j] == chain[j - 1] && longer[j] != id;
    if chain != [] {
      assert longer[|longer| - 1] == chain[|chain| - 1];
    }
  }

  lemma CutLonger(c: Cache, r: Cache, chain: seq<int>, id: int, stop: int)
    requires Listed(c) && id in c.order && id !in c.pinned
    requires stop in Drop(c, id).refs && Drop(c, id).refs[stop] >= 1 && Cut(Drop(c, id), r, chain, stop, 1)
    ensures Cut(c, r, [id] + chain, stop, 1)
  {
    FilterWithout(c.order, Index(c.order, id), AsSet(chain));
    hide Index, Without, Filter;
    assert AsSet([id] + chain) == AsSet(chain) + {id};
  }

  /**
   famfs_inode_putref_locked removes exactly the maximal chain of unpinned ancestors whose
   counts reach zero; beyond it one inode loses one reference, and nothing else changes.
   */
  lemma {:induction false} CascadeExact(c: Cache, owed: map<int, nat>, id: int, n: nat) returns (chain: seq<int>)
    requires WellFormed(c) && Balanced(c, owed) && id in c.refs && n <= At(owed, id)
    ensures IsChain(c, chain, id, n) && Distinct(chain)
    ensures var stop, loss := Stop(c, chain, id), Loss(chain, n);
      && stop in c.refs && stop !in chain && c.refs[stop] >= loss && !Dies(c, stop, loss)
      && Cut(c, PutRef(c, id, n), chain, stop, loss)
    decreases |c.order|
  {
    hide WellFormed, Kids, Filter;
    assert c.refs[id] >= n;
    if Dies(c, id, n) {
      DiesAlone(c, owed, id, n);
      var parent := c.parent[id];
      ParentCached(c, id);
      DropWellFormed(c, id);
      DropBalanced(c, owed, id);
      var rest := CascadeExact(Drop(c, id), owed[id := 0][parent := At(owed, parent) + 1], parent, 1);
      chain := [id] + rest;
      ChainLonger(c, rest, id, n);
      ListedOf(c);
      CutLonger(c, PutRef(c, id, n), rest, id, Stop(Drop(c, id), rest, parent));
      hide Balanced, Cut;
      DropFields(c, id);
    } else {
      chain := [];
      FilterNone(c.order);
      assert AsSet([]) == {};
    }
  }

  lemma ListedOf(c: Cache)
    requires WellFormed(c)
    ensures Listed(c)
  {
  }

  lemma DropFields(c: Cache, id: int)
    requires id in c.order
    ensures var d := Drop(c, id);
      forall k :: k != id ==>
        && (k in d.refs <==> k in c.refs) && (k in d.refs ==> d.refs[k] == c.refs[k])
        && (k in d.ino <==> k in c.ino) && (k in d.ino ==> d.ino[k] == c.ino[k])
        && (k in d.pinned <==> k in c.pinned)
    ensures id !in Drop(c, id).refs && id !in Drop(c, id).parent
  {
    hide Index, Without;
  }

  // ---------- the other operations ----------

  /** famfs_inode_getref_locked */
  function GetRef(c: Cache, id: int): Cache
    requires id in c.refs
  {
    c.(refs := c.refs[id := c.refs[id] + 1])
  }

  lemma GetKeeps(c: Cache, owed: map<int, nat>, id: int)
    requires WellFormed(c) && Balanced(c, owed) && id in c.refs
    ensures WellFormed(GetRef(c, id)) && Balanced(GetRef(c, id), owed[id := At(owed, id) + 1])
  {
    hide Kids, WellFormed;
    RefsWellFormed(c, GetRef(c, id).refs);
  }

  /** The pinning of famfs_setattr. */
  function Pin(c: Cache, id: int): Cache {
    c.(pinned := c.pinned + {id})
  }

  lemma PinKeeps(c: Cache, owed: map<int, nat>, id: int)
    requires WellFormed(c) && Balanced(c, owed) && id in c.refs
    ensures WellFormed(Pin(c, id)) && Balanced(Pin(c, id), owed)
  {
    hide Kids, Distinct;
  }

  function FindIn(order: seq<int>, numbers: map<int, nat>, ino: nat): int {
    if order == [] then 0
    else if order[0] in numbers && numbers[order[0]] == ino then order[0]
    else FindIn(order[1..], numbers, ino)
  }

  /** The search of famfs_icache_find_get_from_ino_locked; 0 when it fails. */
  function Find(c: Cache, ino: nat): int {
    if ino == 1 then ROOT else FindIn(c.order, c.ino, ino)
  }

  lemma {:induction false} FindInExact(order: seq<int>, numbers: map<int, nat>, ino: nat)
    requires 0 !in order
    ensures var id := FindIn(order, numbers, ino);
      if id == 0 then forall k :: k in order && k in numbers ==> numbers[k] != ino
      else id in order && id in numbers && numbers[id] == ino
  {
    if order != [] {
      assert order[0] in order && forall k :: k in order ==> k == order[0] || k in order[1..];
      FindInExact(order[1..], numbers, ino);
    }
  }

  /** The search finds the inode of that number if and only if one is cached. */
  lemma FindExact(c: Cache, ino: nat, id: int)
    requires WellFormed(c) && id != 0
    ensures Find(c, ino) == id <==> id in c.ino && c.ino[id] == ino
  {
    assert 0 !in c.order;
    FindInExact(c.order, c.ino, ino);
    hide FindIn, Ordered;
    assert id in c.ino ==> id == ROOT || id in c.order;
  }

  /** famfs_icache_insert_locked, at the head, with two references and one on the parent. */
  function Insert(c: Cache, id: int, ino: nat, parent: int): Cache
    requires parent in c.refs
  {
    Cache([id] + c.order, c.ino[id := ino], c.parent[id := parent],
          c.refs[parent := c.refs[parent] + 1][id := 2], c.pinned)
  }

  lemma InsertOrdered(c: Cache, id: int, ino: nat, parent: int)
    requires WellFormed(c) && id !in c.parent && parent in c.parent
    ensures Ordered(Insert(c, id, ino, parent))
  {
    var r := Insert(c, id, ino, parent);
    assert c.parent.Keys == c.refs.Keys;
    assert forall i :: 0 < i < |r.order| ==>
      r.order[i] == c.order[i - 1] && r.order[i] in c.parent && r.order[i] != ROOT;
    assert forall i {:trigger r.order[i]} :: 0 < i < |r.order| ==> c.parent[r.order[i]] in c.parent;
    hide Rooted, Listed;
    forall i, j | 0 <= i < |r.order| && 0 <= j < |r.order| && r.parent[r.order[i]] == r.order[j]
      ensures i < j
    {
      assert i > 0 ==> j > 0 && c.order[i - 1] == r.order[i] && c.order[j - 1] == r.order[j];
    }
  }

  lemma InsertListed(c: Cache, id: int, ino: nat, parent: int)
    requires Listed(c) && id !in c.parent && parent in c.parent
    ensures Listed(Insert(c, id, ino, parent))
  {
    var r := Insert(c, id, ino, parent);
    assert forall i :: 0 < i < |r.order| ==> r.order[i] == c.order[i - 1];
  }

  lemma KidsInsert(parents: map<int, int>, id: int, parent: int, k: int)
    requires id !in parents
    ensures |Kids(parents[id := parent], k)| == |Kids(parents, k)| + (if k == parent then 1 else 0)
  {
    var before, after := Kids(parents, k), Kids(parents[id := parent], k);
    assert id !in before;
    assert after == if k == parent then before + {id} else before;
  }

  lemma NoKids(c: Cache, id: int)
    requires Rooted(c) && id !in c.parent && id != 0
    ensures Kids(c.parent, id) == {}
  {
    forall k | k in c.parent
      ensures c.parent[k] != id
    {
      assert k != ROOT ==> c.parent[k] in c.parent;
    }
  }

  lemma InsertBalanced(c: Cache, owed: map<int, nat>, id: int, ino: nat, parent: int)
    requires Rooted(c) && c.parent.Keys == c.refs.Keys && Balanced(c, owed)
    requires id !in c.parent && id != 0 && parent in c.parent
    ensures Balanced(Insert(c, id, ino, parent), owed[id := 2])
  {
    NoKids(c, id);
    hide Rooted, Kids;
    var r, more := Insert(c, id, ino, parent), owed[id := 2];
    assert At(owed, id) == 0;
    assert forall k :: At(more, k) == if k == id then 2 else At(owed, k);
    hide At;
    forall k | k in r.refs
      ensures r.refs[k] == At(more, k) + |Kids(r.parent, k)|
      ensures k != ROOT ==> r.refs[k] > 0 || k in r.pinned
    {
      KidsInsert(c.parent, id, parent, k);
    }
  }

  lemma InsertNumbered(c: Cache, id: int, ino: nat, parent: int)
    requires WellFormed(c) && id !in c.parent && id != 0 && parent in c.refs && Find(c, ino) == 0
    ensures Numbered(Insert(c, id, ino, parent)) && Rooted(Insert(c, id, ino, parent))
  {
    assert 0 !in c.order;
    FindInExact(c.order, c.ino, ino);
    hide FindIn, Ordered, Distinct;
    assert forall k :: k in c.ino ==> c.ino[k] != ino;
  }

  lemma InsertKeeps(c: Cache, owed: map<int, nat>, id: int, ino: nat, parent: int)
    requires WellFormed(c) && Balanced(c, owed) && id !in c.parent && id != 0 && parent in c.refs && Find(c, ino) == 0
    ensures WellFormed(Insert(c, id, ino, parent)) && Balanced(Insert(c, id, ino, parent), owed[id := 2])
  {
    assert c.parent.Keys == c.refs.Keys;
    hide Balanced, Listed, Numbered, Ordered, Rooted, Find, Insert;
    InsertNumbered(c, id, ino, parent);
    InsertOrdered(c, id, ino, parent);
    InsertListed(c, id, ino, parent);
    InsertBalanced(c, owed, id, ino, parent);
  }
}
