/** The randomly ordered series of buckets (bucket_series_* in src/famfs_alloc.c). */
module Buckets {

  /** start, start + 1, ..., start + n - 1 */
  function Iota(start: nat, n: nat): (r: seq<nat>)
    ensures |r| == n && forall i :: 0 <= i < n ==> r[i] == start + i
  {
    if n == 0 then [] else Iota(start, n - 1) + [start + n - 1]
  }

  ghost predicate Permutation(s: seq<nat>, t: seq<nat>) {
    multiset(s) == multiset(t)
  }

  function Swapped(s: seq<nat>, i: nat, j: nat): (r: seq<nat>)
    requires i < |s| && j < |s|
    ensures |r| == |s| && Permutation(r, s)
  {
    s[i := s[j]][j := s[i]]
  }

  /** Rounds `i` down to 1 of the shuffle; `rand(i)` is what rand() returns in round `i`. */
  function Shuffled(s: seq<nat>, i: nat, rand: nat -> nat): (r: seq<nat>)
    requires i < |s| || i == 0
    ensures |r| == |s| && Permutation(r, s)
    decreases i
  {
    if i == 0 then s else Shuffled(Swapped(s, i, rand(i) % (i + 1)), i - 1, rand)
  }

  /** The shuffle, for any outcomes of rand(). */
  method Shuffle(a: array<nat>, rand: nat -> nat)
    modifies a
    ensures a[..] == Shuffled(old(a[..]), if a.Length == 0 then 0 else a.Length - 1, rand)
    ensures Permutation(a[..], old(a[..]))
  {
    hide Permutation, Swapped, Shuffled;
    if a.Length == 0 {
      LastRound(a[..], rand);
      return;
    }
    var i := a.Length - 1;
    while i > 0
      invariant 0 <= i < a.Length
      invariant Shuffled(a[..], i, rand) == Shuffled(old(a[..]), a.Length - 1, rand)
    {
      var j := rand(i) % (i + 1);
      Round(a[..], i, rand);
      IsSwapped(a[..], i, j);
      a[i], a[j] := a[j], a[i];
      i := i - 1;
    }
    LastRound(a[..], rand);
  }

  lemma Round(s: seq<nat>, i: nat, rand: nat -> nat)
    requires 0 < i < |s|
    ensures Shuffled(s, i, rand) == Shuffled(Swapped(s, i, rand(i) % (i + 1)), i - 1, rand)
  {
    hide Permutation, Swapped;
  }

  lemma LastRound(s: seq<nat>, rand: nat -> nat)
    ensures Shuffled(s, 0, rand) == s
  {
  }

  lemma IsSwapped(s: seq<nat>, i: nat, j: nat)
    requires i < |s| && j < |s|
    ensures Swapped(s, i, j) == s[i := s[j]][j := s[i]]
  {
  }

  lemma {:induction false} SameRand(s: seq<nat>, i: nat, r: nat -> nat, q: nat -> nat)
    requires (i < |s| || i == 0) && forall k: nat :: k <= i ==> r(k) == q(k)
    ensures Shuffled(s, i, r) == Shuffled(s, i, q)
    decreases i
  {
    hide Permutation, Swapped;
    if i > 0 {
      SameRand(Swapped(s, i, r(i) % (i + 1)), i - 1, r, q);
    }
  }

  /** Some outcomes of rand() lead to any given order of the first `i + 1` elements. */
  lemma {:induction false} Reaches(s: seq<nat>, t: seq<nat>, i: nat) returns (rand: nat -> nat)
    requires i < |s| == |t| && Permutation(s[..i + 1], t[..i + 1]) && s[i + 1..] == t[i + 1..]
    ensures Shuffled(s, i, rand) == t
    decreases i
  {
    hide Permutation, Swapped, Shuffled;
    assert t[..i + 1][i] == t[i];
    var j := FindIn(s[..i + 1], t[..i + 1], t[i]);
    var s' := Swapped(s, i, j);
    Agree(s, t, i, j);
    if i == 0 {
      rand := _ => 0;
      LastRound(s, rand);
      IsSwapped(s, 0, 0);
    } else {
      assert t[i - 1 + 1..] == t[i..];
      var r := Reaches(s', t, i - 1);
      rand := k => if k == i then j else r(k);
      assert j % (i + 1) == j;
      Round(s, i, rand);
      SameRand(s', i - 1, rand, r);
    }
  }

  lemma FindIn(s: seq<nat>, t: seq<nat>, x: nat) returns (j: nat)
    requires Permutation(s, t) && x in t
    ensures j < |s| && s[j] == x
  {
    assert x in multiset(t);
    assert x in multiset(s);
    j :| 0 <= j < |s| && s[j] == x;
  }

  /** After the swap the last of the first `i + 1` elements is right, and the others are still a permutation. */
  lemma Agree(s: seq<nat>, t: seq<nat>, i: nat, j: nat)
    requires i < |s| == |t| && j <= i && s[j] == t[i]
    requires Permutation(s[..i + 1], t[..i + 1]) && s[i + 1..] == t[i + 1..]
    ensures var s' := Swapped(s, i, j); Permutation(s'[..i], t[..i]) && s'[i..] == t[i..]
  {
    hide Permutation;
    var s' := Swapped(s, i, j);
    assert s'[..i + 1] == Swapped(s[..i + 1], i, j);
    assert s'[i] == t[i] && s'[i + 1..] == s[i + 1..];
    hide Swapped;
    assert s'[i..] == [s'[i]] + s'[i + 1..] && t[i..] == [t[i]] + t[i + 1..];
    assert s'[..i + 1] == s'[..i] + [t[i]] && t[..i + 1] == t[..i] + [t[i]];
    LessOne(s'[..i], t[..i], t[i], s[..i + 1]);
  }

  lemma LessOne(s: seq<nat>, t: seq<nat>, x: nat, u: seq<nat>)
    requires Permutation(s + [x], u) && Permutation(u, t + [x])
    ensures Permutation(s, t)
  {
    assert multiset(s + [x]) == multiset(s) + multiset{x};
    assert multiset(t + [x]) == multiset(t) + multiset{x};
    assert multiset(s) == multiset(s + [x]) - multiset{x};
    assert multiset(t) == multiset(t + [x]) - multiset{x};
  }

  /** Every order of the buckets is one that the shuffle can give. */
  lemma EveryOrderHappens(start: nat, n: nat, order: seq<nat>) returns (rand: nat -> nat)
    requires Permutation(order, Iota(start, n))
    ensures Shuffled(Iota(start, n), if n == 0 then 0 else n - 1, rand) == order
  {
    var all := Iota(start, n);
    assert |multiset(order)| == |multiset(all)|;
    if n == 0 {
      rand := _ => 0;
    } else {
      assert all[..n] == all && order[..n] == order;
      rand := Reaches(all, order, n - 1);
    }
  }

  class BucketSeries {
    const buckets: array<nat>
    var current: nat

    constructor (nbuckets: nat, start: nat, rand: nat -> nat)
      ensures fresh(buckets) && current == 0 && buckets.Length == nbuckets
      ensures buckets[..] == Shuffled(Iota(start, nbuckets), if nbuckets == 0 then 0 else nbuckets - 1, rand)
      ensures Permutation(buckets[..], Iota(start, nbuckets))
    {
      hide Permutation, Shuffled, Swapped, Iota;
      buckets := new nat[nbuckets](i => i + start);
      current := 0;
      new;
      assert buckets[..] == Iota(start, nbuckets);
      Shuffle(buckets, rand);
    }

    method Next() returns (bucket: int)
      modifies this`current
      ensures if old(current) < buckets.Length
              then bucket == buckets[old(current)] && current == old(current) + 1
              else bucket == -1 && current == old(current)
    {
      if current >= buckets.Length {
        return -1;
      }
      bucket := buckets[current];
      current := current + 1;
    }

    method Rewind()
      modifies this`current
      ensures current == 0
    {
      current := 0;
    }
  }

  /** Walking through a permutation of the buckets meets each of them exactly once. */
  lemma VisitsOnce(s: seq<nat>, start: nat, n: nat)
    requires Permutation(s, Iota(start, n))
    ensures |s| == n
    ensures forall b: nat :: b in s <==> start <= b < start + n
    ensures forall i, j :: 0 <= i < j < |s| ==> s[i] != s[j]
  {
    var t := Iota(start, n);
    assert |multiset(s)| == |multiset(t)|;
    forall b: nat
      ensures b in s <==> start <= b < start + n
    {
      assert b in s <==> b in multiset(s);
      assert b in t <==> b in multiset(t);
      if start <= b < start + n {
        assert t[b - start] == b;
      }
    }
    forall i, j | 0 <= i < j < |s|
      ensures s[i] != s[j]
    {
      IotaOnce(start, n, s[i]);
      if s[i] == s[j] {
        Twice(s, i, j);
      }
    }
  }

  lemma CountSnoc(s: seq<nat>, x: nat, b: nat)
    ensures multiset(s + [x])[b] == multiset(s)[b] + if b == x then 1 else 0
  {
  }

  lemma OnceSnoc(s: seq<nat>, x: nat, b: nat)
    requires multiset(s)[b] <= 1 && forall i :: 0 <= i < |s| ==> s[i] != x
    ensures multiset(s + [x])[b] <= 1
  {
    CountSnoc(s, x, b);
    assert x !in s;
  }

  lemma {:induction false} IotaOnce(start: nat, n: nat, b: nat)
    ensures multiset(Iota(start, n))[b] <= 1
  {
    if n > 0 {
      IotaOnce(start, n - 1, b);
      OnceSnoc(Iota(start, n - 1), start + n - 1, b);
    }
  }

  lemma Twice(s: seq<nat>, i: int, j: int)
    requires 0 <= i < j < |s| && s[i] == s[j]
    ensures multiset(s)[s[i]] >= 2
  {
    assert s == s[..j] + s[j..];
    assert s[i] in s[..j] && s[i] == s[j..][0];
    assert multiset(s)[s[i]] == multiset(s[..j])[s[i]] + multiset(s[j..])[s[i]];
  }
}
