/** The byte-array bitmap of src/bitmap.h, and the set of units that it stands for. */
module Bitmap {

  function Mask(k: int): bv8
    requires 0 <= k < 8
  {
    match k
    case 0 => 1
    case 1 => 2
    case 2 => 4
    case 3 => 8
    case 4 => 16
    case 5 => 32
    case 6 => 64
    case _ => 128
  }

  predicate Has(b: bv8, k: int)
    requires 0 <= k < 8
  {
    b & Mask(k) != 0
  }

  function Raise(b: bv8, k: int): (r: bv8)
    requires 0 <= k < 8
    ensures forall j :: 0 <= j < 8 ==> (Has(r, j) <==> j == k || Has(b, j))
  {
    b | Mask(k)
  }

  function Lower(b: bv8, k: int): (r: bv8)
    requires 0 <= k < 8
    ensures forall j :: 0 <= j < 8 ==> (Has(r, j) <==> j != k && Has(b, j))
  {
    b & (0xff ^ Mask(k))
  }

  predicate Bit(s: seq<bv8>, i: int)
    requires 0 <= i < 8 * |s|
  {
    Has(s[i / 8], i % 8)
  }

  /** The units that the bitmap marks as allocated. */
  ghost function Used(s: seq<bv8>): (r: set<int>)
    ensures forall i :: i in r <==> 0 <= i < 8 * |s| && Bit(s, i)
  {
    set i | 0 <= i < 8 * |s| && Bit(s, i)
  }

  /** The lowest bit of a byte is its first unit. */
  lemma BitOrder()
    ensures Used([0x01]) == {0} && Used([0x80]) == {7} && Used([0x00, 0x06]) == {9, 10}
  {
  }

  /** mu_bitmap_size */
  function Size(nbits: nat): (r: nat)
    ensures nbits <= 8 * r < nbits + 8
  {
    (nbits + 8 - 1) / 8
  }

  /** mu_bitmap_test */
  predicate Test(a: array<bv8>, i: int)
    requires 0 <= i < 8 * a.Length
    reads a
    ensures Test(a, i) <==> i in Used(a[..])
  {
    Has(a[i / 8], i % 8)
  }

  lemma SetBit(s: seq<bv8>, i: int)
    requires 0 <= i < 8 * |s|
    ensures Used(s[i / 8 := Raise(s[i / 8], i % 8)]) == Used(s) + {i}
  {
    hide Has, Raise;
    var t := s[i / 8 := Raise(s[i / 8], i % 8)];
    assert forall j :: 0 <= j < 8 * |s| ==> (Bit(t, j) <==> j == i || Bit(s, j));
  }

  lemma ClearBit(s: seq<bv8>, i: int)
    requires 0 <= i < 8 * |s|
    ensures Used(s[i / 8 := Lower(s[i / 8], i % 8)]) == Used(s) - {i}
  {
    hide Has, Lower;
    var t := s[i / 8 := Lower(s[i / 8], i % 8)];
    assert forall j :: 0 <= j < 8 * |s| ==> (Bit(t, j) <==> j != i && Bit(s, j));
  }

  /** mu_bitmap_set */
  method Set(a: array<bv8>, i: int)
    requires 0 <= i < 8 * a.Length
    modifies a
    ensures Used(a[..]) == old(Used(a[..])) + {i}
  {
    SetBit(a[..], i);
    ghost var s := a[..];
    a[i / 8] := Raise(a[i / 8], i % 8);
    assert a[..] == s[i / 8 := Raise(s[i / 8], i % 8)];
  }

  /** mse_bitmap_set32 takes its index modulo 2^32. */
  method Set32(a: array<bv8>, i: int)
    requires 0 <= i % 0x1_0000_0000 < 8 * a.Length
    modifies a
    ensures Used(a[..]) == old(Used(a[..])) + {i % 0x1_0000_0000}
  {
    Set(a, i % 0x1_0000_0000);
  }

  /** mu_bitmap_test_and_set: 1 if the bit was clear. */
  method TestAndSet(a: array<bv8>, i: int) returns (rc: int)
    requires 0 <= i < 8 * a.Length
    modifies a
    ensures Used(a[..]) == old(Used(a[..])) + {i}
    ensures rc == if i in old(Used(a[..])) then 0 else 1
  {
    if Has(a[i / 8], i % 8) {
      assert Test(a, i);
      return 0;
    }
    assert !Test(a, i);
    Set(a, i);
    return 1;
  }

  /** mu_bitmap_test_and_clear: 1 if the bit was set. */
  method TestAndClear(a: array<bv8>, i: int) returns (rc: int)
    requires 0 <= i < 8 * a.Length
    modifies a
    ensures Used(a[..]) == old(Used(a[..])) - {i}
    ensures rc == if i in old(Used(a[..])) then 1 else 0
  {
    if !Has(a[i / 8], i % 8) {
      assert !Test(a, i);
      return 0;
    }
    assert Test(a, i);
    ClearBit(a[..], i);
    ghost var s := a[..];
    a[i / 8] := Lower(a[i / 8], i % 8);
    assert a[..] == s[i / 8 := Lower(s[i / 8], i % 8)];
    return 1;
  }
}
