/**
 Bitmaps packed into bytes, lowest bit first, as inventories use them (src/net/inv.rs and
 compress_bools in src/net/codec.rs), and their reading as sets of positions.
 */
module Bitmap {
  import opened Codec
  import opened Positional
  import opened Messages

  // ---- bits of a number ----

  /** x & (1 << j) != 0 */
  predicate Bit(x: nat, j: nat)
  {
    if j == 0 then x % 2 == 1 else Bit(x / 2, j - 1)
  }

  /** x | (1 << j) */
  function WithBit(x: nat, j: nat): (y: nat)
  {
    if j == 0 then x / 2 * 2 + 1 else WithBit(x / 2, j - 1) * 2 + x % 2
  }

  lemma {:induction false} BitOfWithBit(x: nat, j: nat, k: nat)
    ensures Bit(WithBit(x, j), k) <==> k == j || Bit(x, k)
  {
    if j > 0 && k > 0 {
      BitOfWithBit(x / 2, j - 1, k - 1);
    }
  }

  lemma {:induction false} WithBitFits(x: nat, j: nat, n: nat)
    requires j < n && x < Pow(2, n)
    ensures WithBit(x, j) < Pow(2, n)
  {
    assert Pow(2, n) == 2 * Pow(2, n - 1);
    hide Pow;
    if j > 0 {
      WithBitFits(x / 2, j - 1, n - 1);
    }
  }

  lemma {:induction false} BitsDecide(x: nat, y: nat, n: nat)
    requires x < Pow(2, n) && y < Pow(2, n)
    requires forall j :: 0 <= j < n ==> Bit(x, j) == Bit(y, j)
    ensures x == y
  {
    if n > 0 {
      assert Pow(2, n) == 2 * Pow(2, n - 1);
      hide Pow;
      assert Bit(x, 0) == Bit(y, 0);
      forall j | 0 <= j < n - 1 ensures Bit(x / 2, j) == Bit(y / 2, j) {
        assert Bit(x, j + 1) == Bit(y, j + 1);
      }
      BitsDecide(x / 2, y / 2, n - 1);
    }
  }

  lemma {:induction false} NoBits(j: nat)
    ensures !Bit(0, j)
  {
    if j > 0 {
      NoBits(j - 1);
    }
  }

  lemma Octet()
    ensures Pow(2, 8) == 256
  {
  }

  function SetBit(x: byte, j: nat): (y: byte)
    requires j < 8
  {
    Octet(); WithBitFits(x, j, 8);
    WithBit(x, j)
  }

  // ---- bitmaps ----

  predicate Has(v: bytes, i: nat)
  {
    i / 8 < |v| && Bit(v[i / 8], i % 8)
  }

  /** The positions whose bit is set. */
  ghost function Members(v: bytes): (s: set<nat>)
  {
    set i: nat | i < 8 * |v| && Has(v, i)
  }

  lemma InMembers(v: bytes, i: nat)
    ensures i in Members(v) <==> Has(v, i)
  {
  }

  /** A bitmap is determined by its length and its members. */
  lemma Extensional(a: bytes, b: bytes)
    requires |a| == |b| && Members(a) == Members(b)
    ensures a == b
  {
    Octet();
    forall k | 0 <= k < |a| ensures a[k] == b[k] {
      forall j | 0 <= j < 8 ensures Bit(a[k], j) == Bit(b[k], j) {
        InMembers(a, 8 * k + j);
        InMembers(b, 8 * k + j);
      }
      BitsDecide(a[k], b[k], 8);
    }
  }

  /** Lengthen a bitmap with zero bytes, if it is shorter (Vec::resize under a length test). */
  function Grown(v: bytes, n: nat): (w: bytes)
    ensures |w| == if |v| < n then n else |v|
  {
    if |v| < n then v + seq(n - |v|, i => 0) else v
  }

  lemma MembersOfGrown(v: bytes, n: nat)
    ensures Members(Grown(v, n)) == Members(v)
  {
    var w := Grown(v, n);
    forall i: nat ensures i in Members(w) <==> i in Members(v) {
      InMembers(v, i);
      InMembers(w, i);
      NoBits(i % 8);
    }
  }

  function Inserted(v: bytes, i: nat): (w: bytes)
    requires i / 8 < |v|
    ensures |w| == |v|
  {
    v[i / 8 := SetBit(v[i / 8], i % 8)]
  }

  lemma SamePlace(i: nat, k: nat)
    requires i / 8 == k / 8 && i % 8 == k % 8
    ensures i == k
  {
  }

  lemma MembersOfInserted(v: bytes, i: nat)
    requires i / 8 < |v|
    ensures Members(Inserted(v, i)) == Members(v) + {i}
  {
    var w := Inserted(v, i);
    forall k: nat ensures k in Members(w) <==> k == i || k in Members(v) {
      InMembers(v, k);
      InMembers(w, k);
      if k / 8 == i / 8 {
        BitOfWithBit(v[i / 8], i % 8, k % 8);
        if k % 8 == i % 8 {
          SamePlace(i, k);
        }
      }
    }
  }

  // ---- compress_bools ----

  /** One octet of packed bits. */
  method PackOctet(bits: seq<bool>) returns (octet: byte)
    requires |bits| <= 8
    ensures forall k :: 0 <= k < 8 ==> (Bit(octet, k) <==> k < |bits| && bits[k])
  {
    octet := 0;
    forall k: nat ensures !Bit(0, k) { NoBits(k); }
    for j := 0 to |bits|
      invariant forall k :: 0 <= k < 8 ==> (Bit(octet, k) <==> k < j && bits[k])
    {
      if bits[j] {
        forall k | 0 <= k < 8 ensures Bit(SetBit(octet, j), k) <==> k == j || Bit(octet, k) {
          BitOfWithBit(octet, j, k);
        }
        octet := SetBit(octet, j);
      }
    }
  }

  /** Packed bits read back exactly, in the least number of bytes, and the padding is zero. */
  method CompressBools(bits: seq<bool>) returns (bitvec: bytes)
    ensures |bitvec| == BitvecLen(|bits|)
    ensures forall i: nat :: Has(bitvec, i) <==> i < |bits| && bits[i]
  {
    bitvec := [];
    for i := 0 to |bits| / 8
      invariant |bitvec| == i
      invariant forall k: nat :: Has(bitvec, k) <==> k < 8 * i && bits[k]
    {
      var octet := PackOctet(bits[8 * i..8 * i + 8]);
      Appended(bitvec, octet, bits, 8);
      bitvec := bitvec + [octet];
    }
    if |bits| % 8 != 0 {
      var idx := |bits| / 8 * 8;
      var octet := PackOctet(bits[idx..]);
      assert bits[idx..] == bits[idx..idx + |bits| % 8];
      Appended(bitvec, octet, bits, |bits| % 8);
      bitvec := bitvec + [octet];
    }
  }

  lemma Appended(v: bytes, octet: byte, bits: seq<bool>, n: nat)
    requires n <= 8 && 8 * |v| + n <= |bits|
    requires forall k: nat :: Has(v, k) <==> k < 8 * |v| && bits[k]
    requires forall k :: 0 <= k < 8 ==> (Bit(octet, k) <==> k < n && bits[8 * |v|..8 * |v| + n][k])
    ensures forall k: nat :: Has(v + [octet], k) <==> k < 8 * |v| + n && bits[k]
  {
  }
}
