/** The pieces of Binary Canonical Serialization the commitments use, each uniquely readable. */
module Bcs {
  /** Bytes are integers; IsBytes says they are in range. */
  type Bytes = seq<int>

  predicate IsBytes(b: Bytes) { forall k :: 0 <= k < |b| ==> 0 <= b[k] < 256 }

  const TWO_TO_64: nat := 0x1_0000_0000_0000_0000

  function Power256(k: nat): nat { if k == 0 then 1 else 256 * Power256(k - 1) }

  /** The k low bytes of n, least significant first. */
  function LittleEndian(n: nat, k: nat): (b: Bytes)
    ensures |b| == k
    decreases n, k
  {
    if k == 0 then [] else [n % 256] + LittleEndian(n / 256, k - 1)
  }

  function FromLittleEndian(b: Bytes): int {
    if b == [] then 0 else b[0] + 256 * FromLittleEndian(b[1..])
  }

  function U64(n: nat): (b: Bytes)
    ensures |b| == 8
  { LittleEndian(n, 8) }

  lemma {:induction false} LittleEndianReads(n: nat, k: nat)
    requires n < Power256(k)
    ensures FromLittleEndian(LittleEndian(n, k)) == n
  {
    if k > 0 {
      LittleEndianReads(n / 256, k - 1);
      assert LittleEndian(n, k)[1..] == LittleEndian(n / 256, k - 1);
    }
  }

  lemma U64Reads(n: nat)
    requires n < TWO_TO_64
    ensures FromLittleEndian(U64(n)) == n
  {
    assert Power256(2) == 0x1_0000 && Power256(4) == 0x1_0000_0000 && Power256(6) == 0x1_0000_0000_0000;
    assert Power256(8) == TWO_TO_64;
    LittleEndianReads(n, 8);
  }

  /** Variable-length encoding of a length: seven bits a byte, high bit set on all but the last. */
  function Uleb(n: nat): (b: Bytes)
    ensures b != []
  {
    if n < 128 then [n] else [n % 128 + 128] + Uleb(n / 128)
  }

  function ByteVector(b: Bytes): Bytes { Uleb(|b|) + b }

  function Text(s: string): Bytes {
    ByteVector(seq(|s|, k requires 0 <= k < |s| => s[k] as int % 256))
  }

  lemma {:induction false} UlebPrefixFree(m: nat, x: Bytes, n: nat, y: Bytes)
    requires Uleb(m) + x == Uleb(n) + y
    ensures m == n && x == y
  {
    assert (Uleb(m) + x)[0] == (Uleb(n) + y)[0];
    if m < 128 {
      assert (Uleb(m) + x)[1..] == x;
      assert (Uleb(n) + y)[1..] == y;
    } else {
      assert Uleb(m)[0] == m % 128 + 128 && Uleb(n)[0] == n % 128 + 128;
      assert (Uleb(m) + x)[1..] == Uleb(m / 128) + x;
      assert (Uleb(n) + y)[1..] == Uleb(n / 128) + y;
      UlebPrefixFree(m / 128, x, n / 128, y);
    }
  }

  lemma ByteVectorUnique(a: Bytes, x: Bytes, b: Bytes, y: Bytes)
    requires ByteVector(a) + x == ByteVector(b) + y
    ensures a == b && x == y
  {
    assert ByteVector(a) + x == Uleb(|a|) + (a + x);
    assert ByteVector(b) + y == Uleb(|b|) + (b + y);
    UlebPrefixFree(|a|, a + x, |b|, b + y);
    assert a == (a + x)[..|a|] && b == (b + y)[..|b|];
    assert x == (a + x)[|a|..] && y == (b + y)[|b|..];
  }

  lemma U64Unique(m: nat, x: Bytes, n: nat, y: Bytes)
    requires m < TWO_TO_64 && n < TWO_TO_64 && U64(m) + x == U64(n) + y
    ensures m == n && x == y
  {
    assert U64(m) == (U64(m) + x)[..8] && U64(n) == (U64(n) + y)[..8];
    assert x == (U64(m) + x)[8..] && y == (U64(n) + y)[8..];
    U64Reads(m);
    U64Reads(n);
  }

  /** Equally long pieces at the front of two equal texts. */
  lemma PrefixUnique(a: Bytes, x: Bytes, b: Bytes, y: Bytes)
    requires |a| == |b| && a + x == b + y
    ensures a == b && x == y
  {
    assert a == (a + x)[..|a|] && b == (b + y)[..|b|];
    assert x == (a + x)[|a|..] && y == (b + y)[|b|..];
  }

  lemma ByteUnique(m: int, x: Bytes, n: int, y: Bytes)
    requires [m] + x == [n] + y
    ensures m == n && x == y
  {
    PrefixUnique([m], x, [n], y);
    assert [m][0] == [n][0];
  }

  /** Byte vectors one after the other, in front of the rest. */
  function Vectors(bs: seq<Bytes>, rest: Bytes): Bytes {
    if bs == [] then rest else ByteVector(bs[0]) + Vectors(bs[1..], rest)
  }

  lemma {:induction false} VectorsUnique(a: seq<Bytes>, x: Bytes, b: seq<Bytes>, y: Bytes)
    requires |a| == |b| && Vectors(a, x) == Vectors(b, y)
    ensures a == b && x == y
  {
    if a != [] {
      ByteVectorUnique(a[0], Vectors(a[1..], x), b[0], Vectors(b[1..], y));
      VectorsUnique(a[1..], x, b[1..], y);
    }
  }

  function U64s(ns: seq<nat>): Bytes {
    if ns == [] then [] else U64(ns[0]) + U64s(ns[1..])
  }

  lemma {:induction false} U64sUnique(a: seq<nat>, x: Bytes, b: seq<nat>, y: Bytes)
    requires |a| == |b| && U64s(a) + x == U64s(b) + y
    requires forall k :: 0 <= k < |a| ==> a[k] < TWO_TO_64 && b[k] < TWO_TO_64
    ensures a == b && x == y
  {
    if a != [] {
      assert U64s(a) + x == U64(a[0]) + (U64s(a[1..]) + x);
      assert U64s(b) + y == U64(b[0]) + (U64s(b[1..]) + y);
      U64Unique(a[0], U64s(a[1..]) + x, b[0], U64s(b[1..]) + y);
      U64sUnique(a[1..], x, b[1..], y);
    } else {
      assert U64s(a) + x == x && U64s(b) + y == y;
    }
  }
}
