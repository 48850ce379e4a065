/** Octets and the big-endian integer fields that every framing layer shares. */
module Bytes {

  type Byte = x: int | 0 <= x < 256

  /** The two octets written for a length or type field; wider values lose their high bits. */
  function U16(n: nat): (b: seq<Byte>)
    ensures |b| == 2
  {
    [(n / 256) % 256, n % 256]
  }

  /** The 16-bit field at the front of `b`. */
  function ReadU16(b: seq<Byte>): (n: nat)
    requires |b| >= 2
    ensures n < 0x1_0000
  {
    var hi: int, lo: int := b[0], b[1];
    hi * 256 + lo
  }

  /** Network order: the high octet first. */
  lemma HighFirst(n: nat)
    requires n < 0x1_0000
    ensures var hi: int, lo: int := U16(n)[0], U16(n)[1];
            n == hi * 256 + lo
  {
  }

  function U32(n: nat): (b: seq<Byte>)
    ensures |b| == 4
  {
    U16(n / 0x1_0000) + U16(n % 0x1_0000)
  }

  function ReadU32(b: seq<Byte>): (n: nat)
    requires |b| >= 4
    ensures n < 0x1_0000_0000
  {
    ReadU16(b) * 0x1_0000 + ReadU16(b[2..])
  }

  /** Reading a field back gives the written value modulo the width of the field. */
  lemma U16RoundTrip(n: nat, rest: seq<Byte>)
    ensures ReadU16(U16(n) + rest) == n % 0x1_0000
  {
  }

  lemma U32RoundTrip(n: nat, rest: seq<Byte>)
    requires n < 0x1_0000_0000
    ensures ReadU32(U32(n) + rest) == n
  {
    var s := U32(n) + rest;
    assert s == U16(n / 0x1_0000) + (U16(n % 0x1_0000) + rest);
    assert s[2..] == U16(n % 0x1_0000) + rest;
    U16RoundTrip(n / 0x1_0000, U16(n % 0x1_0000) + rest);
    U16RoundTrip(n % 0x1_0000, rest);
  }

  lemma Assoc(a: seq<Byte>, b: seq<Byte>, c: seq<Byte>)
    ensures a + b + c == a + (b + c)
  {
  }

  /** `paddedSize`: the next multiple of four. */
  function Padded(n: nat): (p: nat)
    ensures p % 4 == 0 && n <= p < n + 4
  {
    n + (4 - n % 4) % 4
  }

  function Zeros(n: nat): (z: seq<Byte>)
    ensures |z| == n
    ensures forall i :: 0 <= i < n ==> z[i] == 0
  {
    seq(n, i => 0)
  }

  function Min(a: nat, b: nat): (m: nat)
    ensures m <= a && m <= b && (m == a || m == b)
  {
    if a < b then a else b
  }

  // ---- Exclusive or of octets ----------------------------------------------------------

  function Pow2(k: nat): nat { if k == 0 then 1 else 2 * Pow2(k - 1) }

  lemma Pow2Octet()
    ensures Pow2(8) == 256
  {
    assert Pow2(4) == 16;
  }

  /** Bitwise exclusive or of the low `k` bits. */
  function XorBits(a: nat, b: nat, k: nat): (r: nat)
    ensures r < Pow2(k)
  {
    if k == 0 then 0 else 2 * XorBits(a / 2, b / 2, k - 1) + (if a % 2 == b % 2 then 0 else 1)
  }

  /** Bit `j` of a number. */
  predicate Bit(n: nat, j: nat) { if j == 0 then n % 2 == 1 else Bit(n / 2, j - 1) }

  /** Each bit is the exclusive or of the two. */
  lemma {:induction false} XorBitAt(a: nat, b: nat, k: nat, j: nat)
    requires j < k
    ensures Bit(XorBits(a, b, k), j) <==> Bit(a, j) != Bit(b, j)
  {
    var x := XorBits(a, b, k);
    assert x / 2 == XorBits(a / 2, b / 2, k - 1) && x % 2 == if a % 2 == b % 2 then 0 else 1;
    if j > 0 { XorBitAt(a / 2, b / 2, k - 1, j - 1); }
  }

  lemma {:induction false} XorTwice(a: nat, b: nat, k: nat)
    requires a < Pow2(k)
    ensures XorBits(XorBits(a, b, k), b, k) == a
  {
    if k > 0 {
      var x := XorBits(a, b, k);
      assert x / 2 == XorBits(a / 2, b / 2, k - 1) && x % 2 == if a % 2 == b % 2 then 0 else 1;
      XorTwice(a / 2, b / 2, k - 1);
    }
  }

  function XorOctets(a: seq<Byte>, b: seq<Byte>): (r: seq<Byte>)
    requires |a| == |b|
    ensures |r| == |a|
  {
    Pow2Octet();
    seq(|a|, i requires 0 <= i < |a| => XorBits(a[i], b[i], 8))
  }

  /** Masking twice with the same octets changes nothing. */
  lemma XorOctetsTwice(a: seq<Byte>, b: seq<Byte>)
    requires |a| == |b|
    ensures XorOctets(XorOctets(a, b), b) == a
  {
    Pow2Octet();
    forall i | 0 <= i < |a| ensures XorOctets(XorOctets(a, b), b)[i] == a[i] {
      XorTwice(a[i], b[i], 8);
    }
  }
}
