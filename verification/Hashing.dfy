/**
 The streaming hashes (MD5, SHA-1, SHA-256) and HMAC, over an arbitrary block function.  The
 three differ only in the block function, the initial chaining value and the octet order of the
 length; all work on blocks of 64 octets.
 */
module Hashing {
  import opened Bytes

  const BLOCK := 64

  /** Which end of the 64-bit length comes first: MD5 is little-endian, SHA is big-endian. */
  datatype Order = LittleEndian | BigEndian

  // ---- The simple form -----------------------------------------------------------------

  /** The block function folded over a message of whole blocks. */
  function Fold<C>(f: (C, seq<Byte>) -> C, h: C, m: seq<Byte>): C
    requires |m| % BLOCK == 0
    decreases |m|
  {
    if m == [] then h else Fold(f, f(h, m[..BLOCK]), m[BLOCK..])
  }

  lemma {:induction false} FoldAppend<C>(f: (C, seq<Byte>) -> C, h: C, m: seq<Byte>, block: seq<Byte>)
    requires |m| % BLOCK == 0 && |block| == BLOCK
    ensures Fold(f, h, m + block) == f(Fold(f, h, m), block)
    decreases |m|
  {
    if m == [] {
      assert m + block == block;
      assert block[..BLOCK] == block && block[BLOCK..] == [];
    } else {
      FoldAppend(f, f(h, m[..BLOCK]), m[BLOCK..], block);
      assert (m + block)[..BLOCK] == m[..BLOCK];
      assert (m + block)[BLOCK..] == m[BLOCK..] + block;
    }
  }

  /** Octet `i` of a 64-bit number, least significant first. */
  function Octet(n: nat, i: nat): Byte { if i == 0 then n % 256 else Octet(n / 256, i - 1) }

  /** The message length in bits, modulo 2^64, as eight octets. */
  function LengthField(order: Order, bits: nat): (b: seq<Byte>)
    ensures |b| == 8
  {
    seq(8, i requires 0 <= i < 8 => Octet(bits, if order.LittleEndian? then i else 7 - i))
  }

  /** The number that octets spell, least significant first. */
  function Spelled(b: seq<Byte>): nat { if b == [] then 0 else b[0] + 256 * Spelled(b[1..]) }

  function Reversed(b: seq<Byte>): seq<Byte> { seq(|b|, i requires 0 <= i < |b| => b[|b| - 1 - i]) }

  function Radix(k: nat): nat { if k == 0 then 1 else 256 * Radix(k - 1) }

  /** The low `k` octets of a number. */
  function LowOctets(n: nat, k: nat): seq<Byte> { seq(k, i requires 0 <= i < k => Octet(n, i)) }

  lemma SpelledNext(n: nat, k: nat)
    requires k > 0
    ensures Spelled(LowOctets(n, k)) == n % 256 + 256 * Spelled(LowOctets(n / 256, k - 1))
  {
    var b := LowOctets(n, k);
    assert b[1..] == LowOctets(n / 256, k - 1);
  }

  lemma Carry(n: nat, v: nat, q: nat, r: nat)
    requires v < r && n / 256 == v + q * r
    ensures n % 256 + 256 * v < 256 * r && n == n % 256 + 256 * v + q * (256 * r)
  {
    assert q * (256 * r) == 256 * (q * r);
  }

  /** They spell it, up to a multiple of what they cannot hold. */
  lemma {:induction false} LowOctetsSpell(n: nat, k: nat) returns (q: nat)
    ensures Spelled(LowOctets(n, k)) < Radix(k) && n == Spelled(LowOctets(n, k)) + q * Radix(k)
  {
    if k == 0 {
      q := n;
    } else {
      q := LowOctetsSpell(n / 256, k - 1);
      SpelledNext(n, k);
      Carry(n, Spelled(LowOctets(n / 256, k - 1)), q, Radix(k - 1));
    }
  }

  lemma Radix8()
    ensures Radix(8) == 0x1_0000_0000_0000_0000
  {
    assert Radix(2) == 0x1_0000;
    assert Radix(4) == 256 * (256 * Radix(2));
    assert Radix(6) == 256 * (256 * Radix(4));
    assert Radix(8) == 256 * (256 * Radix(6));
  }

  lemma Remainder(n: nat, v: nat, q: nat)
    requires n == v + q * 0x1_0000_0000_0000_0000 && v < 0x1_0000_0000_0000_0000
    ensures n % 0x1_0000_0000_0000_0000 == v
  {
  }

  /** The field, read in its own octet order, is the bit length modulo 2^64. */
  lemma LengthFieldReads(order: Order, bits: nat)
    ensures Spelled(if order.LittleEndian? then LengthField(order, bits) else Reversed(LengthField(order, bits)))
            == bits % 0x1_0000_0000_0000_0000
  {
    var b := if order.LittleEndian? then LengthField(order, bits) else Reversed(LengthField(order, bits));
    assert b == LowOctets(bits, 8);
    var q := LowOctetsSpell(bits, 8);
    Radix8();
    Remainder(bits, Spelled(b), q);
  }

  /** The least number of zero octets after the 0x80 that leaves room for the length field. */
  function ZeroCount(n: nat): (z: nat)
    ensures z < BLOCK && (n + 1 + z) % BLOCK == 56
  {
    (119 - n % BLOCK) % BLOCK
  }

  /** Padding (section 5.1.1 of FIPS 180-4). */
  function Padding(order: Order, n: nat): seq<Byte>
  {
    [0x80] + Zeros(ZeroCount(n)) + LengthField(order, n * 8)
  }

  lemma WholeFrom56(n: nat)
    requires n % BLOCK == 56
    ensures (n + 8) % BLOCK == 0
  {
  }

  lemma PaddedWhole(order: Order, m: seq<Byte>)
    ensures |m + Padding(order, |m|)| % BLOCK == 0
  {
    WholeFrom56(|m| + 1 + ZeroCount(|m|));
  }

  function Digest<C>(f: (C, seq<Byte>) -> C, h: C, order: Order, m: seq<Byte>): C
  {
    PaddedWhole(order, m);
    Fold(f, h, m + Padding(order, |m|))
  }

  // ---- The streaming form --------------------------------------------------------------

  /** `chain` is the fold over the whole blocks of `msg`, and `tail` is the rest. */
  predicate Absorbed<C(==)>(f: (C, seq<Byte>) -> C, h: C, msg: seq<Byte>, chain: C, tail: seq<Byte>)
  {
    && |tail| < BLOCK && |tail| <= |msg| && (|msg| - |tail|) % BLOCK == 0
    && tail == msg[|msg| - |tail|..]
    && chain == Fold(f, h, msg[..|msg| - |tail|])
  }

  /** More octets that do not fill the block. */
  lemma AbsorbTail<C>(f: (C, seq<Byte>) -> C, h: C, msg: seq<Byte>, chain: C, tail: seq<Byte>, data: seq<Byte>)
    requires Absorbed(f, h, msg, chain, tail) && |tail| + |data| < BLOCK
    ensures Absorbed(f, h, msg + data, chain, tail + data)
  {
    assert (msg + data)[|msg| - |tail|..] == tail + data;
    assert (msg + data)[..|msg| - |tail|] == msg[..|msg| - |tail|];
  }

  /** Octets that fill it exactly. */
  lemma AbsorbBlock<C>(f: (C, seq<Byte>) -> C, h: C, msg: seq<Byte>, chain: C, tail: seq<Byte>, data: seq<Byte>)
    requires Absorbed(f, h, msg, chain, tail) && |tail| + |data| == BLOCK
    ensures Absorbed(f, h, msg + data, f(chain, tail + data), [])
  {
    var whole := msg[..|msg| - |tail|];
    FoldAppend(f, h, whole, tail + data);
    assert msg + data == whole + (tail + data);
    assert (msg + data)[..|msg + data|] == msg + data;
  }

  class Context<C(==)> {
    const f: (C, seq<Byte>) -> C
    const start: C
    const buf: array<Byte>
    var h: C
    var bufLen: nat
    var len: nat
    ghost var msg: seq<Byte>

    /** Everything absorbed so far is in the chaining value and the buffer. */
    ghost predicate Holds()
      reads this, buf
    {
      buf.Length == BLOCK && bufLen < BLOCK && Absorbed(f, start, msg, h, buf[..bufLen])
    }

    ghost predicate Valid()
      reads this, buf
    {
      Holds() && len == |msg|
    }

    constructor (f: (C, seq<Byte>) -> C, start: C)
      ensures Valid() && fresh(buf) && msg == [] && this.f == f && this.start == start
    {
      this.f, this.start := f, start;
      buf := new Byte[BLOCK];
      h, bufLen, len, msg := start, 0, 0, [];
    }

    /** Copy to the end of the buffer. */
    method Store(data: seq<Byte>)
      requires buf.Length == BLOCK && bufLen + |data| <= BLOCK
      modifies this`bufLen, buf
      ensures buf.Length == BLOCK
      ensures bufLen == old(bufLen) + |data| && buf[..bufLen] == old(buf[..bufLen]) + data
    {
      forall i | 0 <= i < |data| {
        buf[bufLen + i] := data[i];
      }
      bufLen := bufLen + |data|;
    }

    /** Whole blocks straight from the input. */
    method Blocks(data: seq<Byte>) returns (rest: seq<Byte>)
      requires Absorbed(f, start, msg, h, [])
      modifies this`h, this`msg
      ensures Absorbed(f, start, msg, h, []) && |rest| < BLOCK && |rest| <= |data| && rest == data[|data| - |rest|..]
      ensures msg == old(msg) + data[..|data| - |rest|]
    {
      rest := data;
      while |rest| >= BLOCK
        invariant Absorbed(f, start, msg, h, []) && |rest| <= |data| && rest == data[|data| - |rest|..]
        invariant msg == old(msg) + data[..|data| - |rest|]
      {
        var block := rest[..BLOCK];
        AbsorbWhole(f, start, msg, h, block);
        NextBlock(old(msg), data, |data| - |rest|);
        h := f(h, block);
        msg := msg + block;
        rest := rest[BLOCK..];
      }
    }

    /** Complete a partly filled buffer; what is not needed for that is returned. */
    method Fill(data: seq<Byte>) returns (rest: seq<Byte>)
      requires Holds() && bufLen > 0
      modifies this`h, this`msg, this`bufLen, buf
      ensures Holds()
      ensures |rest| <= |data| && rest == data[|data| - |rest|..] && msg == old(msg) + data[..|data| - |rest|]
      ensures rest != [] ==> bufLen == 0
    {
      var take := Min(BLOCK - bufLen, |data|);
      ghost var tail := buf[..bufLen];
      rest := data[take..];
      if bufLen + take < BLOCK {
        AbsorbTail(f, start, msg, h, tail, data[..take]);
        Store(data[..take]);
      } else {
        AbsorbBlock(f, start, msg, h, tail, data[..take]);
        Store(data[..take]);
        assert buf[..] == buf[..bufLen];
        h := f(h, buf[..]);
        bufLen := 0;
        assert buf[..0] == [];
      }
      msg := msg + data[..take];
    }

    /** Whole blocks, then the rest into the empty buffer. */
    method Stream(data: seq<Byte>)
      requires Holds() && bufLen == 0
      modifies this`h, this`msg, this`bufLen, buf
      ensures Holds() && msg == old(msg) + data
    {
      assert buf[..0] == [];
      var last := Blocks(data);
      ghost var whole := data[..|data| - |last|];
      assert data == whole + last;
      Assoc(old(msg), whole, last);
      AbsorbTail(f, start, msg, h, [], last);
      assert [] + last == last;
      if last != [] { Store(last); }
      msg := msg + last;
    }

    /** Any split of a message into updates absorbs the same message. */
    method Update(data: seq<Byte>)
      requires Valid()
      modifies this`h, this`msg, this`bufLen, this`len, buf
      ensures Valid() && msg == old(msg) + data
    {
      len := len + |data|;
      if bufLen > 0 {
        var rest := Fill(data);
        ghost var first := data[..|data| - |rest|];
        assert data == first + rest;
        Assoc(old(msg), first, rest);
        if rest != [] { Stream(rest); }
      } else {
        Stream(data);
      }
    }

    lemma FullAt56(n: nat, k: nat)
      requires Valid() && |msg| == n + 1 + k && k <= ZeroCount(n)
      ensures bufLen == 56 <==> k == ZeroCount(n)
    {
      PaddedAt56(n, k, |msg|, bufLen);
    }

    /** One padding octet at a time until only the length field is missing. */
    method PadZeros(ghost n: nat)
      requires Valid() && |msg| == n + 1
      modifies this`h, this`msg, this`bufLen, this`len, buf
      ensures Valid() && msg == old(msg) + Zeros(ZeroCount(n))
    {
      ghost var k, zeros := 0, ZeroCount(n);
      assert Zeros(0) == [];
      while bufLen != 56
        invariant Valid() && k <= zeros && msg == old(msg) + Zeros(k)
        decreases zeros - k
      {
        FullAt56(n, k);
        OneMoreZero(old(msg), k);
        Update([0]);
        k := k + 1;
      }
      FullAt56(n, k);
    }

    /** The digest of everything absorbed. */
    method Final(order: Order) returns (d: C)
      requires Valid()
      modifies this`h, this`msg, this`bufLen, this`len, buf
      ensures d == Digest(f, start, order, old(msg))
    {
      var bits := len * 8;
      ghost var n := |msg|;
      Update([0x80]);
      PadZeros(n);
      Update(LengthField(order, bits));
      PaddingParts(order, old(msg));
      WholeAbsorbed(f, start, msg, h, buf[..bufLen]);
      d := h;
    }
  }

  lemma AbsorbWhole<C>(f: (C, seq<Byte>) -> C, h: C, msg: seq<Byte>, chain: C, block: seq<Byte>)
    requires Absorbed(f, h, msg, chain, []) && |block| == BLOCK
    ensures Absorbed(f, h, msg + block, f(chain, block), [])
  {
    AbsorbBlock(f, h, msg, chain, [], block);
    assert [] + block == block;
  }

  lemma NextBlock(m: seq<Byte>, data: seq<Byte>, done: nat)
    requires done + BLOCK <= |data|
    ensures data[done..][BLOCK..] == data[done + BLOCK..]
    ensures m + data[..done] + data[done..][..BLOCK] == m + data[..done + BLOCK]
  {
  }

  lemma BufferIsRemainder(total: nat, buffered: nat)
    requires buffered < BLOCK && buffered <= total && (total - buffered) % BLOCK == 0
    ensures buffered == total % BLOCK
  {
  }

  /** Of the counts up to the right one, only the right one leaves the buffer at 56. */
  lemma OneCount(n: nat, k: nat)
    requires k <= ZeroCount(n) && (n + 1 + k) % BLOCK == 56
    ensures k == ZeroCount(n)
  {
  }

  lemma PaddedAt56(n: nat, k: nat, total: nat, buffered: nat)
    requires k <= ZeroCount(n) && total == n + 1 + k
    requires buffered < BLOCK && buffered <= total && (total - buffered) % BLOCK == 0
    ensures buffered == 56 <==> k == ZeroCount(n)
  {
    BufferIsRemainder(total, buffered);
    if buffered == 56 { OneCount(n, k); }
  }

  lemma OneMoreZero(m: seq<Byte>, k: nat)
    ensures m + Zeros(k) + [0] == m + Zeros(k + 1)
  {
  }

  lemma PaddingParts(order: Order, m: seq<Byte>)
    ensures m + [0x80] + Zeros(ZeroCount(|m|)) + LengthField(order, |m| * 8) == m + Padding(order, |m|)
    ensures |m + Padding(order, |m|)| % BLOCK == 0
  {
    PaddedWhole(order, m);
  }

  /** A message of whole blocks leaves nothing in the buffer. */
  lemma WholeAbsorbed<C>(f: (C, seq<Byte>) -> C, h: C, msg: seq<Byte>, chain: C, tail: seq<Byte>)
    requires Absorbed(f, h, msg, chain, tail) && |msg| % BLOCK == 0
    ensures tail == [] && chain == Fold(f, h, msg)
  {
    BufferIsRemainder(|msg|, |tail|);
    assert msg[..|msg|] == msg;
  }

  // ---- Messages in any pieces ----------------------------------------------------------

  function Joined(parts: seq<seq<Byte>>): seq<Byte>
  {
    if parts == [] then [] else Joined(parts[..|parts| - 1]) + parts[|parts| - 1]
  }

  /** Hashing a message in any pieces is folding the block function over the padded message. */
  method HashParts<C(==)>(f: (C, seq<Byte>) -> C, start: C, order: Order, parts: seq<seq<Byte>>) returns (d: C)
    ensures d == Digest(f, start, order, Joined(parts))
  {
    var c := new Context<C>(f, start);
    for i := 0 to |parts|
      invariant c.Valid() && fresh(c) && fresh(c.buf) && c.f == f && c.start == start && c.msg == Joined(parts[..i])
    {
      assert parts[..i + 1][..i] == parts[..i];
      c.Update(parts[i]);
    }
    assert parts[..|parts|] == parts;
    d := c.Final(order);
  }

  // ---- HMAC ----------------------------------------------------------------------------

  /** A key of one block: short keys are extended with zeros, long ones hashed first. */
  function BlockKey<C>(f: (C, seq<Byte>) -> C, start: C, order: Order, encode: C -> seq<Byte>, key: seq<Byte>): (k: seq<Byte>)
    ensures |k| == BLOCK
  {
    var short := if |key| <= BLOCK then key else encode(Digest(f, start, order, key));
    if |short| <= BLOCK then short + Zeros(BLOCK - |short|) else short[..BLOCK]
  }

  function Repeat(b: Byte): (r: seq<Byte>)
    ensures |r| == BLOCK
  {
    seq(BLOCK, i => b)
  }

  /** HMAC (RFC 2104): the outer hash over the inner digest. */
  function HmacOf<C>(f: (C, seq<Byte>) -> C, start: C, order: Order, encode: C -> seq<Byte>, key: seq<Byte>, m: seq<Byte>): C
  {
    var k := BlockKey(f, start, order, encode, key);
    var inner := encode(Digest(f, start, order, XorOctets(k, Repeat(0x36)) + m));
    Digest(f, start, order, XorOctets(k, Repeat(0x5c)) + inner)
  }

  /** A pad is the block key with one constant mixed into every octet, bit by bit. */
  predicate Mixed(pad: seq<Byte>, key: seq<Byte>, constant: Byte)
  {
    && |pad| == BLOCK && |key| == BLOCK
    && forall i, j :: 0 <= i < BLOCK && 0 <= j < 8 ==> (Bit(pad[i], j) <==> Bit(key[i], j) != Bit(constant, j))
  }

  lemma PadIsMixed(key: seq<Byte>, constant: Byte)
    requires |key| == BLOCK
    ensures Mixed(XorOctets(key, Repeat(constant)), key, constant)
  {
    var pad := XorOctets(key, Repeat(constant));
    forall i, j | 0 <= i < BLOCK && 0 <= j < 8 ensures Bit(pad[i], j) <==> Bit(key[i], j) != Bit(constant, j) {
      XorBitAt(key[i], constant, 8, j);
    }
  }

  /** HMAC is the digest of the outer pad and the digest of the inner pad and the message. */
  lemma HmacIs<C>(f: (C, seq<Byte>) -> C, start: C, order: Order, encode: C -> seq<Byte>, key: seq<Byte>, m: seq<Byte>)
    returns (k0: seq<Byte>, ipad: seq<Byte>, opad: seq<Byte>)
    ensures |key| <= BLOCK ==> k0 == key + Zeros(BLOCK - |key|)
    ensures |key| > BLOCK && |encode(Digest(f, start, order, key))| <= BLOCK ==>
              var d := encode(Digest(f, start, order, key));
              k0 == d + Zeros(BLOCK - |d|)
    ensures Mixed(ipad, k0, 0x36) && Mixed(opad, k0, 0x5c)
    ensures HmacOf(f, start, order, encode, key, m) == Digest(f, start, order, opad + encode(Digest(f, start, order, ipad + m)))
  {
    k0 := BlockKey(f, start, order, encode, key);
    ipad, opad := XorOctets(k0, Repeat(0x36)), XorOctets(k0, Repeat(0x5c));
    PadIsMixed(k0, 0x36);
    PadIsMixed(k0, 0x5c);
  }

  method Hmac<C(==)>(f: (C, seq<Byte>) -> C, start: C, order: Order, encode: C -> seq<Byte>, key: seq<Byte>, m: seq<Byte>)
    returns (d: C)
    ensures d == HmacOf(f, start, order, encode, key, m)
  {
    var k: seq<Byte>;
    if |key| <= BLOCK {
      k := key + Zeros(BLOCK - |key|);
    } else {
      var keyDigest := HashParts(f, start, order, [key]);
      JoinedOne(key);
      var e := encode(keyDigest);
      k := if |e| <= BLOCK then e + Zeros(BLOCK - |e|) else e[..BLOCK];
    }
    var ipad, opad := XorOctets(k, Repeat(0x36)), XorOctets(k, Repeat(0x5c));
    var inner := HashParts(f, start, order, [ipad, m]);
    JoinedTwo(ipad, m);
    var innerDigest := encode(inner);
    d := HashParts(f, start, order, [opad, innerDigest]);
    JoinedTwo(opad, innerDigest);
  }

  lemma JoinedOne(a: seq<Byte>)
    ensures Joined([a]) == a
  {
    assert Joined([a]) == Joined([]) + a;
  }

  lemma JoinedTwo(a: seq<Byte>, b: seq<Byte>)
    ensures Joined([a, b]) == a + b
  {
    assert [a, b][..1] == [a];
    JoinedOne(a);
  }
}
