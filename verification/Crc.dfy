/**
 CRC-32 as used by FINGERPRINT: the table-driven form, one octet at a time, against division by
 the generator polynomial, one message bit at a time.  A 32-bit word is the list of its bits,
 least significant first.
 */
module Crc {
  import opened Bytes

  type Word = w: seq<bool> | |w| == 32 witness seq(32, i => false)

  /** The low `k` bits of a number. */
  function BitsOf(n: nat, k: nat): (b: seq<bool>)
    ensures |b| == k
  {
    if k == 0 then [] else [n % 2 == 1] + BitsOf(n / 2, k - 1)
  }

  function ValueOf(b: seq<bool>): nat
  {
    if b == [] then 0 else (if b[0] then 1 else 0) + 2 * ValueOf(b[1..])
  }

  /** The reflected generator polynomial. */
  function Poly(): Word { BitsOf(0xEDB88320, 32) }

  lemma FourBits(n: nat, k: nat)
    requires k >= 4
    ensures BitsOf(n, k) == [n % 2 == 1, n / 2 % 2 == 1, n / 4 % 2 == 1, n / 8 % 2 == 1] + BitsOf(n / 16, k - 4)
  {
    assert BitsOf(n, k) == [n % 2 == 1] + BitsOf(n / 2, k - 1);
    assert BitsOf(n / 2, k - 1) == [n / 2 % 2 == 1] + BitsOf(n / 4, k - 2);
    assert BitsOf(n / 4, k - 2) == [n / 4 % 2 == 1] + BitsOf(n / 8, k - 3);
    assert BitsOf(n / 8, k - 3) == [n / 8 % 2 == 1] + BitsOf(n / 16, k - 4);
  }

  /** The generator of IEEE 802.3 without its leading term: the exponents of its terms. */
  predicate Term(e: int)
  {
    e == 26 || e == 23 || e == 22 || e == 16 || e == 12 || e == 11 || e == 10 || e == 8 || e == 7 || e == 5 || e == 4
    || e == 2 || e == 1 || e == 0
  }

  /** The bits of `n` are the terms x^(top) down to x^(top - k + 1). */
  predicate Terms(n: nat, k: nat, top: nat)
  {
    forall i :: 0 <= i < k ==> (BitsOf(n, k)[i] <==> Term(top - i))
  }

  lemma FourTerms(n: nat, k: nat, top: nat)
    requires k >= 4 && Terms(n / 16, k - 4, top) && top + 4 < 32
    requires n % 2 == 1 <==> Term(top + 4)
    requires n / 2 % 2 == 1 <==> Term(top + 3)
    requires n / 4 % 2 == 1 <==> Term(top + 2)
    requires n / 8 % 2 == 1 <==> Term(top + 1)
    ensures Terms(n, k, top + 4)
  {
    FourBits(n, k);
    var lo, hi := [n % 2 == 1, n / 2 % 2 == 1, n / 4 % 2 == 1, n / 8 % 2 == 1], BitsOf(n / 16, k - 4);
    forall i | 0 <= i < k ensures BitsOf(n, k)[i] <==> Term(top + 4 - i) {
      assert BitsOf(n, k)[i] == if i < 4 then lo[i] else hi[i - 4];
    }
  }

  lemma UpperTerms()
    ensures Terms(0xEDB8, 16, 15)
  {
    assert Terms(0xE, 4, 3) by { FourBits(0xE, 4); }
    FourTerms(0xED, 8, 3);
    FourTerms(0xEDB, 12, 7);
    FourTerms(0xEDB8, 16, 11);
  }

  /** Bit `i` of the polynomial is the coefficient of x^(31 - i). */
  lemma PolyIs()
    ensures forall i :: 0 <= i < 32 ==> (Poly()[i] <==> Term(31 - i))
  {
    UpperTerms();
    FourTerms(0xEDB88, 20, 15);
    FourTerms(0xEDB883, 24, 19);
    FourTerms(0xEDB8832, 28, 23);
    FourTerms(0xEDB88320, 32, 27);
  }

  function Ones(): Word { BitsOf(0xFFFFFFFF, 32) }

  function Xor(a: Word, b: Word): Word { seq(32, i requires 0 <= i < 32 => a[i] != b[i]) }

  /** A right shift by `k`. */
  function Shr(w: Word, k: nat): Word
    requires k <= 32
  {
    w[k..] + seq(k, i => false)
  }

  // ---- Bit at a time -------------------------------------------------------------------

  /** Shift one message bit into the remainder. */
  function DivideBit(crc: Word, bit: bool): Word
  {
    if crc[0] != bit then Xor(Poly(), Shr(crc, 1)) else Shr(crc, 1)
  }

  function Divide(crc: Word, bits: seq<bool>): Word
    decreases |bits|
  {
    if bits == [] then crc else Divide(DivideBit(crc, bits[0]), bits[1..])
  }

  /** The bits of a message in transmission order. */
  function AllBits(data: seq<Byte>): seq<bool>
  {
    if data == [] then [] else AllBits(data[..|data| - 1]) + BitsOf(data[|data| - 1], 8)
  }

  lemma {:induction false} BitsAt(n: nat, k: nat, j: nat)
    requires j < k
    ensures BitsOf(n, k)[j] <==> Bit(n, j)
  {
    if j > 0 { BitsAt(n / 2, k - 1, j - 1); }
  }

  /** Octet by octet, each from its least significant bit. */
  lemma {:induction false} AllBitsAt(data: seq<Byte>, i: nat, j: nat)
    requires i < |data| && j < 8
    ensures |AllBits(data)| == 8 * |data| && (AllBits(data)[8 * i + j] <==> Bit(data[i], j))
  {
    var last := |data| - 1;
    AllBitsLength(data[..last]);
    if i < last { AllBitsAt(data[..last], i, j); } else { BitsAt(data[last], 8, j); }
  }

  lemma {:induction false} AllBitsLength(data: seq<Byte>)
    ensures |AllBits(data)| == 8 * |data|
  {
    if data != [] { AllBitsLength(data[..|data| - 1]); }
  }

  /** The checksum by definition: a complement before and after the division. */
  function Crc32(data: seq<Byte>): Word { Xor(Divide(Ones(), AllBits(data)), Ones()) }

  lemma {:induction false} DivideConcat(crc: Word, a: seq<bool>, b: seq<bool>)
    ensures Divide(crc, a + b) == Divide(Divide(crc, a), b)
    decreases |a|
  {
    if a == [] {
      assert a + b == b;
    } else {
      DivideConcat(DivideBit(crc, a[0]), a[1..], b);
      assert (a + b)[1..] == a[1..] + b;
    }
  }

  lemma {:induction false} OnesAt(n: nat, k: nat)
    requires n + 1 == Pow2(k)
    ensures var b := BitsOf(n, k); forall i :: 0 <= i < k ==> b[i]
  {
    if k > 0 {
      assert n / 2 + 1 == Pow2(k - 1);
      OnesAt(n / 2, k - 1);
      assert BitsOf(n, k) == [n % 2 == 1] + BitsOf(n / 2, k - 1);
    }
  }

  /** The complement mask has every bit set. */
  lemma OnesIs()
    ensures var b := Ones(); forall i :: 0 <= i < 32 ==> b[i]
  {
    assert Pow2(8) == 0x100;
    assert Pow2(16) == 0x1_0000;
    assert Pow2(24) == 0x100_0000;
    assert Pow2(32) == 0x1_0000_0000;
    OnesAt(0xFFFF_FFFF, 32);
    var b := Ones();
    assert b == BitsOf(0xFFFF_FFFF, 32);
  }

  // ---- What the checksum detects ---------------------------------------------------------

  lemma LowestTerm()
    ensures Poly()[31]
  {
    PolyIs();
    assert Term(31 - 31);
  }

  /** The bit shifted out shows in the highest bit; the others move down by one. */
  lemma DivideBitAt(crc: Word, bit: bool)
    ensures DivideBit(crc, bit)[31] <==> crc[0] != bit
    ensures forall i :: 0 <= i < 31 ==> DivideBit(crc, bit)[i] == (crc[i + 1] != (Poly()[i] && crc[0] != bit))
  {
    LowestTerm();
  }

  /** Remainders that agree from bit `m` on came from remainders that agree from bit `m + 1` on, with the same feedback. */
  lemma Backwards(c: Word, b: bool, c': Word, b': bool, m: nat)
    requires m < 32 && DivideBit(c, b)[m..] == DivideBit(c', b')[m..]
    ensures c[m + 1..] == c'[m + 1..] && (c[0] != b <==> c'[0] != b')
  {
    DivideBitAt(c, b);
    DivideBitAt(c', b');
    var r, r' := DivideBit(c, b), DivideBit(c', b');
    assert forall i :: m <= i < 32 ==> r[i] == r[m..][i - m] && r'[i] == r'[m..][i - m];
    forall j | m + 1 <= j < 32 ensures c[j] == c'[j] {
      assert r[j - 1] == r'[j - 1];
    }
  }

  lemma {:induction false} SameEnd(c: Word, a: seq<bool>, c': Word, a': seq<bool>)
    requires |a| == |a'| <= 32 && Divide(c, a) == Divide(c', a')
    ensures c[|a|..] == c'[|a|..]
    decreases |a|
  {
    if a == [] {
      assert c == c';
    } else {
      SameEnd(DivideBit(c, a[0]), a[1..], DivideBit(c', a'[0]), a'[1..]);
      Backwards(c, a[0], c', a'[0], |a| - 1);
    }
  }

  /** Strings of at most 32 bits that leave the same remainder are the same. */
  lemma {:induction false} ShortInjective(c: Word, a: seq<bool>, a': seq<bool>)
    requires |a| == |a'| <= 32 && Divide(c, a) == Divide(c, a')
    ensures a == a'
    decreases |a|
  {
    if a != [] {
      SameEnd(DivideBit(c, a[0]), a[1..], DivideBit(c, a'[0]), a'[1..]);
      Backwards(c, a[0], c, a'[0], |a| - 1);
      ShortInjective(DivideBit(c, a[0]), a[1..], a'[1..]);
      assert a == [a[0]] + a[1..] && a' == [a'[0]] + a'[1..];
    }
  }

  /** Remainders that a common tail makes equal were equal. */
  lemma {:induction false} TailInjective(c: Word, c': Word, q: seq<bool>)
    requires Divide(c, q) == Divide(c', q)
    ensures c == c'
    decreases |q|
  {
    if q != [] {
      TailInjective(DivideBit(c, q[0]), DivideBit(c', q[0]), q[1..]);
      Backwards(c, q[0], c', q[0], 0);
      assert c == [c[0]] + c[1..] && c' == [c'[0]] + c'[1..];
    }
  }

  /** The checksum detects every error confined to 32 consecutive bits, wherever it lies. */
  lemma BurstDetected(data: seq<Byte>, data': seq<Byte>, p: seq<bool>, a: seq<bool>, a': seq<bool>, q: seq<bool>)
    requires AllBits(data) == p + a + q && AllBits(data') == p + a' + q
    requires |a| == |a'| <= 32 && a != a'
    ensures Crc32(data) != Crc32(data')
  {
    var c := Divide(Ones(), p);
    DivideConcat(Ones(), p + a, q);
    DivideConcat(Ones(), p + a', q);
    DivideConcat(Ones(), p, a);
    DivideConcat(Ones(), p, a');
    if Crc32(data) == Crc32(data') {
      XorInjective(Divide(Ones(), p + a + q), Divide(Ones(), p + a' + q), Ones());
      TailInjective(Divide(c, a), Divide(c, a'), q);
      ShortInjective(c, a, a');
    }
  }

  lemma XorInjective(a: Word, b: Word, m: Word)
    requires Xor(a, m) == Xor(b, m)
    ensures a == b
  {
    forall i | 0 <= i < 32 ensures a[i] == b[i] {
      assert Xor(a, m)[i] == Xor(b, m)[i];
    }
  }

  // ---- Laws of words -------------------------------------------------------------------

  lemma XorAssoc(a: Word, b: Word, c: Word)
    ensures Xor(Xor(a, b), c) == Xor(a, Xor(b, c))
  {
  }

  lemma XorComm(a: Word, b: Word)
    ensures Xor(a, b) == Xor(b, a)
  {
  }

  lemma XorCancel(p: Word, a: Word, b: Word)
    ensures Xor(Xor(p, a), Xor(p, b)) == Xor(a, b)
  {
  }

  lemma ShrXor(a: Word, b: Word, k: nat)
    requires k <= 32
    ensures Shr(Xor(a, b), k) == Xor(Shr(a, k), Shr(b, k))
  {
  }

  lemma ShrShr(w: Word, j: nat, k: nat)
    requires j + k <= 32
    ensures Shr(Shr(w, j), k) == Shr(w, j + k)
  {
  }

  // ---- Octet at a time -----------------------------------------------------------------

  /** One step of the table's inner loop. */
  function Step(c: Word): Word { if c[0] then Xor(Poly(), Shr(c, 1)) else Shr(c, 1) }

  function Steps(c: Word, n: nat): Word { if n == 0 then c else Step(Steps(c, n - 1)) }

  /** A step is linear over exclusive or. */
  lemma StepXor(a: Word, b: Word)
    ensures Step(Xor(a, b)) == Xor(Step(a), Step(b))
  {
    ShrXor(a, b, 1);
    var p, x, y := Poly(), Shr(a, 1), Shr(b, 1);
    XorCancel(p, x, y);
    XorAssoc(p, x, y);
    XorAssoc(x, p, y);
    XorComm(x, p);
  }

  lemma {:induction false} StepsXor(a: Word, b: Word, n: nat)
    ensures Steps(Xor(a, b), n) == Xor(Steps(a, n), Steps(b, n))
  {
    if n > 0 {
      StepsXor(a, b, n - 1);
      StepXor(Steps(a, n - 1), Steps(b, n - 1));
      assert Steps(Xor(a, b), n) == Step(Steps(Xor(a, b), n - 1));
    }
  }

  /** With the low octet clear, eight steps only shift. */
  lemma {:induction false} StepsShift(w: Word, n: nat)
    requires n <= 8 && forall i :: 0 <= i < 8 ==> !w[i]
    ensures Steps(w, n) == Shr(w, n)
  {
    if n == 0 {
      assert Shr(w, 0) == w;
    } else {
      StepsShift(w, n - 1);
      assert !Shr(w, n - 1)[0];
      ShrShr(w, n - 1, 1);
    }
  }

  function Low(w: Word): Word { w[..8] + seq(24, i => false) }

  function High(w: Word): Word { seq(8, i => false) + w[8..] }

  /** The table trick: eight steps are one lookup of the low octet and one shift by eight. */
  lemma TableStep(w: Word)
    ensures Steps(w, 8) == Xor(Steps(Low(w), 8), Shr(w, 8))
  {
    assert w == Xor(Low(w), High(w));
    StepsXor(Low(w), High(w), 8);
    StepsShift(High(w), 8);
    assert Shr(High(w), 8) == Shr(w, 8);
  }

  /** Taking a message bit in, or exclusive or of the message before the step. */
  lemma BitFirst(crc: Word, m: Word)
    ensures Step(Xor(crc, m)) == Xor(DivideBit(crc, m[0]), Shr(m, 1))
  {
    ShrXor(crc, m, 1);
    XorAssoc(Poly(), Shr(crc, 1), Shr(m, 1));
  }

  lemma {:induction false} BitsFirst(crc: Word, m: Word, n: nat)
    requires n <= 8
    ensures Steps(Xor(crc, m), n) == Xor(Divide(crc, m[..n]), Shr(m, n))
  {
    if n == 0 {
      assert Shr(m, 0) == m;
    } else {
      BitsFirst(crc, m, n - 1);
      var c := Divide(crc, m[..n - 1]);
      BitFirst(c, Shr(m, n - 1));
      ShrShr(m, n - 1, 1);
      assert m[..n] == m[..n - 1] + [m[n - 1]];
      DivideConcat(crc, m[..n - 1], [m[n - 1]]);
      DivideOne(c, m[n - 1]);
    }
  }

  lemma DivideOne(crc: Word, bit: bool)
    ensures Divide(crc, [bit]) == DivideBit(crc, bit)
  {
    assert Divide(crc, [bit]) == Divide(DivideBit(crc, bit), [bit][1..]);
  }

  lemma {:induction false} BitsZero(k: nat)
    ensures forall i :: 0 <= i < k ==> !BitsOf(0, k)[i]
  {
    if k > 0 { BitsZero(k - 1); }
  }

  /** Widening a number of `j` bits adds zeros. */
  lemma {:induction false} BitsWiden(n: nat, j: nat, k: nat)
    requires n < Pow2(j) && j <= k
    ensures BitsOf(n, k) == BitsOf(n, j) + seq(k - j, i => false)
  {
    if j == 0 {
      BitsZero(k);
    } else {
      BitsWiden(n / 2, j - 1, k - 1);
    }
  }

  lemma OctetWord(b: Byte)
    ensures BitsOf(b, 32) == BitsOf(b, 8) + seq(24, i => false)
  {
    Pow2Octet();
    BitsWiden(b, 8, 32);
  }

  /** Dividing by the eight bits of an octet is one table step. */
  lemma OctetStep(crc: Word, b: Byte)
    ensures Divide(crc, BitsOf(b, 8)) == Xor(Steps(Low(Xor(crc, BitsOf(b, 32))), 8), Shr(crc, 8))
  {
    var m: Word := BitsOf(b, 32);
    OctetWord(b);
    BitsFirst(crc, m, 8);
    assert m[..8] == BitsOf(b, 8);
    var zero: Word := seq(32, i => false);
    assert Shr(m, 8) == zero;
    XorZero(Divide(crc, BitsOf(b, 8)), zero);
    TableStep(Xor(crc, m));
    ShrXor(crc, m, 8);
    XorZero(Shr(crc, 8), zero);
  }

  lemma XorZero(w: Word, zero: Word)
    requires forall i :: 0 <= i < 32 ==> !zero[i]
    ensures Xor(w, zero) == w
  {
  }

  // ---- The implementation --------------------------------------------------------------

  /** The remainders of all octets. */
  predicate IsTable(table: seq<Word>)
  {
    |table| == 256 && forall i: nat :: i < 256 ==> table[i] == Steps(BitsOf(i, 32), 8)
  }

  method MakeTable() returns (table: seq<Word>)
    ensures IsTable(table)
  {
    table := [];
    for i := 0 to 256
      invariant |table| == i && forall j: nat :: j < i ==> table[j] == Steps(BitsOf(j, 32), 8)
    {
      var start: Word := BitsOf(i, 32);
      var c := start;
      for k := 0 to 8
        invariant c == Steps(start, k)
      {
        c := Step(c);
      }
      table := table + [c];
    }
  }

  lemma {:induction false} ValueBits(b: seq<bool>)
    ensures ValueOf(b) < Pow2(|b|) && BitsOf(ValueOf(b), |b|) == b
  {
    if b != [] {
      ValueBits(b[1..]);
      var v := ValueOf(b[1..]);
      assert ValueOf(b) / 2 == v && (ValueOf(b) % 2 == 1 <==> b[0]);
      assert b == [b[0]] + b[1..];
    }
  }

  /** The table entry for the low octet of a word. */
  lemma TableEntry(table: seq<Word>, w: Word)
    requires IsTable(table)
    ensures ValueOf(w[..8]) < 256 && table[ValueOf(w[..8])] == Steps(Low(w), 8)
  {
    Pow2Octet();
    ValueBits(w[..8]);
    OctetWord(ValueOf(w[..8]));
  }

  /** On every string of octets the table-driven checksum is the one by bitwise division. */
  method TableCrc32(data: seq<Byte>) returns (r: Word)
    ensures r == Crc32(data)
  {
    var table := MakeTable();
    var crc := Ones();
    for i := 0 to |data|
      invariant crc == Divide(Ones(), AllBits(data[..i]))
    {
      var w := Xor(crc, BitsOf(data[i], 32));
      TableEntry(table, w);
      OctetStep(crc, data[i]);
      DivideConcat(Ones(), AllBits(data[..i]), BitsOf(data[i], 8));
      assert data[..i + 1][..i] == data[..i];
      crc := Xor(table[ValueOf(w[..8])], Shr(crc, 8));
    }
    assert data[..|data|] == data;
    r := Xor(crc, Ones());
  }
}
