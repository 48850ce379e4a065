/**
 STUN messages on the wire: a 20-octet header, attributes padded to four octets,
 MESSAGE-INTEGRITY over everything before it and FINGERPRINT last (sections 6, 15.4 and 15.5 of
 RFC 5389).  HMAC-SHA1 and CRC-32 are parameters.
 */
module StunMessage {
  import opened Bytes
  import opened Options

  const HEADER := 20
  const ATTR_HEADER := 4
  const TID_SIZE := 12
  const HMAC_SIZE := 20
  const MAGIC_COOKIE := 0x2112A442
  const FINGERPRINT_XOR: seq<Byte> := [0x53, 0x54, 0x55, 0x4E]
  const MAX_LENGTH := 0xFFFF

  const USERNAME := 0x0006
  const MESSAGE_INTEGRITY := 0x0008
  const REALM := 0x0014
  const NONCE := 0x0015
  const SOFTWARE := 0x8022
  const FINGERPRINT := 0x8028

  const INDICATION: bv16 := 1

  type Kind = k: nat | k < 0x1_0000

  datatype Attr = Attr(kind: Kind, value: seq<Byte>)

  datatype Message = Message(methodBits: bv16, classBits: bv16, tid: seq<Byte>, attrs: seq<Attr>)

  datatype Credentials = Credentials(username: seq<Byte>, realm: seq<Byte>, nonce: seq<Byte>, key: seq<Byte>)

  /** HMAC-SHA1 under a key, and CRC-32 as four octets. */
  datatype Crypto = Crypto(hmac: (seq<Byte>, seq<Byte>) -> seq<Byte>, crc: seq<Byte> -> seq<Byte>)

  // ---- Type field ----------------------------------------------------------------------

  /** The 12 method bits and 2 class bits interleaved. */
  function EncodeType(m: bv16, c: bv16): bv16
  {
    (m & 0x000F) + ((m & 0x0070) << 1) + ((m & 0x0F80) << 2) + ((c & 1) << 4) + ((c & 2) << 7)
  }

  function DecodeMethod(t: bv16): bv16 { (t & 0x000F) | ((t >> 1) & 0x0070) | ((t >> 2) & 0x0F80) }

  function DecodeClass(t: bv16): bv16 { ((t >> 4) & 1) | ((t >> 7) & 2) }

  /** Every 12-bit method and 2-bit class survives the type field, whose top two bits stay clear. */
  lemma TypeRoundTrip(m: bv16, c: bv16)
    requires m < 0x1000 && c < 4
    ensures EncodeType(m, c) < 0x4000
    ensures DecodeMethod(EncodeType(m, c)) == m && DecodeClass(EncodeType(m, c)) == c
  {
  }

  /** The layout: class bits at 4 and 8, the method bits around them (section 6 of RFC 5389). */
  lemma TypeLayout(m: bv16, c: bv16)
    requires m < 0x1000 && c < 4
    ensures var t := EncodeType(m, c);
            && t & 0xF == m & 0xF && (t >> 5) & 0x7 == (m >> 4) & 0x7 && t >> 9 == m >> 7
            && (t >> 4) & 1 == c & 1 && (t >> 8) & 1 == c >> 1
  {
  }

  lemma TypeOnWire(t: bv16)
    requires t < 0x4000
    ensures t as nat < 0x4000 && (t as nat) as bv16 == t
  {
  }

  // ---- Attributes ----------------------------------------------------------------------

  function Tlv(a: Attr): (b: seq<Byte>)
    ensures |b| == ATTR_HEADER + Padded(|a.value|)
  {
    U16(a.kind) + U16(|a.value|) + a.value + Zeros(Padded(|a.value|) - |a.value|)
  }

  function Body(attrs: seq<Attr>): seq<Byte>
  {
    if attrs == [] then [] else Tlv(attrs[0]) + Body(attrs[1..])
  }

  lemma BodyFirst(attrs: seq<Attr>)
    requires attrs != []
    ensures Body(attrs) == Tlv(attrs[0]) + Body(attrs[1..])
  {
  }

  lemma {:induction false} BodyConcat(a: seq<Attr>, b: seq<Attr>)
    ensures Body(a + b) == Body(a) + Body(b)
  {
    if a == [] {
      assert a + b == b;
    } else {
      BodyConcat(a[1..], b);
      assert (a + b)[1..] == a[1..] + b;
      Assoc(Tlv(a[0]), Body(a[1..]), Body(b));
    }
  }

  lemma AddAligned(x: nat, y: nat)
    requires x % 4 == 0 && y % 4 == 0
    ensures (x + y) % 4 == 0
  {
    assert x == 4 * (x / 4) && y == 4 * (y / 4);
  }

  lemma TlvAligned(a: Attr)
    ensures |Tlv(a)| % 4 == 0
  {
    AddAligned(ATTR_HEADER, Padded(|a.value|));
  }

  lemma {:induction false} BodyAligned(attrs: seq<Attr>)
    ensures |Body(attrs)| % 4 == 0
  {
    if attrs != [] {
      BodyAligned(attrs[1..]);
      TlvAligned(attrs[0]);
      AddAligned(|Tlv(attrs[0])|, |Body(attrs[1..])|);
    }
  }

  lemma BodyOne(a: Attr)
    ensures Body([a]) == Tlv(a)
  {
    assert Body([a]) == Tlv(a) + Body([]);
  }

  lemma BodyAppend(attrs: seq<Attr>, a: Attr)
    ensures Body(attrs + [a]) == Body(attrs) + Tlv(a)
  {
    BodyConcat(attrs, [a]);
    BodyOne(a);
  }

  /** An attribute whose length fits its field. */
  predicate Fits(a: Attr) { |a.value| <= MAX_LENGTH }

  lemma TlvFields(a: Attr, rest: seq<Byte>)
    requires Fits(a)
    ensures var b := Tlv(a) + rest;
            && ReadU16(b) == a.kind && ReadU16(b[2..]) == |a.value|
            && b[ATTR_HEADER..ATTR_HEADER + |a.value|] == a.value
            && b[|Tlv(a)|..] == rest
  {
    var b := Tlv(a) + rest;
    var tail := a.value + Zeros(Padded(|a.value|) - |a.value|) + rest;
    assert b == U16(a.kind) + (U16(|a.value|) + tail);
    assert b[2..] == U16(|a.value|) + tail;
    U16RoundTrip(a.kind, U16(|a.value|) + tail);
    U16RoundTrip(|a.value|, tail);
  }

  /** What `decode` makes of the octets after the header; a value past the end is an error. */
  function Parse(b: seq<Byte>): Option<seq<Attr>>
    decreases |b|
  {
    if |b| < ATTR_HEADER then Some([])
    else
      var len := ReadU16(b[2..]);
      if ATTR_HEADER + len > |b| then None
      else
        var next := ATTR_HEADER + Padded(len);
        var rest := Parse(if next <= |b| then b[next..] else []);
        if rest.None? then None
        else Some([Attr(ReadU16(b), b[ATTR_HEADER..ATTR_HEADER + len])] + rest.value)
  }

  predicate AllFit(attrs: seq<Attr>) { forall i :: 0 <= i < |attrs| ==> Fits(attrs[i]) }

  /** If the whole body fits the header's length field, every attribute fits its own. */
  lemma {:induction false} BodyFits(attrs: seq<Attr>)
    requires |Body(attrs)| <= MAX_LENGTH
    ensures AllFit(attrs)
  {
    if attrs != [] {
      assert |Body(attrs)| == |Tlv(attrs[0])| + |Body(attrs[1..])|;
      BodyFits(attrs[1..]);
      assert forall i :: 1 <= i < |attrs| ==> attrs[i] == attrs[1..][i - 1];
    }
  }

  lemma {:induction false} ParseBody(attrs: seq<Attr>)
    requires AllFit(attrs)
    ensures Parse(Body(attrs)) == Some(attrs)
  {
    if attrs != [] {
      ParseBody(attrs[1..]);
      TlvFields(attrs[0], Body(attrs[1..]));
      assert attrs == [attrs[0]] + attrs[1..];
    }
  }

  /** Where the first attribute of a type begins, as the integrity check looks for it. */
  function ScanFirst(b: seq<Byte>, kind: nat): (r: Option<nat>)
    ensures r.Some? ==> r.value + ATTR_HEADER <= |b|
  {
    if |b| < ATTR_HEADER then None
    else if ReadU16(b) == kind then Some(0)
    else
      var next := ATTR_HEADER + Padded(ReadU16(b[2..]));
      if next > |b| then None
      else
        var r := ScanFirst(b[next..], kind);
        if r.None? then None else Some(next + r.value)
  }

  /** Where the last one begins, as the fingerprint check looks for it. */
  function ScanLast(b: seq<Byte>, kind: nat): (r: Option<nat>)
    ensures r.Some? ==> r.value + ATTR_HEADER <= |b|
  {
    if |b| < ATTR_HEADER then None
    else
      var next := ATTR_HEADER + Padded(ReadU16(b[2..]));
      var r := if next > |b| then None else ScanLast(b[next..], kind);
      if r.Some? then Some(next + r.value) else if ReadU16(b) == kind then Some(0) else None
  }

  predicate Lacks(attrs: seq<Attr>, kind: nat) { forall i :: 0 <= i < |attrs| ==> attrs[i].kind != kind }

  lemma ScanFirstHead(a: Attr, rest: seq<Byte>)
    requires Fits(a)
    ensures ScanFirst(Tlv(a) + rest, a.kind) == Some(0)
  {
    TlvFields(a, rest);
  }

  lemma ScanFirstSkip(a: Attr, rest: seq<Byte>, kind: nat)
    requires Fits(a) && a.kind != kind
    ensures var r := ScanFirst(rest, kind);
            ScanFirst(Tlv(a) + rest, kind) == if r.None? then None else Some(|Tlv(a)| + r.value)
  {
    TlvFields(a, rest);
  }

  lemma ScanLastSkip(a: Attr, rest: seq<Byte>, kind: nat)
    requires Fits(a)
    ensures var r := ScanLast(rest, kind);
            ScanLast(Tlv(a) + rest, kind) == if r.Some? then Some(|Tlv(a)| + r.value) else if a.kind == kind then Some(0) else None
  {
    TlvFields(a, rest);
  }

  lemma ConsFront(before: seq<Attr>, a: Attr, after: seq<Attr>)
    requires before != []
    ensures (before + [a] + after)[0] == before[0] && (before + [a] + after)[1..] == before[1..] + [a] + after
  {
  }

  lemma ScanFirstAt(all: seq<Attr>)
    requires all != [] && Fits(all[0])
    ensures ScanFirst(Body(all), all[0].kind) == Some(0)
  {
    ScanFirstHead(all[0], Body(all[1..]));
  }

  lemma ScanFirstCons(all: seq<Attr>, kind: nat, n: nat)
    requires all != [] && Fits(all[0]) && all[0].kind != kind && ScanFirst(Body(all[1..]), kind) == Some(n)
    ensures ScanFirst(Body(all), kind) == Some(|Tlv(all[0])| + n)
  {
    BodyFirst(all);
    ScanFirstSkip(all[0], Body(all[1..]), kind);
  }

  lemma FrontSize(all: seq<Attr>, k: nat)
    requires 0 < k <= |all|
    ensures |Body(all[..k])| == |Tlv(all[0])| + |Body(all[1..][..k - 1])|
  {
    assert all[..k][1..] == all[1..][..k - 1];
  }

  /** The scan reports attribute `k` if it is the first of its type. */
  lemma {:induction false} ScanFirstIndex(all: seq<Attr>, k: nat, kind: nat, n: nat)
    requires k < |all| && all[k].kind == kind && n == |Body(all[..k])|
    requires forall i :: 0 <= i <= k ==> Fits(all[i])
    requires forall i :: 0 <= i < k ==> all[i].kind != kind
    ensures ScanFirst(Body(all), kind) == Some(n)
  {
    if k == 0 {
      ScanFirstAt(all);
    } else {
      FrontSize(all, k);
      ScanFirstIndex(all[1..], k - 1, kind, n - |Tlv(all[0])|);
      ScanFirstCons(all, kind, n - |Tlv(all[0])|);
    }
  }

  lemma ScanFirstFinds(before: seq<Attr>, a: Attr, after: seq<Attr>)
    requires AllFit(before) && Fits(a) && Lacks(before, a.kind)
    ensures ScanFirst(Body(before + [a] + after), a.kind) == Some(|Body(before)|)
  {
    var all := before + [a] + after;
    assert all[..|before|] == before;
    ScanFirstIndex(all, |before|, a.kind, |Body(before)|);
  }

  lemma {:induction false} ScanFirstMisses(attrs: seq<Attr>, kind: nat)
    requires AllFit(attrs) && Lacks(attrs, kind)
    ensures ScanFirst(Body(attrs), kind) == None
  {
    if attrs != [] {
      ScanFirstMisses(attrs[1..], kind);
      ScanFirstSkip(attrs[0], Body(attrs[1..]), kind);
    }
  }

  lemma {:induction false} ScanLastFinds(before: seq<Attr>, a: Attr)
    requires AllFit(before) && Fits(a)
    ensures ScanLast(Body(before + [a]), a.kind) == Some(|Body(before)|)
  {
    var all := before + [a];
    if before == [] {
      assert all == [a];
      ScanLastSkip(a, [], a.kind);
      assert Tlv(a) + [] == Tlv(a);
      BodyOne(a);
    } else {
      ScanLastFinds(before[1..], a);
      ConsFront(before, a, []);
      NoneAfter(before, a);
      NoneAfter(before[1..], a);
      ScanLastSkip(before[0], Body(all[1..]), a.kind);
    }
  }

  // ---- Whole messages ------------------------------------------------------------------

  function Header(t: nat, len: nat, tid: seq<Byte>): seq<Byte>
  {
    U16(t) + U16(len) + U32(MAGIC_COOKIE) + tid
  }

  /** A message whose length field says `len`. */
  function Draft(t: nat, tid: seq<Byte>, attrs: seq<Attr>, len: nat): seq<Byte>
  {
    Header(t, len, tid) + Body(attrs)
  }

  /** Overwrite the length field. */
  function Patch(raw: seq<Byte>, len: nat): seq<Byte>
    requires |raw| >= 4
  {
    raw[..2] + U16(len) + raw[4..]
  }

  lemma PatchDraft(t: nat, tid: seq<Byte>, attrs: seq<Attr>, before: nat, len: nat)
    ensures |Draft(t, tid, attrs, before)| >= 4
    ensures Patch(Draft(t, tid, attrs, before), len) == Draft(t, tid, attrs, len)
  {
    PatchParts(U16(t), U16(before), U16(len), U32(MAGIC_COOKIE), tid, Body(attrs));
  }

  lemma PatchParts(a: seq<Byte>, b: seq<Byte>, b': seq<Byte>, c: seq<Byte>, d: seq<Byte>, e: seq<Byte>)
    requires |a| == 2 && |b| == 2
    ensures (a + b + c + d + e)[..2] + b' + (a + b + c + d + e)[4..] == a + b' + c + d + e
  {
    var tail := c + d + e;
    assert a + b + c + d + e == a + b + tail;
    assert a + b' + c + d + e == a + b' + tail;
  }

  lemma EmptyDraft(t: nat, tid: seq<Byte>)
    ensures Header(t, 0, tid) == Draft(t, tid, [], 0)
  {
  }

  lemma DraftAppend(t: nat, tid: seq<Byte>, attrs: seq<Attr>, len: nat, a: Attr)
    ensures Draft(t, tid, attrs, len) + Tlv(a) == Draft(t, tid, attrs + [a], len)
  {
    BodyAppend(attrs, a);
    Assoc(Header(t, len, tid), Body(attrs), Tlv(a));
  }

  function CredentialAttrs(c: Credentials): seq<Attr>
  {
    (if c.username != [] then [Attr(USERNAME, c.username)] else [])
    + (if c.realm != [] then [Attr(REALM, c.realm)] else [])
    + (if c.nonce != [] then [Attr(NONCE, c.nonce)] else [])
  }

  /** MESSAGE-INTEGRITY is added when there is a password, except to indications. */
  predicate Authenticated(m: Message, password: Option<seq<Byte>>)
  {
    password.Some? && m.classBits != INDICATION
  }

  function MacKey(password: seq<Byte>, creds: Option<Credentials>): seq<Byte>
  {
    if creds.Some? && creds.value.key != [] then creds.value.key else password
  }

  /** Everything before MESSAGE-INTEGRITY. */
  function Plain(m: Message, password: Option<seq<Byte>>, creds: Option<Credentials>, software: seq<Byte>): seq<Attr>
  {
    (if creds.Some? && Authenticated(m, password) then CredentialAttrs(creds.value) else [])
    + m.attrs
    + (if software != [] then [Attr(SOFTWARE, software)] else [])
  }

  // ---- What an encoding carries --------------------------------------------------------

  /** The credentials that go in front of the caller's attributes: each that is not empty, once, under its own type. */
  predicate FrontIs(m: Message, password: Option<seq<Byte>>, creds: Option<Credentials>, front: seq<Attr>)
  {
    if creds.Some? && password.Some? && m.classBits != INDICATION then
      && (forall a :: a in front ==> IsCredential(creds.value, a))
      && (creds.value.username != [] ==> Attr(USERNAME, creds.value.username) in front)
      && (creds.value.realm != [] ==> Attr(REALM, creds.value.realm) in front)
      && (creds.value.nonce != [] ==> Attr(NONCE, creds.value.nonce) in front)
      && (forall i, j :: 0 <= i < j < |front| ==> front[i].kind < front[j].kind)
    else front == []
  }

  predicate IsCredential(c: Credentials, a: Attr)
  {
    && a.value != []
    && ((a.kind == USERNAME && a.value == c.username) || (a.kind == REALM && a.value == c.realm) || (a.kind == NONCE && a.value == c.nonce))
  }

  /** Behind them: SOFTWARE if there is any, MESSAGE-INTEGRITY if there is a password and it is no indication, and FINGERPRINT. */
  predicate BackIs(m: Message, password: Option<seq<Byte>>, software: seq<Byte>, back: seq<Attr>)
  {
    var s, i := if software != [] then 1 else 0, if password.Some? && m.classBits != INDICATION then 1 else 0;
    && |back| == s + i + 1
    && (software != [] ==> back[0] == Attr(SOFTWARE, software))
    && (i == 1 ==> back[s].kind == MESSAGE_INTEGRITY)
    && back[s + i].kind == FINGERPRINT && |back[s + i].value| == 4
  }

  /** All of the caller's attributes, in order, between the credentials and what the encoder adds behind. */
  ghost predicate Carried(m: Message, password: Option<seq<Byte>>, creds: Option<Credentials>, software: seq<Byte>, all: seq<Attr>)
  {
    exists front, back :: all == front + m.attrs + back && FrontIs(m, password, creds, front) && BackIs(m, password, software, back)
  }

  lemma CredentialsInFront(m: Message, password: Option<seq<Byte>>, creds: Option<Credentials>)
    ensures FrontIs(m, password, creds,
                    if creds.Some? && Authenticated(m, password) then CredentialAttrs(creds.value) else [])
  {
  }

  lemma Regroup(front: seq<Attr>, own: seq<Attr>, x: seq<Attr>, y: seq<Attr>, z: seq<Attr>)
    ensures front + own + x + y + z == front + own + (x + y + z)
  {
  }

  lemma AddedBehind(m: Message, password: Option<seq<Byte>>, software: seq<Byte>, mi: Attr, fp: Attr)
    requires mi.kind == MESSAGE_INTEGRITY && fp.kind == FINGERPRINT && |fp.value| == 4
    ensures BackIs(m, password, software,
                   (if software != [] then [Attr(SOFTWARE, software)] else [])
                   + (if Authenticated(m, password) then [mi] else []) + [fp])
  {
  }

  /** The encoder leaves out nothing of the caller's and adds nothing else. */
  lemma AllCarried(c: Crypto, m: Message, password: Option<seq<Byte>>, creds: Option<Credentials>, software: seq<Byte>)
    ensures Carried(m, password, creds, software, OnWire(c, m, password, creds, software))
  {
    var front := if creds.Some? && Authenticated(m, password) then CredentialAttrs(creds.value) else [];
    CredentialsInFront(m, password, creds);
    var soft := if software != [] then [Attr(SOFTWARE, software)] else [];
    var plain, signed := Plain(m, password, creds, software), Signed(c, m, password, creds, software);
    var key := if password.Some? then MacKey(password.value, creds) else [];
    var mi, fp := Integrity(c, key, Type(m), m.tid, plain), FingerprintAttr(c, Type(m), m.tid, signed);
    var mid := if Authenticated(m, password) then [mi] else [];
    assert signed == plain + mid;
    AddedBehind(m, password, software, mi, fp);
    Regroup(front, m.attrs, soft, mid, [fp]);
  }

  /** Types the encoder may add. */
  predicate Encoders(kind: Kind)
  {
    kind == USERNAME || kind == REALM || kind == NONCE || kind == SOFTWARE || kind == MESSAGE_INTEGRITY || kind == FINGERPRINT
  }

  /** A message's attributes without those. */
  function Own(attrs: seq<Attr>): seq<Attr>
  {
    if attrs == [] then [] else (if Encoders(attrs[0].kind) then [] else [attrs[0]]) + Own(attrs[1..])
  }

  lemma AttrsAssoc(x: seq<Attr>, y: seq<Attr>, z: seq<Attr>)
    ensures x + (y + z) == x + y + z
  {
  }

  lemma OwnFirst(attrs: seq<Attr>)
    requires attrs != []
    ensures Own(attrs) == (if Encoders(attrs[0].kind) then [] else [attrs[0]]) + Own(attrs[1..])
  {
  }

  lemma {:induction false} OwnConcat(a: seq<Attr>, b: seq<Attr>)
    ensures Own(a + b) == Own(a) + Own(b)
  {
    if a == [] {
      assert a + b == b;
    } else {
      OwnConcat(a[1..], b);
      OwnFirst(a);
      OwnFirst(a + b);
      assert (a + b)[0] == a[0] && (a + b)[1..] == a[1..] + b;
      AttrsAssoc(if Encoders(a[0].kind) then [] else [a[0]], Own(a[1..]), Own(b));
    }
  }

  lemma {:induction false} OwnNone(attrs: seq<Attr>)
    requires forall a :: a in attrs ==> Encoders(a.kind)
    ensures Own(attrs) == []
  {
    if attrs != [] { OwnNone(attrs[1..]); }
  }

  lemma {:induction false} OwnAll(attrs: seq<Attr>)
    requires forall a :: a in attrs ==> !Encoders(a.kind)
    ensures Own(attrs) == attrs
  {
    if attrs != [] { OwnAll(attrs[1..]); }
  }

  lemma FrontIsEncoders(m: Message, password: Option<seq<Byte>>, creds: Option<Credentials>, front: seq<Attr>)
    requires FrontIs(m, password, creds, front)
    ensures forall a :: a in front ==> Encoders(a.kind)
  {
  }

  lemma BackIsEncoders(m: Message, password: Option<seq<Byte>>, software: seq<Byte>, back: seq<Attr>)
    requires BackIs(m, password, software, back)
    ensures forall a :: a in back ==> Encoders(a.kind)
  {
  }

  lemma OwnBetween(front: seq<Attr>, own: seq<Attr>, back: seq<Attr>)
    requires (forall a :: a in front ==> Encoders(a.kind)) && forall a :: a in back ==> Encoders(a.kind)
    ensures Own(front + own + back) == Own(own)
  {
    OwnNone(front);
    OwnNone(back);
    OwnConcat(front + own, back);
    OwnConcat(front, own);
  }

  /** So nothing of the caller's own is lost or added: what is carried, without the encoder's types, is what the caller gave. */
  lemma OwnCarried(m: Message, password: Option<seq<Byte>>, creds: Option<Credentials>, software: seq<Byte>, all: seq<Attr>)
    requires Carried(m, password, creds, software, all)
    ensures Own(all) == Own(m.attrs)
    ensures (forall a :: a in m.attrs ==> !Encoders(a.kind)) ==> Own(all) == m.attrs
  {
    var front, back :| all == front + m.attrs + back && FrontIs(m, password, creds, front) && BackIs(m, password, software, back);
    FrontIsEncoders(m, password, creds, front);
    BackIsEncoders(m, password, software, back);
    OwnBetween(front, m.attrs, back);
    if forall a :: a in m.attrs ==> !Encoders(a.kind) { OwnAll(m.attrs); }
  }

  function Integrity(c: Crypto, key: seq<Byte>, t: nat, tid: seq<Byte>, attrs: seq<Attr>): Attr
  {
    Attr(MESSAGE_INTEGRITY, c.hmac(key, Draft(t, tid, attrs, |Body(attrs)| + ATTR_HEADER + HMAC_SIZE)))
  }

  /** A CRC or a FINGERPRINT value under the mask that tells STUN from other protocols. */
  function Masked(v: seq<Byte>): (r: seq<Byte>)
    ensures |r| == 4
  {
    if |v| == 4 then XorOctets(v, FINGERPRINT_XOR) else Zeros(4)
  }

  function FingerprintAttr(c: Crypto, t: nat, tid: seq<Byte>, attrs: seq<Attr>): Attr
  {
    Attr(FINGERPRINT, Masked(c.crc(Draft(t, tid, attrs, |Body(attrs)| + ATTR_HEADER + 4))))
  }

  function Type(m: Message): nat { EncodeType(m.methodBits, m.classBits) as nat }

  function Signed(c: Crypto, m: Message, password: Option<seq<Byte>>, creds: Option<Credentials>, software: seq<Byte>): seq<Attr>
  {
    var plain := Plain(m, password, creds, software);
    if Authenticated(m, password)
    then plain + [Integrity(c, MacKey(password.value, creds), Type(m), m.tid, plain)]
    else plain
  }

  /** All attributes on the wire, in order. */
  function OnWire(c: Crypto, m: Message, password: Option<seq<Byte>>, creds: Option<Credentials>, software: seq<Byte>): seq<Attr>
  {
    var signed := Signed(c, m, password, creds, software);
    signed + [FingerprintAttr(c, Type(m), m.tid, signed)]
  }

  function Encoding(t: nat, tid: seq<Byte>, attrs: seq<Attr>): seq<Byte> { Draft(t, tid, attrs, |Body(attrs)|) }

  /** `isMessage`. */
  predicate IsMessage(data: seq<Byte>)
  {
    && |data| >= HEADER && data[0] < 0x40
    && ReadU32(data[4..]) == MAGIC_COOKIE
    && ReadU16(data[2..]) % 4 == 0
    && HEADER + ReadU16(data[2..]) <= |data|
  }

  function BodyOf(data: seq<Byte>): seq<Byte>
    requires IsMessage(data)
  {
    data[HEADER..HEADER + ReadU16(data[2..])]
  }

  function Decoded(data: seq<Byte>): Option<Message>
  {
    if !IsMessage(data) then None
    else
      var attrs := Parse(BodyOf(data));
      if attrs.None? then None
      else
        var t := ReadU16(data) as bv16;
        Some(Message(DecodeMethod(t), DecodeClass(t), data[8..HEADER], attrs.value))
  }

  predicate WellFormed(m: Message) { m.methodBits < 0x1000 && m.classBits < 4 && |m.tid| == TID_SIZE }

  lemma HeaderType(t: nat, len: nat, tid: seq<Byte>, rest: seq<Byte>)
    requires t < 0x4000 && |tid| == TID_SIZE
    ensures var d := Header(t, len, tid) + rest; ReadU16(d) == t && d[0] < 0x40
  {
    HeaderParts(U16(t), U16(len), U32(MAGIC_COOKIE), tid, rest);
    U16RoundTrip(t, U16(len) + (U32(MAGIC_COOKIE) + (tid + rest)));
  }

  lemma HeaderLength(t: nat, len: nat, tid: seq<Byte>, rest: seq<Byte>)
    requires |tid| == TID_SIZE && len <= MAX_LENGTH
    ensures var d := Header(t, len, tid) + rest;
            |Header(t, len, tid)| == HEADER && ReadU16(d[2..]) == len && d[8..HEADER] == tid && d[HEADER..] == rest
  {
    HeaderParts(U16(t), U16(len), U32(MAGIC_COOKIE), tid, rest);
    U16RoundTrip(len, U32(MAGIC_COOKIE) + (tid + rest));
  }

  lemma HeaderCookie(t: nat, len: nat, tid: seq<Byte>, rest: seq<Byte>)
    requires |tid| == TID_SIZE
    ensures ReadU32((Header(t, len, tid) + rest)[4..]) == MAGIC_COOKIE
  {
    HeaderParts(U16(t), U16(len), U32(MAGIC_COOKIE), tid, rest);
    U32RoundTrip(MAGIC_COOKIE, tid + rest);
  }

  lemma HeaderParts(a: seq<Byte>, b: seq<Byte>, c: seq<Byte>, d: seq<Byte>, rest: seq<Byte>)
    requires |a| == 2 && |b| == 2 && |c| == 4 && |d| == TID_SIZE
    ensures var s := a + b + c + d + rest;
            && s == a + (b + (c + (d + rest))) && s[2..] == b + (c + (d + rest)) && s[4..] == c + (d + rest)
            && s[8..HEADER] == d && s[HEADER..] == rest
  {
    var s := a + b + c + d + rest;
    assert s == a + (b + (c + (d + rest)));
  }

  /** An encoding, with anything behind it, is recognised and delimited by its own length field. */
  lemma EncodingDelimited(t: nat, tid: seq<Byte>, attrs: seq<Attr>, trailing: seq<Byte>)
    requires t < 0x4000 && |tid| == TID_SIZE && |Body(attrs)| <= MAX_LENGTH
    ensures var d := Encoding(t, tid, attrs) + trailing;
            IsMessage(d) && BodyOf(d) == Body(attrs) && ReadU16(d) == t && d[8..HEADER] == tid
  {
    var b := Body(attrs);
    var d := Encoding(t, tid, attrs) + trailing;
    Assoc(Header(t, |b|, tid), b, trailing);
    HeaderType(t, |b|, tid, b + trailing);
    HeaderLength(t, |b|, tid, b + trailing);
    HeaderCookie(t, |b|, tid, b + trailing);
    BodyAligned(attrs);
    assert d[HEADER..HEADER + |b|] == d[HEADER..][..|b|] == b;
  }

  /** The encoding up to an attribute, with its length field patched, is the draft that was authenticated. */
  lemma EncodingBefore(t: nat, tid: seq<Byte>, before: seq<Attr>, a: Attr, after: seq<Attr>, trailing: seq<Byte>, len: nat)
    requires |tid| == TID_SIZE
    ensures var d := Encoding(t, tid, before + [a] + after) + trailing;
            var start := HEADER + |Body(before)|;
            && start + ATTR_HEADER + |a.value| <= |d|
            && Patch(d[..start], len) == Draft(t, tid, before, len)
            && d[start + ATTR_HEADER..start + ATTR_HEADER + |a.value|] == a.value
  {
    EncodingParts(t, tid, before, a, after, trailing);
    PartsBefore(t, tid, before, a, Body(after) + trailing, |Body(before + [a] + after)|, len);
  }

  lemma PartsBefore(t: nat, tid: seq<Byte>, before: seq<Attr>, a: Attr, rest: seq<Byte>, n: nat, len: nat)
    requires |tid| == TID_SIZE
    ensures var d := Header(t, n, tid) + Body(before) + Tlv(a) + rest;
            var start := HEADER + |Body(before)|;
            && start + ATTR_HEADER + |a.value| <= |d|
            && Patch(d[..start], len) == Draft(t, tid, before, len)
            && d[start + ATTR_HEADER..start + ATTR_HEADER + |a.value|] == a.value
  {
    HeaderSize(t, n, tid);
    CutThree(Header(t, n, tid), Body(before), Tlv(a), rest);
    PatchDraft(t, tid, before, n, len);
    TlvValue(a, HEADER + |Body(before)|, Header(t, n, tid) + Body(before) + Tlv(a) + rest);
  }

  lemma EncodingBeforeLast(t: nat, tid: seq<Byte>, before: seq<Attr>, a: Attr, trailing: seq<Byte>, len: nat)
    requires |tid| == TID_SIZE
    ensures var d := Encoding(t, tid, before + [a]) + trailing;
            var start := HEADER + |Body(before)|;
            && start + ATTR_HEADER + |a.value| <= |d|
            && Patch(d[..start], len) == Draft(t, tid, before, len)
            && d[start + ATTR_HEADER..start + ATTR_HEADER + |a.value|] == a.value
  {
    EncodingBefore(t, tid, before, a, [], trailing, len);
    NoneAfter(before, a);
  }

  lemma NoneAfter(before: seq<Attr>, a: Attr)
    ensures before + [a] + [] == before + [a]
  {
  }

  lemma HeaderSize(t: nat, len: nat, tid: seq<Byte>)
    requires |tid| == TID_SIZE
    ensures |Header(t, len, tid)| == HEADER
  {
  }

  lemma EncodingParts(t: nat, tid: seq<Byte>, before: seq<Attr>, a: Attr, after: seq<Attr>, trailing: seq<Byte>)
    ensures Encoding(t, tid, before + [a] + after) + trailing
            == Header(t, |Body(before + [a] + after)|, tid) + Body(before) + Tlv(a) + (Body(after) + trailing)
  {
    BodyConcat(before + [a], after);
    BodyAppend(before, a);
    FiveParts(Header(t, |Body(before + [a] + after)|, tid), Body(before), Tlv(a), Body(after), trailing);
  }

  lemma FiveParts(h: seq<Byte>, x: seq<Byte>, y: seq<Byte>, z: seq<Byte>, w: seq<Byte>)
    ensures h + (x + y + z) + w == h + x + y + (z + w)
  {
  }

  lemma CutThree(h: seq<Byte>, x: seq<Byte>, y: seq<Byte>, z: seq<Byte>)
    ensures (h + x + y + z)[..|h| + |x|] == h + x
    ensures (h + x + y + z)[|h| + |x|..|h| + |x| + |y|] == y
  {
  }

  lemma TlvValue(a: Attr, start: nat, d: seq<Byte>)
    requires start + |Tlv(a)| <= |d| && d[start..start + |Tlv(a)|] == Tlv(a)
    ensures d[start + ATTR_HEADER..start + ATTR_HEADER + |a.value|] == a.value
  {
    var v := Tlv(a)[ATTR_HEADER..ATTR_HEADER + |a.value|];
    assert v == a.value;
    SubSlice(d, start, |Tlv(a)|, ATTR_HEADER, ATTR_HEADER + |a.value|);
  }

  lemma SubSlice(d: seq<Byte>, start: nat, n: nat, i: nat, j: nat)
    requires i <= j <= n && start + n <= |d|
    ensures d[start..start + n][i..j] == d[start + i..start + j]
  {
    var x, y := d[start..start + n][i..j], d[start + i..start + j];
    forall k | 0 <= k < |x| ensures x[k] == y[k] {
      assert x[k] == d[start..start + n][i + k];
    }
  }

  // ---- The checks ----------------------------------------------------------------------

  /** The comparison for an attribute that begins `o` octets into the body. */
  predicate IntegrityAt(c: Crypto, raw: seq<Byte>, key: seq<Byte>, o: nat)
    requires HEADER + o <= |raw|
  {
    var start := HEADER + o;
    && start + ATTR_HEADER + HMAC_SIZE <= |raw|
    && c.hmac(key, Patch(raw[..start], o + ATTR_HEADER + HMAC_SIZE))
       == raw[start + ATTR_HEADER..start + ATTR_HEADER + HMAC_SIZE]
  }

  predicate FingerprintAt(c: Crypto, raw: seq<Byte>, o: nat)
    requires HEADER + o <= |raw|
  {
    var start := HEADER + o;
    && start + ATTR_HEADER + 4 <= |raw|
    && c.crc(Patch(raw[..start], o + ATTR_HEADER + 4)) == Masked(raw[start + ATTR_HEADER..start + ATTR_HEADER + 4])
  }

  predicate IntegrityVerdict(c: Crypto, raw: seq<Byte>, key: seq<Byte>, allowMissing: bool)
    requires IsMessage(raw)
  {
    match ScanFirst(BodyOf(raw), MESSAGE_INTEGRITY)
    case None => allowMissing
    case Some(o) => IntegrityAt(c, raw, key, o)
  }

  predicate FingerprintVerdict(c: Crypto, raw: seq<Byte>, allowMissing: bool)
    requires IsMessage(raw)
  {
    match ScanLast(BodyOf(raw), FINGERPRINT)
    case None => allowMissing
    case Some(o) => FingerprintAt(c, raw, o)
  }

  lemma IntegrityAtIs(c: Crypto, t: nat, tid: seq<Byte>, before: seq<Attr>, a: Attr, after: seq<Attr>,
                      trailing: seq<Byte>, key: seq<Byte>)
    requires |tid| == TID_SIZE && |a.value| == HMAC_SIZE
    ensures var d := Encoding(t, tid, before + [a] + after) + trailing;
            && HEADER + |Body(before)| <= |d|
            && IntegrityAt(c, d, key, |Body(before)|)
               == (c.hmac(key, Draft(t, tid, before, |Body(before)| + ATTR_HEADER + HMAC_SIZE)) == a.value)
  {
    EncodingBefore(t, tid, before, a, after, trailing, |Body(before)| + ATTR_HEADER + HMAC_SIZE);
  }

  lemma FingerprintAtIs(c: Crypto, t: nat, tid: seq<Byte>, before: seq<Attr>, a: Attr, trailing: seq<Byte>)
    requires |tid| == TID_SIZE && |a.value| == 4
    ensures var d := Encoding(t, tid, before + [a]) + trailing;
            && HEADER + |Body(before)| <= |d|
            && FingerprintAt(c, d, |Body(before)|)
               == (c.crc(Draft(t, tid, before, |Body(before)| + ATTR_HEADER + 4)) == Masked(a.value))
  {
    EncodingBeforeLast(t, tid, before, a, trailing, |Body(before)| + ATTR_HEADER + 4);
  }

  lemma FrontFits(before: seq<Attr>, a: Attr, after: seq<Attr>)
    requires |Body(before + [a] + after)| <= MAX_LENGTH
    ensures AllFit(before) && Fits(a)
  {
    var all := before + [a] + after;
    BodyFits(all);
    assert forall i :: 0 <= i < |before| ==> before[i] == all[i];
    assert all[|before|] == a;
  }

  /** The first MESSAGE-INTEGRITY decides: it passes exactly when it is the HMAC of what precedes it. */
  lemma FirstIntegrityDecides(c: Crypto, t: nat, tid: seq<Byte>, before: seq<Attr>, a: Attr, after: seq<Attr>,
                              trailing: seq<Byte>, key: seq<Byte>, allowMissing: bool)
    requires t < 0x4000 && |tid| == TID_SIZE && |Body(before + [a] + after)| <= MAX_LENGTH
    requires a.kind == MESSAGE_INTEGRITY && |a.value| == HMAC_SIZE && Lacks(before, MESSAGE_INTEGRITY)
    ensures var d := Encoding(t, tid, before + [a] + after) + trailing;
            && IsMessage(d)
            && IntegrityVerdict(c, d, key, allowMissing)
               == (c.hmac(key, Draft(t, tid, before, |Body(before)| + ATTR_HEADER + HMAC_SIZE)) == a.value)
  {
    FrontFits(before, a, after);
    ScanFirstFinds(before, a, after);
    EncodingDelimited(t, tid, before + [a] + after, trailing);
    IntegrityAtIs(c, t, tid, before, a, after, trailing, key);
  }

  lemma FingerprintDecides(c: Crypto, t: nat, tid: seq<Byte>, before: seq<Attr>, a: Attr, trailing: seq<Byte>, allowMissing: bool)
    requires t < 0x4000 && |tid| == TID_SIZE && |Body(before + [a])| <= MAX_LENGTH
    requires a.kind == FINGERPRINT && |a.value| == 4
    ensures var d := Encoding(t, tid, before + [a]) + trailing;
            && IsMessage(d)
            && FingerprintVerdict(c, d, allowMissing)
               == (c.crc(Draft(t, tid, before, |Body(before)| + ATTR_HEADER + 4)) == Masked(a.value))
  {
    assert before + [a] + [] == before + [a];
    FrontFits(before, a, []);
    ScanLastFinds(before, a);
    EncodingDelimited(t, tid, before + [a], trailing);
    FingerprintAtIs(c, t, tid, before, a, trailing);
  }

  // ---- Main results --------------------------------------------------------------------

  /**
   Decoding an encoding restores the method, the class, the transaction id and every attribute in
   order, whatever trails it, for every message that fits the 16-bit length field: the caller's
   attributes between the credentials and what the encoder adds behind.
   */
  lemma DecodeEncoded(c: Crypto, m: Message, password: Option<seq<Byte>>, creds: Option<Credentials>,
                      software: seq<Byte>, trailing: seq<Byte>)
    requires WellFormed(m) && |Body(OnWire(c, m, password, creds, software))| <= MAX_LENGTH
    ensures var all := OnWire(c, m, password, creds, software);
            && Decoded(Encoding(Type(m), m.tid, all) + trailing) == Some(m.(attrs := all))
            && Carried(m, password, creds, software, all)
            && Own(all) == Own(m.attrs)
  {
    var all := OnWire(c, m, password, creds, software);
    TypeRoundTrip(m.methodBits, m.classBits);
    TypeOnWire(EncodeType(m.methodBits, m.classBits));
    EncodingDelimited(Type(m), m.tid, all, trailing);
    BodyFits(all);
    ParseBody(all);
    AllCarried(c, m, password, creds, software);
    OwnCarried(m, password, creds, software, all);
  }

  lemma PlainLacks(m: Message, password: Option<seq<Byte>>, creds: Option<Credentials>, software: seq<Byte>)
    requires Lacks(m.attrs, MESSAGE_INTEGRITY)
    ensures Lacks(Plain(m, password, creds, software), MESSAGE_INTEGRITY)
  {
  }

  /**
   The receiver's integrity check passes under the credentials' own key, or the password if they
   have none, if the caller added no such attribute.
   */
  lemma IntegrityHolds(c: Crypto, m: Message, password: Option<seq<Byte>>, creds: Option<Credentials>,
                       software: seq<Byte>, trailing: seq<Byte>, key: seq<Byte>)
    requires WellFormed(m) && |Body(OnWire(c, m, password, creds, software))| <= MAX_LENGTH
    requires password.Some? && m.classBits != INDICATION && Lacks(m.attrs, MESSAGE_INTEGRITY)
    requires creds.Some? && creds.value.key != [] ==> key == creds.value.key
    requires creds.None? || creds.value.key == [] ==> key == password.value
    requires forall k, d :: |c.hmac(k, d)| == HMAC_SIZE
    ensures var d := Encoding(Type(m), m.tid, OnWire(c, m, password, creds, software)) + trailing;
            IsMessage(d) && IntegrityVerdict(c, d, key, false)
  {
    TypeRoundTrip(m.methodBits, m.classBits);
    TypeOnWire(EncodeType(m.methodBits, m.classBits));
    var plain := Plain(m, password, creds, software);
    PlainLacks(m, password, creds, software);
    var mi := Integrity(c, key, Type(m), m.tid, plain);
    var fp := FingerprintAttr(c, Type(m), m.tid, plain + [mi]);
    FirstIntegrityDecides(c, Type(m), m.tid, plain, mi, [fp], trailing, key, false);
  }

  lemma MaskedTwice(v: seq<Byte>)
    requires |v| == 4
    ensures Masked(Masked(v)) == v
  {
    XorOctetsTwice(v, FINGERPRINT_XOR);
  }

  /** The fingerprint check always passes, even if the caller added a FINGERPRINT of its own. */
  lemma FingerprintHolds(c: Crypto, m: Message, password: Option<seq<Byte>>, creds: Option<Credentials>,
                         software: seq<Byte>, trailing: seq<Byte>)
    requires WellFormed(m) && |Body(OnWire(c, m, password, creds, software))| <= MAX_LENGTH
    requires forall d :: |c.crc(d)| == 4
    ensures var d := Encoding(Type(m), m.tid, OnWire(c, m, password, creds, software)) + trailing;
            IsMessage(d) && FingerprintVerdict(c, d, false)
  {
    TypeRoundTrip(m.methodBits, m.classBits);
    TypeOnWire(EncodeType(m.methodBits, m.classBits));
    var signed := Signed(c, m, password, creds, software);
    MaskedTwice(c.crc(Draft(Type(m), m.tid, signed, |Body(signed)| + ATTR_HEADER + 4)));
    FingerprintDecides(c, Type(m), m.tid, signed, FingerprintAttr(c, Type(m), m.tid, signed), trailing, false);
  }

  // ---- The codec -----------------------------------------------------------------------

  class Codec {
    var methodBits: bv16
    var classBits: bv16
    var tid: seq<Byte>
    var attrs: seq<Attr>
    var raw: seq<Byte>

    ghost function Value(): Message
      reads this
    {
      Message(methodBits, classBits, tid, attrs)
    }

    constructor (m: Message)
      ensures Value() == m && raw == []
    {
      methodBits, classBits, tid, attrs, raw := m.methodBits, m.classBits, m.tid, m.attrs, [];
    }

    /** Append one attribute and its zero padding. */
    method AppendAttr(a: Attr)
      modifies this`raw
      ensures raw == old(raw) + Tlv(a)
    {
      var len, padded := |a.value|, Padded(|a.value|);
      raw := raw + (U16(a.kind) + U16(len) + a.value);
      for i := len to padded
        invariant raw == old(raw) + (U16(a.kind) + U16(len) + a.value + Zeros(i - len))
      {
        assert Zeros(i + 1 - len) == Zeros(i - len) + [0];
        raw := raw + [0];
      }
    }

    method AppendAttrs(extra: seq<Attr>, ghost t: nat, ghost before: seq<Attr>)
      requires raw == Draft(t, tid, before, 0)
      modifies this`raw
      ensures raw == Draft(t, tid, before + extra, 0)
    {
      assert before + extra[..0] == before;
      for i := 0 to |extra|
        invariant raw == Draft(t, tid, before + extra[..i], 0)
      {
        DraftAppend(t, tid, before + extra[..i], 0, extra[i]);
        assert before + extra[..i] + [extra[i]] == before + extra[..i + 1];
        AppendAttr(extra[i]);
      }
      assert extra[..|extra|] == extra;
    }

    /** Authenticate what is written so far with an attribute computed over it. */
    method AppendIntegrity(c: Crypto, key: seq<Byte>, ghost t: nat, ghost plain: seq<Attr>)
      requires |tid| == TID_SIZE && raw == Draft(t, tid, plain, 0)
      modifies this`raw
      ensures raw == Draft(t, tid, plain + [Integrity(c, key, t, tid, plain)], |Body(plain)| + ATTR_HEADER + HMAC_SIZE)
    {
      ghost var len := |Body(plain)| + ATTR_HEADER + HMAC_SIZE;
      HeaderSize(t, 0, tid);
      PatchDraft(t, tid, plain, 0, len);
      raw := Patch(raw, |raw| - HEADER + ATTR_HEADER + HMAC_SIZE);
      var a := Attr(MESSAGE_INTEGRITY, c.hmac(key, raw));
      DraftAppend(t, tid, plain, len, a);
      AppendAttr(a);
    }

    method AppendFingerprint(c: Crypto, ghost t: nat, ghost signed: seq<Attr>, ghost before: nat)
      requires |tid| == TID_SIZE && raw == Draft(t, tid, signed, before)
      modifies this`raw
      ensures raw == Draft(t, tid, signed + [FingerprintAttr(c, t, tid, signed)], |Body(signed)| + ATTR_HEADER + 4)
    {
      ghost var len := |Body(signed)| + ATTR_HEADER + 4;
      HeaderSize(t, before, tid);
      PatchDraft(t, tid, signed, before, len);
      raw := Patch(raw, |raw| - HEADER + ATTR_HEADER + 4);
      var a := Attr(FINGERPRINT, Masked(c.crc(raw)));
      DraftAppend(t, tid, signed, len, a);
      AppendAttr(a);
    }

    /** Write the header and every attribute up to SOFTWARE, with a placeholder length. */
    method AppendPlain(password: Option<seq<Byte>>, creds: Option<Credentials>, software: seq<Byte>)
      modifies this`raw
      ensures raw == Draft(Type(Value()), tid, Plain(Value(), password, creds, software), 0)
    {
      var t := EncodeType(methodBits, classBits) as nat;
      raw := Header(t, 0, tid);
      var first := if creds.Some? && password.Some? && classBits != INDICATION then CredentialAttrs(creds.value) else [];
      var last := if software != [] then [Attr(SOFTWARE, software)] else [];
      EmptyDraft(t, tid);
      AppendAttrs(first + attrs + last, t, []);
      assert [] + (first + attrs + last) == first + attrs + last;
    }

    /** Everything up to MESSAGE-INTEGRITY; the length field is left at some value. */
    method AppendSigned(c: Crypto, password: Option<seq<Byte>>, creds: Option<Credentials>, software: seq<Byte>)
      returns (ghost len: nat)
      requires |tid| == TID_SIZE
      modifies this`raw
      ensures raw == Draft(Type(Value()), tid, Signed(c, Value(), password, creds, software), len)
    {
      AppendPlain(password, creds, software);
      len := 0;
      if password.Some? && classBits != INDICATION {
        ghost var plain := Plain(Value(), password, creds, software);
        AppendIntegrity(c, MacKey(password.value, creds), Type(Value()), plain);
        len := |Body(plain)| + ATTR_HEADER + HMAC_SIZE;
      }
    }

    /** Append FINGERPRINT and write the final length. */
    method Finish(c: Crypto, ghost t: nat, ghost signed: seq<Attr>, ghost before: nat)
      requires |tid| == TID_SIZE && raw == Draft(t, tid, signed, before)
      modifies this`raw
      ensures raw == Encoding(t, tid, signed + [FingerprintAttr(c, t, tid, signed)])
    {
      AppendFingerprint(c, t, signed, before);
      ghost var len, all := |Body(signed)| + ATTR_HEADER + 4, signed + [FingerprintAttr(c, t, tid, signed)];
      HeaderSize(t, len, tid);
      PatchDraft(t, tid, all, len, |Body(all)|);
      raw := Patch(raw, |raw| - HEADER);
    }

    /** `encode`: the length field is patched before each digest and once more at the end. */
    method Encode(c: Crypto, password: Option<seq<Byte>>, creds: Option<Credentials>, software: seq<Byte>)
      requires |tid| == TID_SIZE
      modifies this`raw
      ensures raw == Encoding(Type(Value()), tid, OnWire(c, Value(), password, creds, software))
      ensures Carried(Value(), password, creds, software, OnWire(c, Value(), password, creds, software))
    {
      AllCarried(c, Value(), password, creds, software);
      ghost var len := AppendSigned(c, password, creds, software);
      Finish(c, Type(Value()), Signed(c, Value(), password, creds, software), len);
    }

    /** `decode`: on failure the fields are left half filled and must not be used. */
    method Decode(data: seq<Byte>) returns (ok: bool)
      modifies this
      ensures ok == Decoded(data).Some?
      ensures ok ==> Value() == Decoded(data).value && raw == data
    {
      if |data| < HEADER || !IsMessage(data) { return false; }
      var t := ReadU16(data) as bv16;
      methodBits, classBits, tid, raw, attrs := DecodeMethod(t), DecodeClass(t), data[8..HEADER], data, [];
      ok := DecodeAttrs(BodyOf(data));
    }

    method DecodeAttrs(b: seq<Byte>) returns (ok: bool)
      modifies this`attrs
      ensures ok == Parse(b).Some?
      ensures ok ==> attrs == Parse(b).value
    {
      attrs := [];
      var offset, rest := 0, b;
      assert forall r: seq<Attr> :: [] + r == r;
      while offset + ATTR_HEADER <= |b|
        invariant rest == From(b, offset)
        invariant Parse(b) == Prepend(attrs, Parse(rest))
      {
        ParseStep(rest);
        var len := ReadU16(rest[2..]);
        if offset + ATTR_HEADER + len > |b| { return false; }
        var a := Attr(ReadU16(rest), rest[ATTR_HEADER..ATTR_HEADER + len]);
        var n := Stride(rest);
        PrependStep(attrs, a, Parse(From(rest, n)));
        FromStep(b, offset, n);
        attrs, offset, rest := attrs + [a], offset + n, From(rest, n);
      }
      assert attrs + [] == attrs;
      ok := true;
    }

    /** `checkIntegrity`: the offset of the first MESSAGE-INTEGRITY by a scan, then the comparison. */
    method CheckIntegrity(c: Crypto, key: seq<Byte>, allowMissing: bool) returns (ok: bool)
      requires IsMessage(raw)
      ensures ok == IntegrityVerdict(c, raw, key, allowMissing)
    {
      var o := FindFirst(BodyOf(raw), MESSAGE_INTEGRITY);
      if o.None? { return allowMissing; }
      ok := IntegrityAt(c, raw, key, o.value);
    }

    method CheckFingerprint(c: Crypto, allowMissing: bool) returns (ok: bool)
      requires IsMessage(raw)
      ensures ok == FingerprintVerdict(c, raw, allowMissing)
    {
      var o := FindLast(BodyOf(raw), FINGERPRINT);
      if o.None? { return allowMissing; }
      ok := FingerprintAt(c, raw, o.value);
    }
  }

  function From(b: seq<Byte>, offset: nat): seq<Byte> { if offset <= |b| then b[offset..] else [] }

  lemma FromStep(b: seq<Byte>, offset: nat, n: nat)
    requires offset <= |b|
    ensures From(b, offset + n) == From(From(b, offset), n)
  {
  }

  function Prepend(front: seq<Attr>, rest: Option<seq<Attr>>): Option<seq<Attr>>
  {
    if rest.None? then None else Some(front + rest.value)
  }

  lemma PrependStep(front: seq<Attr>, a: Attr, rest: Option<seq<Attr>>)
    ensures Prepend(front, Prepend([a], rest)) == Prepend(front + [a], rest)
  {
    if rest.Some? { assert front + ([a] + rest.value) == front + [a] + rest.value; }
  }

  function Shift(n: nat, r: Option<nat>): Option<nat> { if r.None? then None else Some(n + r.value) }

  /** The distance from the attribute at the front to the next. */
  function Stride(b: seq<Byte>): nat
    requires |b| >= ATTR_HEADER
  {
    ATTR_HEADER + Padded(ReadU16(b[2..]))
  }

  lemma ParseStep(b: seq<Byte>)
    requires |b| >= ATTR_HEADER
    ensures var len := ReadU16(b[2..]);
            Parse(b) ==
            if ATTR_HEADER + len > |b| then None
            else Prepend([Attr(ReadU16(b), b[ATTR_HEADER..ATTR_HEADER + len])], Parse(From(b, Stride(b))))
  {
  }

  lemma FirstStep(b: seq<Byte>, kind: nat)
    requires |b| >= ATTR_HEADER
    ensures ScanFirst(b, kind) == if ReadU16(b) == kind then Some(0) else Shift(Stride(b), ScanFirst(From(b, Stride(b)), kind))
  {
  }

  lemma LastStep(b: seq<Byte>, kind: nat)
    requires |b| >= ATTR_HEADER
    ensures var later := ScanLast(From(b, Stride(b)), kind);
            ScanLast(b, kind) ==
            if later.Some? then Some(Stride(b) + later.value) else if ReadU16(b) == kind then Some(0) else None
  {
  }

  /** `rest` begins at `offset`, and nothing before it is of the type. */
  predicate FirstFrom(b: seq<Byte>, kind: nat, offset: nat, rest: seq<Byte>)
  {
    ScanFirst(b, kind) == Shift(offset, ScanFirst(rest, kind))
  }

  lemma FirstFromStep(b: seq<Byte>, kind: nat, offset: nat, rest: seq<Byte>)
    requires FirstFrom(b, kind, offset, rest) && |rest| >= ATTR_HEADER && ReadU16(rest) != kind
    ensures FirstFrom(b, kind, offset + Stride(rest), From(rest, Stride(rest)))
  {
    FirstStep(rest, kind);
  }

  lemma FirstFromEnd(b: seq<Byte>, kind: nat, offset: nat, rest: seq<Byte>)
    requires FirstFrom(b, kind, offset, rest) && (|rest| >= ATTR_HEADER ==> ReadU16(rest) == kind)
    ensures ScanFirst(b, kind) == if |rest| >= ATTR_HEADER then Some(offset) else None
  {
    if |rest| >= ATTR_HEADER { FirstStep(rest, kind); }
  }

  method FindFirst(b: seq<Byte>, kind: nat) returns (r: Option<nat>)
    ensures r == ScanFirst(b, kind)
  {
    var offset, rest := 0, b;
    while |rest| >= ATTR_HEADER && ReadU16(rest) != kind
      invariant offset >= 0 && FirstFrom(b, kind, offset, rest)
      decreases |rest|
    {
      FirstFromStep(b, kind, offset, rest);
      offset, rest := offset + Stride(rest), From(rest, Stride(rest));
    }
    FirstFromEnd(b, kind, offset, rest);
    r := if |rest| >= ATTR_HEADER then Some(offset) else None;
  }

  method FindLast(b: seq<Byte>, kind: nat) returns (r: Option<nat>)
    ensures r == ScanLast(b, kind)
  {
    r := None;
    var offset, rest := 0, b;
    while offset + ATTR_HEADER <= |b|
      invariant rest == From(b, offset)
      invariant ScanLast(b, kind) ==
                var later := ScanLast(rest, kind); if later.Some? then Some(offset + later.value) else r
    {
      LastStep(rest, kind);
      if ReadU16(rest) == kind { r := Some(offset); }
      var n := Stride(rest);
      FromStep(b, offset, n);
      offset, rest := offset + n, From(rest, n);
    }
  }
}
