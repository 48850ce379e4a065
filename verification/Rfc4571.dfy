/** RFC 4571 framing of messages on a byte stream: a two-octet length before each message. */
module Rfc4571 {
  import opened Bytes

  /** A payload behind its two-octet length; the length field keeps only 16 bits. */
  function Framed(d: seq<Byte>): (f: seq<Byte>)
    ensures |f| == 2 + |d|
  {
    U16(|d|) + d
  }

  function Framing(ds: seq<seq<Byte>>): seq<Byte>
  {
    if ds == [] then [] else Framed(ds[0]) + Framing(ds[1..])
  }

  datatype Deframed = Deframed(payloads: seq<seq<Byte>>, rest: seq<Byte>)

  /** Every complete frame of a buffer, in order. */
  function Deframe(buf: seq<Byte>): Deframed
    decreases |buf|
  {
    if |buf| < 2 || |buf| - 2 < ReadU16(buf) then Deframed([], buf)
    else
      var more := Deframe(buf[2 + ReadU16(buf)..]);
      Deframed([buf[2..2 + ReadU16(buf)]] + more.payloads, more.rest)
  }

  predicate HasFrame(buf: seq<Byte>) { |buf| >= 2 && |buf| - 2 >= ReadU16(buf) }

  /** With `payloads` taken out, deframing `rest` completes `all`. */
  predicate Unread(all: Deframed, payloads: seq<seq<Byte>>, rest: seq<Byte>)
  {
    all.rest == Deframe(rest).rest && all.payloads == payloads + Deframe(rest).payloads
  }

  lemma UnreadStep(all: Deframed, payloads: seq<seq<Byte>>, rest: seq<Byte>)
    requires Unread(all, payloads, rest) && HasFrame(rest)
    ensures Unread(all, payloads + [rest[2..2 + ReadU16(rest)]], rest[2 + ReadU16(rest)..])
  {
    var one, more := [rest[2..2 + ReadU16(rest)]], Deframe(rest[2 + ReadU16(rest)..]).payloads;
    assert payloads + (one + more) == payloads + one + more;
  }

  lemma UnreadEnd(all: Deframed, payloads: seq<seq<Byte>>, rest: seq<Byte>)
    requires Unread(all, payloads, rest) && !HasFrame(rest)
    ensures all == Deframed(payloads, rest)
  {
    assert payloads + [] == payloads;
  }

  /** One frame out of the front of a buffer. */
  function First(buf: seq<Byte>): (d: seq<Byte>)
    requires HasFrame(buf)
    ensures |buf| >= 2 + |d|
  {
    buf[2..2 + ReadU16(buf)]
  }

  lemma FirstStep(all: Deframed, payloads: seq<seq<Byte>>, rest: seq<Byte>)
    requires Unread(all, payloads, rest) && HasFrame(rest)
    ensures Unread(all, payloads + [First(rest)], rest[2 + |First(rest)|..])
  {
    UnreadStep(all, payloads, rest);
  }

  lemma SliceStep(buf: seq<Byte>, consumed: nat, n: nat)
    requires consumed + n <= |buf|
    ensures buf[consumed..][n..] == buf[consumed + n..]
  {
  }

  /** The complete frames of a buffer, and how much of it they take. */
  method ReadAll(buf: seq<Byte>) returns (payloads: seq<seq<Byte>>, consumed: nat)
    ensures consumed <= |buf| && Deframe(buf) == Deframed(payloads, buf[consumed..])
  {
    payloads, consumed := [], 0;
    ghost var all := Deframe(buf);
    assert [] + all.payloads == all.payloads;
    var rest, more := buf, HasFrame(buf);
    while more
      invariant consumed <= |buf| && rest == buf[consumed..] && more == HasFrame(rest)
      invariant Unread(all, payloads, rest)
      decreases |rest|
    {
      payloads, consumed, rest := TakeOne(all, payloads, buf, consumed, rest);
      more := HasFrame(rest);
    }
    UnreadEnd(all, payloads, rest);
  }

  method TakeOne(ghost all: Deframed, payloads: seq<seq<Byte>>, buf: seq<Byte>, consumed: nat, rest: seq<Byte>)
    returns (payloads': seq<seq<Byte>>, consumed': nat, rest': seq<Byte>)
    requires consumed <= |buf| && rest == buf[consumed..] && HasFrame(rest) && Unread(all, payloads, rest)
    ensures consumed' <= |buf| && rest' == buf[consumed'..] && |rest'| < |rest| && Unread(all, payloads', rest')
    ensures payloads' == payloads + [First(rest)]
  {
    FirstStep(all, payloads, rest);
    var n := 2 + |First(rest)|;
    SliceStep(buf, consumed, n);
    payloads', consumed', rest' := payloads + [First(rest)], consumed + n, rest[n..];
  }

  predicate Short(ds: seq<seq<Byte>>) { forall i :: 0 <= i < |ds| ==> |ds[i]| < 0x1_0000 }

  lemma FramedFields(d: seq<Byte>, rest: seq<Byte>)
    requires |d| < 0x1_0000
    ensures var b := Framed(d) + rest;
            ReadU16(b) == |d| && b[2..2 + |d|] == d && b[2 + |d|..] == rest
  {
    assert Framed(d) + rest == U16(|d|) + (d + rest);
    U16RoundTrip(|d|, d + rest);
  }

  /** The framing round trip holds exactly for payloads the length field can describe. */
  lemma FramedIff(d: seq<Byte>, rest: seq<Byte>)
    ensures (HasFrame(Framed(d) + rest) && (Framed(d) + rest)[2..2 + ReadU16(Framed(d) + rest)] == d) <==> |d| < 0x1_0000
  {
    assert Framed(d) + rest == U16(|d|) + (d + rest);
    U16RoundTrip(|d|, d + rest);
    if |d| < 0x1_0000 { FramedFields(d, rest); }
  }

  lemma DeframeFramed(d: seq<Byte>, rest: seq<Byte>)
    requires |d| < 0x1_0000
    ensures Deframe(Framed(d) + rest) == Deframed([d] + Deframe(rest).payloads, Deframe(rest).rest)
  {
    FramedFields(d, rest);
  }

  lemma ConsSlices(ds: seq<seq<Byte>>, j: nat)
    requires j < |ds|
    ensures ds[..j + 1] == [ds[0]] + ds[1..][..j] && ds[j + 1..] == ds[1..][j..]
    ensures j + 1 < |ds| ==> ds[j + 1] == ds[1..][j]
  {
  }

  /** The payloads of `buf` are the first `k` of the stream, and it ends inside the next frame. */
  predicate DeframesTo(r: Deframed, ds: seq<seq<Byte>>, k: nat, future: seq<Byte>)
  {
    && k <= |ds| && r.payloads == ds[..k] && r.rest + future == Framing(ds[k..])
    && (k < |ds| ==> |r.rest| < 2 + |ds[k]|)
  }

  /** Deframing the front of a framed stream. */
  lemma {:induction false} DeframeReads(ds: seq<seq<Byte>>, buf: seq<Byte>, future: seq<Byte>) returns (k: nat)
    requires Short(ds) && buf + future == Framing(ds)
    ensures DeframesTo(Deframe(buf), ds, k, future)
    decreases |ds|
  {
    k := 0;
    assert ds[0..] == ds;
    if ds == [] {
      assert buf == [];
    } else if |buf| >= 2 + |ds[0]| {
      var rest := buf[2 + |ds[0]|..];
      CutFront(Framed(ds[0]), Framing(ds[1..]), buf, future);
      DeframeFramed(ds[0], rest);
      var j := DeframeReads(ds[1..], rest, future);
      ConsSlices(ds, j);
      k := j + 1;
    } else {
      ShortHeader(buf, future, ds[0], Framing(ds[1..]));
    }
  }

  lemma CutFront(f: seq<Byte>, tail: seq<Byte>, buf: seq<Byte>, future: seq<Byte>)
    requires buf + future == f + tail && |buf| >= |f|
    ensures buf == f + buf[|f|..] && buf[|f|..] + future == tail
  {
    assert buf[..|f|] == (buf + future)[..|f|] == f;
    assert buf[|f|..] + future == (buf + future)[|f|..] == (f + tail)[|f|..];
  }

  /** A buffer that ends inside a frame holds no complete one. */
  lemma ShortHeader(buf: seq<Byte>, future: seq<Byte>, d: seq<Byte>, tail: seq<Byte>)
    requires |d| < 0x1_0000 && buf + future == Framed(d) + tail && |buf| < 2 + |d|
    ensures !HasFrame(buf)
  {
    if |buf| >= 2 {
      FramedFields(d, tail);
      assert buf[0] == (buf + future)[0] && buf[1] == (buf + future)[1];
    }
  }

  lemma JoinSlices(ds: seq<seq<Byte>>, k: nat, j: nat)
    requires k + j <= |ds|
    ensures ds[..k + j] == ds[..k] + ds[k..][..j] && ds[k + j..] == ds[k..][j..]
    ensures k + j < |ds| ==> ds[k + j] == ds[k..][j]
  {
  }

  lemma {:induction false} FramingSplit(ds: seq<seq<Byte>>, k: nat)
    requires k <= |ds|
    ensures |Framing(ds)| == |Framing(ds[..k])| + |Framing(ds[k..])|
    decreases k
  {
    if k == 0 {
      assert ds[0..] == ds;
    } else {
      FramingSplit(ds[1..], k - 1);
      assert ds[..k][1..] == ds[1..][..k - 1] && ds[k..] == ds[1..][k - 1..];
    }
  }
}
