/**
 The client's end of an RFC 6062 data connection.  Before the bind it speaks self-delimiting
 STUN; from the CONNECTION-BIND success on, both directions are RFC 4571 frames.  Application
 data may arrive in the same read as the response.
 */
module DataConn {
  import opened Bytes
  import opened Options
  import opened Rfc4571
  import SC = StunConn
  import SM = StunMessage

  const CONNECTION_BIND: bv16 := 0x00B
  const SUCCESS_RESPONSE: bv16 := 2

  predicate IsBindSuccess(frame: seq<Byte>)
  {
    var m := SM.Decoded(frame);
    m.Some? && m.value.classBits == SUCCESS_RESPONSE && m.value.methodBits == CONNECTION_BIND
  }

  // ---- The two phases as functions -----------------------------------------------------

  datatype Scan = NotYet(left: seq<Byte>) | Found(rest: seq<Byte>)

  /** Phase 1: skip frames until the bind success; stop at anything incomplete or invalid. */
  function ScanBind(pending: seq<Byte>): Scan
    decreases |pending|
  {
    match SC.ReadOf(pending)
    case Nothing => NotYet(SC.LeftBy(pending))
    case Garbage => NotYet(SC.LeftBy(pending))
    case Got(frame) => if IsBindSuccess(frame) then Found(SC.LeftBy(pending)) else ScanBind(SC.LeftBy(pending))
  }

  /** A connection: what is unread in each phase, and the payloads delivered so far. */
  datatype Conn = Conn(bound: bool, pending: seq<Byte>, buf: seq<Byte>, delivered: seq<seq<Byte>>)

  function Deliver(c: Conn): Conn
  {
    var d := Deframe(c.buf);
    c.(buf := d.rest, delivered := c.delivered + d.payloads)
  }

  /** One call of `handleInboundTurnDataTcp` that reads `data`. */
  function Inbound(c: Conn, data: seq<Byte>): Conn
  {
    if c.bound then Deliver(c.(buf := c.buf + data))
    else
      match ScanBind(c.pending + data)
      case NotYet(left) => c.(pending := left)
      case Found(rest) => Deliver(c.(bound := true, pending := [], buf := c.buf + rest))
  }

  // ---- The object ----------------------------------------------------------------------

  class TurnDataConn {
    const stun: SC.StunConn
    var bound: bool
    var buf: seq<Byte>
    var delivered: seq<seq<Byte>>

    ghost predicate Valid()
      reads this, stun
    {
      stun.Valid()
    }

    ghost function Value(): Conn
      reads this, stun
      requires Valid()
    {
      Conn(bound, stun.Pending(), buf, delivered)
    }

    constructor ()
      ensures Valid() && fresh(stun) && Value() == Conn(false, [], [], [])
    {
      stun := new SC.StunConn();
      bound, buf, delivered := false, [], [];
    }

    /** Everything one readable event offers, in the pieces the socket gave it. */
    method HandleInbound(chunks: seq<seq<Byte>>)
      requires Valid()
      modifies this, stun
      ensures Valid() && Value() == Inbound(old(Value()), SC.Concat(chunks))
    {
      ghost var before := Value();
      Receive(chunks);
      if !bound {
        ParseBind();
      }
      if bound {
        ParseData();
      }
    }

    method Receive(chunks: seq<seq<Byte>>)
      requires Valid()
      modifies this`buf, stun
      ensures Valid()
      ensures Value() == if bound then old(Value()).(buf := old(buf) + SC.Concat(chunks))
                         else old(Value()).(pending := old(stun.Pending()) + SC.Concat(chunks))
    {
      for i := 0 to |chunks|
        invariant Valid()
        invariant Value() == if bound then old(Value()).(buf := old(buf) + SC.Concat(chunks[..i]))
                             else old(Value()).(pending := old(stun.Pending()) + SC.Concat(chunks[..i]))
      {
        assert chunks[..i + 1][..i] == chunks[..i];
        assert SC.Concat(chunks[..i + 1]) == SC.Concat(chunks[..i]) + chunks[i];
        if !bound {
          stun.Feed(chunks[i]);
        } else {
          buf := buf + chunks[i];
        }
      }
      assert chunks[..|chunks|] == chunks;
    }

    method ParseBind()
      requires Valid() && !bound
      modifies this`bound, this`buf, stun
      ensures Valid()
      ensures match ScanBind(old(stun.Pending()))
              case NotYet(left) => Value() == old(Value()).(pending := left)
              case Found(rest) => Value() == old(Value()).(bound := true, pending := [], buf := old(buf) + rest)
    {
      ghost var scan := ScanBind(stun.Pending());
      var more := true;
      while more
        invariant Valid() && !bound && buf == old(buf)
        invariant scan == if more then ScanBind(stun.Pending()) else NotYet(stun.Pending())
        decreases more, |stun.Pending()|
      {
        var r := stun.ReadFrame();
        if !r.Got? {
          more := false;
        } else if IsBindSuccess(r.frame) {
          var rest := stun.TakeBuffered();
          bound, buf := true, buf + rest;
          return;
        }
      }
    }

    method ParseData()
      requires Valid()
      modifies this`buf, this`delivered
      ensures Valid() && Value() == Deliver(old(Value()))
    {
      var payloads, consumed := ReadAll(buf);
      delivered := delivered + payloads;
      if consumed > 0 { buf := buf[consumed..]; }
    }
  }

  // ---- Well-formed streams -------------------------------------------------------------

  /** What a peer sends: other STUN frames, the bind success, then framed payloads. */
  function Stream(fs: seq<seq<Byte>>, resp: seq<Byte>, ds: seq<seq<Byte>>): seq<Byte>
  {
    SC.Concat(fs) + (resp + Framing(ds))
  }

  predicate GoodStream(fs: seq<seq<Byte>>, resp: seq<Byte>, ds: seq<seq<Byte>>)
  {
    && SC.AllFrames(fs) && (forall i :: 0 <= i < |fs| ==> !IsBindSuccess(fs[i]))
    && SC.IsFrame(resp) && IsBindSuccess(resp)
    && Short(ds)
  }

  /** The frame the parser is waiting for before it is bound. */
  function Next(fs: seq<seq<Byte>>, resp: seq<Byte>): seq<Byte> { if fs == [] then resp else fs[0] }

  /** Not bound: frames `fs` and the response are still to be read, `future` still to arrive. */
  predicate Before(c: Conn, fs: seq<seq<Byte>>, resp: seq<Byte>, ds: seq<seq<Byte>>, future: seq<Byte>)
  {
    && !c.bound && c.buf == [] && c.delivered == []
    && c.pending + future == Stream(fs, resp, ds)
    && |c.pending| < |Next(fs, resp)|
  }

  /** Bound: the first `k` payloads are delivered, the next one is incomplete. */
  predicate After(c: Conn, ds: seq<seq<Byte>>, k: nat, future: seq<Byte>)
  {
    && c.bound && k <= |ds| && c.delivered == ds[..k]
    && c.buf + future == Framing(ds[k..])
    && (k < |ds| ==> |c.buf| < 2 + |ds[k]|)
  }

  lemma StreamHead(fs: seq<seq<Byte>>, resp: seq<Byte>, ds: seq<seq<Byte>>)
    requires fs != []
    ensures Stream(fs, resp, ds) == fs[0] + Stream(fs[1..], resp, ds)
  {
    SC.ConcatSplit(fs, 0);
    assert SC.Concat(fs[..0]) == [];
    assert SC.Concat(fs) == fs[0] + SC.Concat(fs[1..]);
    Assoc(fs[0], SC.Concat(fs[1..]), resp + Framing(ds));
  }

  lemma PrefixFrom(pending: seq<Byte>, future: seq<Byte>, whole: seq<Byte>)
    requires pending + future == whole
    ensures pending <= whole
  {
  }

  /** One read before the bind: `f` is the next frame of the stream. */
  lemma ReadOne(f: seq<Byte>, tail: seq<Byte>, pending: seq<Byte>, future: seq<Byte>)
    requires SC.IsFrame(f) && pending + future == f + tail
    ensures |pending| < |f| ==> SC.ReadOf(pending).Nothing? && SC.LeftBy(pending) == pending
    ensures |pending| >= |f| ==> SC.ReadOf(pending) == SC.Got(f) && SC.LeftBy(pending) + future == tail
  {
    PrefixFrom(pending, future, f + tail);
    SC.ReadHead(f, tail, pending);
    if |pending| >= |f| {
      var left := SC.LeftBy(pending);
      Assoc(f, left, future);
      CancelFront(f, left + future, tail);
    }
  }

  lemma CancelFront(f: seq<Byte>, x: seq<Byte>, y: seq<Byte>)
    requires f + x == f + y
    ensures x == y
  {
    assert x == (f + x)[|f|..] && y == (f + y)[|f|..];
  }

  predicate ScansTo(r: Scan, fs: seq<seq<Byte>>, resp: seq<Byte>, ds: seq<seq<Byte>>, future: seq<Byte>, j: nat)
  {
    match r
    case Found(rest) => rest + future == Framing(ds)
    case NotYet(left) =>
      && j <= |fs| && left + future == Stream(fs[j..], resp, ds) && |left| < |Next(fs[j..], resp)|
  }

  /** Phase 1 skips whole frames, stops inside the next one, or hands over exactly what follows the response. */
  lemma {:induction false} ScanReads(fs: seq<seq<Byte>>, resp: seq<Byte>, ds: seq<seq<Byte>>, pending: seq<Byte>, future: seq<Byte>)
    returns (j: nat)
    requires GoodStream(fs, resp, ds) && pending + future == Stream(fs, resp, ds)
    ensures ScansTo(ScanBind(pending), fs, resp, ds, future, j)
    decreases |fs|
  {
    j := 0;
    assert fs[0..] == fs;
    if fs == [] {
      assert Stream(fs, resp, ds) == resp + Framing(ds);
      ReadOne(resp, Framing(ds), pending, future);
    } else {
      StreamHead(fs, resp, ds);
      ReadOne(fs[0], Stream(fs[1..], resp, ds), pending, future);
      if |pending| >= |fs[0]| {
        var i := ScanReads(fs[1..], resp, ds, SC.LeftBy(pending), future);
        j := i + 1;
        if i <= |fs[1..]| { assert fs[j..] == fs[1..][i..]; }
      }
    }
  }

  /** Where a connection stands in its stream. */
  predicate Progress(c: Conn, fs: seq<seq<Byte>>, resp: seq<Byte>, ds: seq<seq<Byte>>, k: nat, future: seq<Byte>)
  {
    if c.bound then After(c, ds, k, future) else Before(c, fs, resp, ds, future)
  }

  lemma DeliverAll(c: Conn, ds: seq<seq<Byte>>, k: nat, future: seq<Byte>) returns (k': nat)
    requires Short(ds) && c.bound && k <= |ds| && c.delivered == ds[..k] && c.buf + future == Framing(ds[k..])
    ensures After(Deliver(c), ds, k', future)
  {
    var j, r := DeframeFrom(ds, k, c.buf, future);
    k' := k + j;
    AfterFrom(c, ds, k, j, r, future);
  }

  lemma DeframeFrom(ds: seq<seq<Byte>>, k: nat, buf: seq<Byte>, future: seq<Byte>) returns (j: nat, r: Deframed)
    requires Short(ds) && k <= |ds| && buf + future == Framing(ds[k..])
    ensures r == Deframe(buf) && DeframesTo(r, ds[k..], j, future)
  {
    j := DeframeReads(ds[k..], buf, future);
    r := Deframe(buf);
  }

  lemma AfterFrom(c: Conn, ds: seq<seq<Byte>>, k: nat, j: nat, r: Deframed, future: seq<Byte>)
    requires c.bound && k <= |ds| && c.delivered == ds[..k] && DeframesTo(r, ds[k..], j, future)
    ensures After(c.(buf := r.rest, delivered := c.delivered + r.payloads), ds, k + j, future)
  {
    DeframedOn(ds, k, j, r, future);
  }

  /** Deframing from the `k`-th payload on, seen from the start of the stream. */
  lemma DeframedOn(ds: seq<seq<Byte>>, k: nat, j: nat, r: Deframed, future: seq<Byte>)
    requires k <= |ds| && DeframesTo(r, ds[k..], j, future)
    ensures k + j <= |ds| && ds[..k] + r.payloads == ds[..k + j] && r.rest + future == Framing(ds[k + j..])
    ensures k + j < |ds| ==> |r.rest| < 2 + |ds[k + j]|
  {
    JoinSlices(ds, k, j);
  }

  /** One readable event, whatever it carries, moves the connection along its stream. */
  lemma InboundKeeps(c: Conn, fs: seq<seq<Byte>>, resp: seq<Byte>, ds: seq<seq<Byte>>, k: nat, data: seq<Byte>, future: seq<Byte>)
    returns (j: nat, k': nat)
    requires GoodStream(fs, resp, ds) && Progress(c, fs, resp, ds, k, data + future)
    ensures j <= |fs| && Progress(Inbound(c, data), fs[j..], resp, ds, k', future)
    ensures c.bound ==> Inbound(c, data).bound
  {
    j, k' := 0, 0;
    if c.bound {
      Assoc(c.buf, data, future);
      k' := DeliverAll(c.(buf := c.buf + data), ds, k, future);
    } else {
      Assoc(c.pending, data, future);
      var i := ScanReads(fs, resp, ds, c.pending + data, future);
      match ScanBind(c.pending + data)
      case NotYet(left) => j := i;
      case Found(rest) =>
        assert ds[0..] == ds && c.buf + rest == rest;
        k' := DeliverAll(c.(bound := true, pending := [], buf := c.buf + rest), ds, 0, future);
    }
  }

  function Received(events: seq<seq<seq<Byte>>>): seq<Byte>
  {
    if events == [] then [] else SC.Concat(events[0]) + Received(events[1..])
  }

  /** How many payloads are complete in the first `got` octets of a stream. */
  predicate Complete(ds: seq<seq<Byte>>, k: nat, got: int)
  {
    && k <= |ds| && (got < 0 ==> k == 0) && (got >= 0 ==> |Framing(ds[..k])| <= got)
    && (k < |ds| ==> got < |Framing(ds[..k + 1])|)
  }

  lemma AfterIsComplete(c: Conn, ds: seq<seq<Byte>>, k: nat, future: seq<Byte>, got: int)
    requires After(c, ds, k, future) && got + |future| == |Framing(ds)|
    ensures Complete(ds, k, got)
  {
    FramingSplit(ds, k);
    assert |c.buf| + |future| == |Framing(ds[k..])|;
    if k < |ds| {
      FramingSplit(ds[..k + 1], k);
      assert ds[..k + 1][..k] == ds[..k] && ds[..k + 1][k..] == [ds[k]];
      assert |Framing([ds[k]])| == 2 + |ds[k]|;
    }
  }

  lemma BeforeIsComplete(c: Conn, fs: seq<seq<Byte>>, resp: seq<Byte>, ds: seq<seq<Byte>>, future: seq<Byte>, got: int)
    requires Before(c, fs, resp, ds, future) && got + |future| == |Framing(ds)|
    ensures got < 0 && Complete(ds, 0, got)
  {
    assert |c.pending| + |future| == |Stream(fs, resp, ds)|;
    if fs != [] { StreamHead(fs, resp, ds); }
  }

  /**
   However the bind success and the framed data behind it are split into reads, and even when
   they share one, the payloads delivered are exactly the complete ones, in order.
   */
  method Drive(ghost fs: seq<seq<Byte>>, ghost resp: seq<Byte>, ghost ds: seq<seq<Byte>>, events: seq<seq<seq<Byte>>>,
               ghost future: seq<Byte>)
    returns (out: seq<seq<Byte>>)
    requires GoodStream(fs, resp, ds) && Received(events) + future == Stream(fs, resp, ds)
    ensures out <= ds
    ensures Complete(ds, |out|, |Received(events)| - |SC.Concat(fs)| - |resp|)
  {
    var conn := new TurnDataConn();
    ghost var left, k, i := fs, 0, 0;
    var todo := events;
    StartsBefore(fs, resp, ds, Received(events) + future);
    while todo != []
      invariant conn.Valid() && fresh(conn) && fresh(conn.stun)
      invariant GoodStream(left, resp, ds)
      invariant Progress(conn.Value(), left, resp, ds, k, Received(todo) + future)
      decreases |todo|
    {
      ghost var data, rest := SC.Concat(todo[0]), Received(todo[1..]) + future;
      Assoc(data, Received(todo[1..]), future);
      ghost var j, k' := InboundKeeps(conn.Value(), left, resp, ds, k, data, rest);
      conn.HandleInbound(todo[0]);
      left, k, todo := left[j..], k', todo[1..];
    }
    out := conn.delivered;
    assert [] + future == future;
    ghost var got := |Received(events)| - |SC.Concat(fs)| - |resp|;
    assert got + |future| == |Framing(ds)|;
    if conn.bound {
      AfterIsComplete(conn.Value(), ds, k, future, got);
    } else {
      BeforeIsComplete(conn.Value(), left, resp, ds, future, got);
    }
  }

  lemma StartsBefore(fs: seq<seq<Byte>>, resp: seq<Byte>, ds: seq<seq<Byte>>, future: seq<Byte>)
    requires GoodStream(fs, resp, ds) && future == Stream(fs, resp, ds)
    ensures Before(Conn(false, [], [], []), fs, resp, ds, future)
  {
    assert [] + future == future;
  }

  /** An encoded STUN message is one frame of the stream. */
  lemma EncodingIsFrame(t: nat, tid: seq<Byte>, attrs: seq<SM.Attr>)
    requires t < 0x4000 && |tid| == SM.TID_SIZE && |SM.Body(attrs)| <= SM.MAX_LENGTH
    ensures SC.IsFrame(SM.Encoding(t, tid, attrs))
  {
    var d := SM.Encoding(t, tid, attrs);
    assert d + [] == d;
    SM.EncodingDelimited(t, tid, attrs, []);
    SM.HeaderLength(t, |SM.Body(attrs)|, tid, SM.Body(attrs));
  }

  /** An encoded message is taken for the bind success if and only if it is a CONNECTION-BIND success response. */
  lemma BindResponseRecognised(c: SM.Crypto, m: SM.Message, password: Option<seq<Byte>>, creds: Option<SM.Credentials>,
                               software: seq<Byte>)
    requires SM.WellFormed(m) && |SM.Body(SM.OnWire(c, m, password, creds, software))| <= SM.MAX_LENGTH
    ensures var f := SM.Encoding(SM.Type(m), m.tid, SM.OnWire(c, m, password, creds, software));
            SC.IsFrame(f) && (IsBindSuccess(f) <==> m.methodBits == 0xB && m.classBits == 2)
  {
    var all := SM.OnWire(c, m, password, creds, software);
    SM.TypeRoundTrip(m.methodBits, m.classBits);
    SM.TypeOnWire(SM.EncodeType(m.methodBits, m.classBits));
    EncodingIsFrame(SM.Type(m), m.tid, all);
    SM.DecodeEncoded(c, m, password, creds, software, []);
    assert SM.Encoding(SM.Type(m), m.tid, all) + [] == SM.Encoding(SM.Type(m), m.tid, all);
  }
}
