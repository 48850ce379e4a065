/**
 The self-delimiting TURN-over-TCP stream parser: STUN messages and ChannelData frames are cut
 out of a byte stream that arrives in arbitrary chunks.
 */
module StunConn {
  import opened Bytes
  import ChannelData

  const STUN_HEADER := 20
  const MAGIC_COOKIE := 0x2112A442

  datatype Size = Incomplete | Invalid | Complete(n: nat)

  /** The size of the frame at the front of a buffer, header included. */
  function FrameSize(buf: seq<Byte>): (r: Size)
    ensures r.Complete? ==> 4 <= r.n <= |buf|
  {
    if |buf| < 4 then Incomplete
    else if buf[0] < 0x40 then
      if |buf| < 8 then Incomplete
      else if ReadU32(buf[4..]) != MAGIC_COOKIE then Invalid
      else Cut(STUN_HEADER + ReadU16(buf[2..]), |buf|)
    else if ChannelData.ChannelValid(ReadU16(buf)) then Cut(Padded(ChannelData.HEADER + ReadU16(buf[2..])), |buf|)
    else Invalid
  }

  function Cut(n: nat, available: nat): Size { if available < n then Incomplete else Complete(n) }

  /** One well-formed frame and nothing else. */
  predicate IsFrame(f: seq<Byte>) { FrameSize(f) == Complete(|f|) }

  // ---- More bytes do not change a verdict ----------------------------------------------

  lemma SameHeader(b: seq<Byte>, t: seq<Byte>)
    requires |b| >= 4
    ensures ReadU16(b + t) == ReadU16(b) && ReadU16((b + t)[2..]) == ReadU16(b[2..])
    ensures |b| >= 8 ==> ReadU32((b + t)[4..]) == ReadU32(b[4..])
  {
    assert (b + t)[2..] == b[2..] + t;
    assert (b + t)[4..] == b[4..] + t;
    if |b| >= 8 {
      assert (b[4..] + t)[2..] == b[4..][2..] + t;
    }
  }

  /** A complete or invalid head stays what it is, whatever arrives behind it. */
  lemma VerdictStable(b: seq<Byte>, t: seq<Byte>)
    requires !FrameSize(b).Incomplete?
    ensures FrameSize(b + t) == FrameSize(b)
  {
    SameHeader(b, t);
  }

  /** A proper part of a frame is neither complete nor invalid. */
  lemma PartIncomplete(b: seq<Byte>, t: seq<Byte>)
    requires IsFrame(b + t) && t != []
    ensures FrameSize(b) == Incomplete
  {
    if !FrameSize(b).Incomplete? {
      VerdictStable(b, t);
    }
  }

  /** With eight octets there, a head is invalid if and only if nothing behind it completes a frame. */
  lemma InvalidIff(b: seq<Byte>)
    requires |b| >= 8
    ensures FrameSize(b).Invalid? <==> forall t :: !FrameSize(b + t).Complete?
  {
    if FrameSize(b).Invalid? {
      forall t ensures !FrameSize(b + t).Complete? { VerdictStable(b, t); }
    } else {
      var t := Zeros(0x1_0004 + STUN_HEADER);
      SameHeader(b, t);
      assert FrameSize(b + t).Complete?;
    }
  }

  lemma ChannelFrameIsFrame(channel: nat, data: seq<Byte>)
    requires ChannelData.ChannelValid(channel) && |data| <= ChannelData.MAX_DATA
    ensures IsFrame(ChannelData.Frame(channel, data))
  {
    var f := ChannelData.Frame(channel, data);
    ChannelData.FrameFields(channel, data, []);
    assert f + [] == f;
  }

  // ---- The parser ----------------------------------------------------------------------

  datatype Read = Nothing | Garbage | Got(frame: seq<Byte>)

  /** What `readFrame` returns for unread bytes, and what it leaves. */
  function ReadOf(pending: seq<Byte>): Read
  {
    match FrameSize(pending)
    case Incomplete => Nothing
    case Invalid => Garbage
    case Complete(n) => Got(pending[..n])
  }

  function LeftBy(pending: seq<Byte>): seq<Byte>
  {
    match FrameSize(pending)
    case Incomplete => pending
    case Invalid => pending[1..]
    case Complete(n) => pending[n..]
  }

  class StunConn {
    var buf: seq<Byte>
    var consumed: nat

    ghost predicate Valid()
      reads this
    {
      consumed <= |buf|
    }

    ghost function Pending(): seq<Byte>
      reads this
      requires Valid()
    {
      buf[consumed..]
    }

    constructor ()
      ensures Valid() && Pending() == []
    {
      buf, consumed := [], 0;
    }

    /** Append received bytes; the consumed prefix goes once it is at least half of the buffer. */
    method Feed(data: seq<Byte>)
      requires Valid()
      modifies this
      ensures Valid() && Pending() == old(Pending()) + data
    {
      if data == [] { return; }
      if consumed > 0 && consumed >= |buf| / 2 {
        buf := buf[consumed..];
        consumed := 0;
      }
      buf := buf + data;
    }

    method ReadFrame() returns (r: Read)
      requires Valid()
      modifies this`consumed
      ensures Valid() && r == ReadOf(old(Pending())) && Pending() == LeftBy(old(Pending()))
    {
      if consumed >= |buf| { return Nothing; }
      var size := FrameSize(buf[consumed..]);
      match size
      case Incomplete => r := Nothing;
      case Invalid =>
        consumed := consumed + 1;
        r := Garbage;
      case Complete(n) =>
        r := Got(buf[consumed..consumed + n]);
        consumed := consumed + n;
    }

    method TakeBuffered() returns (out: seq<Byte>)
      requires Valid()
      modifies this
      ensures Valid() && out == old(Pending()) && Pending() == []
    {
      out := [];
      if consumed < |buf| { out := buf[consumed..]; }
      buf, consumed := [], 0;
    }
  }

  // ---- Any chunking of a well-formed stream --------------------------------------------

  datatype Op = FeedOp(chunk: seq<Byte>) | ReadOp

  function Concat(fs: seq<seq<Byte>>): seq<Byte>
  {
    if fs == [] then [] else Concat(fs[..|fs| - 1]) + fs[|fs| - 1]
  }

  /** All bytes fed by a run of operations. */
  function Fed(ops: seq<Op>): seq<Byte>
  {
    if ops == [] then []
    else Fed(ops[..|ops| - 1]) + Chunk(ops[|ops| - 1])
  }

  predicate AllFrames(fs: seq<seq<Byte>>) { forall i :: 0 <= i < |fs| ==> IsFrame(fs[i]) }

  lemma {:induction false} ConcatSplit(fs: seq<seq<Byte>>, k: nat)
    requires k < |fs|
    ensures Concat(fs) == Concat(fs[..k]) + fs[k] + Concat(fs[k + 1..])
    decreases |fs|
  {
    var last := |fs| - 1;
    if k == last {
      assert fs[..k] == fs[..last] && fs[k + 1..] == [];
    } else {
      ConcatSplit(fs[..last], k);
      assert fs[..last][..k] == fs[..k];
      assert fs[..last][k + 1..] == fs[k + 1..][..last - k - 1];
      var a, b, c, d := Concat(fs[..k]), fs[k], Concat(fs[k + 1..last]), fs[last];
      assert fs[..last][k + 1..] == fs[k + 1..last];
      assert a + b + c + d == a + b + (c + d);
    }
  }

  /** One read of unread bytes that begin a stream whose first frame is `f`. */
  lemma ReadHead(f: seq<Byte>, rest: seq<Byte>, pending: seq<Byte>)
    requires IsFrame(f) && pending <= f + rest
    ensures |f| <= |pending| ==> ReadOf(pending) == Got(f) && pending == f + LeftBy(pending)
    ensures |f| > |pending| ==> ReadOf(pending) == Nothing && LeftBy(pending) == pending
  {
    if |f| <= |pending| {
      var t := pending[|f|..];
      assert pending == f + t;
      VerdictStable(f, t);
    } else {
      var t := f[|pending|..];
      assert f == pending + t;
      PartIncomplete(pending, t);
    }
  }

  lemma PrefixOfTail(a: seq<Byte>, b: seq<Byte>, rest: seq<Byte>)
    requires a + b <= a + rest
    ensures b <= rest
  {
    assert b == (a + b)[|a|..] && rest == (a + rest)[|a|..];
    assert a + b == (a + rest)[..|a| + |b|];
    assert b == rest[..|b|];
  }

  /** `k` frames of the stream were read, and of the bytes fed so far `pending` is unread. */
  predicate Reading(fs: seq<seq<Byte>>, k: nat, pending: seq<Byte>, fed: seq<Byte>)
  {
    k <= |fs| && Concat(fs[..k]) + pending == fed
  }

  lemma FeedStep(fs: seq<seq<Byte>>, k: nat, pending: seq<Byte>, fed: seq<Byte>, chunk: seq<Byte>)
    requires Reading(fs, k, pending, fed)
    ensures Reading(fs, k, pending + chunk, fed + chunk)
  {
    assert Concat(fs[..k]) + (pending + chunk) == Concat(fs[..k]) + pending + chunk;
  }

  /** The unread bytes begin with the next frame, or with as much of it as has arrived. */
  lemma PendingBegins(fs: seq<seq<Byte>>, k: nat, pending: seq<Byte>, fed: seq<Byte>) returns (rest: seq<Byte>)
    requires Reading(fs, k, pending, fed) && fed <= Concat(fs)
    ensures if k < |fs| then pending <= fs[k] + rest else pending == []
  {
    if k == |fs| {
      assert fs[..k] == fs;
      rest := [];
    } else {
      ConcatSplit(fs, k);
      rest := Concat(fs[k + 1..]);
      assert Concat(fs) == Concat(fs[..k]) + (fs[k] + rest);
      PrefixOfTail(Concat(fs[..k]), pending, fs[k] + rest);
    }
  }

  lemma FrameRead(fs: seq<seq<Byte>>, k: nat, left: seq<Byte>, fed: seq<Byte>)
    requires k < |fs| && Reading(fs, k, fs[k] + left, fed)
    ensures Reading(fs, k + 1, left, fed)
  {
    assert fs[..k + 1][..k] == fs[..k];
    assert Concat(fs[..k]) + (fs[k] + left) == Concat(fs[..k]) + fs[k] + left;
  }

  lemma ReadStep(fs: seq<seq<Byte>>, k: nat, pending: seq<Byte>, fed: seq<Byte>)
    requires AllFrames(fs) && Reading(fs, k, pending, fed) && fed <= Concat(fs)
    ensures ReadOf(pending) == if k < |fs| && |fs[k]| <= |pending| then Got(fs[k]) else Nothing
    ensures Reading(fs, if ReadOf(pending).Got? then k + 1 else k, LeftBy(pending), fed)
  {
    var rest := PendingBegins(fs, k, pending, fed);
    if k < |fs| {
      ReadHead(fs[k], rest, pending);
      if |fs[k]| <= |pending| { FrameRead(fs, k, LeftBy(pending), fed); }
    }
  }

  lemma {:induction false} FedPrefix(ops: seq<Op>, n: nat)
    requires n <= |ops|
    ensures Fed(ops[..n]) <= Fed(ops)
    decreases |ops|
  {
    if n == |ops| {
      assert ops[..n] == ops;
    } else {
      FedPrefix(ops[..|ops| - 1], n);
      assert ops[..|ops| - 1][..n] == ops[..n];
    }
  }

  /** The frames read so far are the first ones sent, and `pending` is the unread rest. */
  predicate Tracks(fs: seq<seq<Byte>>, out: seq<seq<Byte>>, pending: seq<Byte>, fed: seq<Byte>)
  {
    out <= fs && Reading(fs, |out|, pending, fed)
  }

  /** The next frame of the stream has not fully arrived. */
  predicate Starved(fs: seq<seq<Byte>>, k: nat, pending: seq<Byte>)
  {
    k < |fs| ==> |pending| < |fs[k]|
  }

  function Chunk(op: Op): seq<Byte> { if op.FeedOp? then op.chunk else [] }

  /** One operation on a well-formed stream. */
  method Step(conn: StunConn, ghost fs: seq<seq<Byte>>, out: seq<seq<Byte>>, op: Op, ghost fed: seq<Byte>)
    returns (out': seq<seq<Byte>>, quiet: bool)
    requires conn.Valid() && AllFrames(fs) && Tracks(fs, out, conn.Pending(), fed) && fed + Chunk(op) <= Concat(fs)
    modifies conn
    ensures conn.Valid() && Tracks(fs, out', conn.Pending(), fed + Chunk(op))
    ensures quiet ==> Starved(fs, |out'|, conn.Pending())
  {
    out', quiet := out, false;
    match op
    case FeedOp(chunk) =>
      FeedStep(fs, |out|, conn.Pending(), fed, chunk);
      conn.Feed(chunk);
    case ReadOp =>
      assert fed + [] == fed;
      ReadStep(fs, |out|, conn.Pending(), fed);
      var r := conn.ReadFrame();
      quiet := r.Nothing?;
      if r.Got? { out' := out + [r.frame]; }
  }

  lemma FedStep(ops: seq<Op>, i: nat)
    requires i < |ops|
    ensures Fed(ops[..i + 1]) == Fed(ops[..i]) + Chunk(ops[i]) && Fed(ops[..i + 1]) <= Fed(ops)
  {
    assert ops[..i + 1][..i] == ops[..i];
    FedPrefix(ops, i + 1);
  }

  lemma NotArrived(fs: seq<seq<Byte>>, out: seq<seq<Byte>>, pending: seq<Byte>, fed: seq<Byte>)
    requires Tracks(fs, out, pending, fed)
    ensures Concat(out) <= fed
    ensures Starved(fs, |out|, pending) && |out| < |fs| ==> |fed| < |Concat(fs[..|out| + 1])|
  {
    assert fs[..|out|] == out;
    if |out| < |fs| { assert fs[..|out| + 1][..|out|] == out; }
  }

  /**
   The frames read are a prefix of the frames sent, for every well-formed stream, every split of
   it into chunks and every interleaving of `feed` and `readFrame`; nothing is misread, dropped or
   invented, and a last read that returned nothing means the next frame has not fully arrived.
   */
  method Drive(ghost fs: seq<seq<Byte>>, ops: seq<Op>) returns (out: seq<seq<Byte>>, quiet: bool)
    requires AllFrames(fs) && Fed(ops) <= Concat(fs)
    ensures out <= fs && Concat(out) <= Fed(ops)
    ensures quiet && |out| < |fs| ==> |Fed(ops)| < |Concat(fs[..|out| + 1])|
  {
    var conn := new StunConn();
    out, quiet := [], false;
    for i := 0 to |ops|
      invariant conn.Valid() && fresh(conn)
      invariant Tracks(fs, out, conn.Pending(), Fed(ops[..i]))
      invariant quiet ==> Starved(fs, |out|, conn.Pending())
    {
      FedStep(ops, i);
      out, quiet := Step(conn, fs, out, ops[i], Fed(ops[..i]));
    }
    assert ops[..|ops|] == ops;
    NotArrived(fs, out, conn.Pending(), Fed(ops));
  }
}
