/**
 The client's TCP transport: a control queue that is always written before the data queue, RFC
 4571 framing, partial writes with lazy compaction, and the read side.

 `wire`, `ctrlSent` and `dataSent` are histories: what the kernel took and from which queue, and the
 messages accepted for each.
 */
module TcpTransport {
  import opened Bytes
  import opened Rfc4571
  import opened WriteBuffer

  const HIGH_WATER := 16 * 1024 * 1024
  const COMPACT_AT := 1_048_576
  const CHUNK := 65_536

  datatype Mode = RawBytes | LengthPrefixed

  datatype State = Connecting | Connected | Failed | Disconnected

  datatype Flushed = Drained | Blocked | Broken

  /** Octets written in one go, and how many control octets were waiting behind them. */
  datatype Segment = Segment(control: bool, bytes: seq<Byte>, waiting: nat)

  /** The octets on the wire that came from one queue. */
  function From(wire: seq<Segment>, control: bool): seq<Byte>
  {
    if wire == [] then []
    else
      var last := wire[|wire| - 1];
      From(wire[..|wire| - 1], control) + if last.control == control then last.bytes else []
  }

  /** Everything on the wire, in order. */
  function Whole(wire: seq<Segment>): seq<Byte>
  {
    if wire == [] then [] else Whole(wire[..|wire| - 1]) + wire[|wire| - 1].bytes
  }

  /** No data octet was written while a control octet waited. */
  predicate ControlFirst(wire: seq<Segment>)
  {
    forall i :: 0 <= i < |wire| && !wire[i].control ==> wire[i].waiting == 0
  }

  lemma WriteSegment(wire: seq<Segment>, s: Segment, control: bool)
    ensures From(wire + [s], control) == From(wire, control) + if s.control == control then s.bytes else []
  {
    assert (wire + [s])[..|wire|] == wire;
  }

  /** The results of `send` when no call offers more than one chunk. */
  function Clipped(kernel: seq<int>): seq<int>
  {
    seq(|kernel|, i requires 0 <= i < |kernel| => if kernel[i] > CHUNK then CHUNK else kernel[i])
  }

  /** A kernel that takes no more than it is offered is not affected. */
  lemma ClippedSame(kernel: seq<int>)
    requires forall i :: 0 <= i < |kernel| ==> kernel[i] <= CHUNK
    ensures Clipped(kernel) == kernel
  {
  }

  /** The octets taken from the front of a queue. */
  function Drain(len: nat, kernel: seq<int>): (t: Took)
    ensures t.n <= len
  {
    Flush(len, Clipped(kernel), 0)
  }

  /** What is left of a queue after a flush. */
  function Rest(pending: seq<Byte>, kernel: seq<int>): seq<Byte> { pending[Drain(|pending|, kernel).n..] }

  function Outcome(pending: seq<Byte>, kernel: seq<int>): Flushed
  {
    if !Drain(|pending|, kernel).ok then Broken else if Rest(pending, kernel) == [] then Drained else Blocked
  }

  class Queue {
    var bytes: seq<Byte>
    var off: nat

    ghost predicate Valid()
      reads this
    {
      off <= |bytes|
    }

    ghost function Pending(): seq<Byte>
      reads this
      requires Valid()
    {
      bytes[off..]
    }

    constructor ()
      ensures Valid() && Pending() == []
    {
      bytes, off := [], 0;
    }

    method Push(data: seq<Byte>)
      requires Valid()
      modifies this
      ensures Valid() && Pending() == old(Pending()) + data
    {
      bytes := bytes + data;
    }

    /** Write chunk by chunk until the queue is empty, the kernel takes no more, or the socket fails. */
    method Write(kernel: seq<int>) returns (t: Took, out: seq<Byte>)
      requires Valid()
      modifies this
      ensures Valid() && t == Drain(|old(Pending())|, kernel)
      ensures out == old(Pending())[..t.n] && Pending() == old(Pending())[t.n..]
    {
      t := SendLoop(|bytes| - off, Clipped(kernel));
      out := bytes[off..off + t.n];
      off := off + t.n;
      Compact();
    }

    /** Drop the written prefix when nothing is left or the prefix is large. */
    method Compact()
      requires Valid()
      modifies this
      ensures Valid() && Pending() == old(Pending())
    {
      if off >= |bytes| {
        bytes, off := [], 0;
      } else if off >= COMPACT_AT {
        bytes, off := bytes[off..], 0;
      }
    }
  }

  /** What a queue gets for one message. */
  function Queued(mode: Mode, d: seq<Byte>): seq<Byte> { if mode.LengthPrefixed? then Framed(d) else d }

  function AllQueued(mode: Mode, ds: seq<seq<Byte>>): seq<Byte>
  {
    if ds == [] then [] else AllQueued(mode, ds[..|ds| - 1]) + Queued(mode, ds[|ds| - 1])
  }

  /** Two streams, each in order and complete up to what is still queued, with control octets first. */
  predicate Conserved(wire: seq<Segment>, ctrlAll: seq<Byte>, dataAll: seq<Byte>, ctrl: seq<Byte>, data: seq<Byte>)
  {
    && From(wire, true) + ctrl == ctrlAll
    && From(wire, false) + data == dataAll
    && ControlFirst(wire)
  }

  /** Writing a prefix of the control queue. */
  lemma ControlWritten(wire: seq<Segment>, ctrlAll: seq<Byte>, dataAll: seq<Byte>, ctrl: seq<Byte>, data: seq<Byte>, n: nat)
    requires Conserved(wire, ctrlAll, dataAll, ctrl, data) && n <= |ctrl|
    ensures Conserved(wire + [Segment(true, ctrl[..n], |ctrl| - n)], ctrlAll, dataAll, ctrl[n..], data)
  {
    var s := Segment(true, ctrl[..n], |ctrl| - n);
    WriteSegment(wire, s, true);
    WriteSegment(wire, s, false);
    assert ctrl == ctrl[..n] + ctrl[n..];
    Assoc(From(wire, true), ctrl[..n], ctrl[n..]);
    assert From(wire, false) + [] == From(wire, false);
  }

  /** Writing a prefix of the data queue, which happens only when no control octet is left. */
  lemma DataWritten(wire: seq<Segment>, ctrlAll: seq<Byte>, dataAll: seq<Byte>, ctrl: seq<Byte>, data: seq<Byte>, n: nat)
    requires Conserved(wire, ctrlAll, dataAll, ctrl, data) && ctrl == [] && n <= |data|
    ensures Conserved(wire + [Segment(false, data[..n], |ctrl|)], ctrlAll, dataAll, ctrl, data[n..])
  {
    var s := Segment(false, data[..n], |ctrl|);
    WriteSegment(wire, s, true);
    WriteSegment(wire, s, false);
    assert data == data[..n] + data[n..];
    Assoc(From(wire, false), data[..n], data[n..]);
    assert From(wire, true) + [] == From(wire, true);
  }

  class Transport {
    const mode: Mode
    const ctrl: Queue
    const data: Queue
    var state: State
    ghost var wire: seq<Segment>
    ghost var ctrlSent: seq<seq<Byte>>
    ghost var dataSent: seq<seq<Byte>>

    ghost predicate Valid()
      reads this, ctrl, data
    {
      && ctrl != data && ctrl.Valid() && data.Valid()
      && Conserved(wire, AllQueued(mode, ctrlSent), AllQueued(mode, dataSent), ctrl.Pending(), data.Pending())
    }

    constructor (mode: Mode)
      ensures Valid() && fresh(ctrl) && fresh(data) && this.mode == mode
      ensures wire == [] && ctrlSent == [] && dataSent == [] && state.Connecting?
    {
      this.mode := mode;
      ctrl := new Queue();
      data := new Queue();
      state, wire, ctrlSent, dataSent := Connecting, [], [], [];
    }

    /** Note `n` octets of the control queue as written. */
    ghost method NoteCtrl(pending: seq<Byte>, rest: seq<Byte>, n: nat)
      requires n <= |pending| && Conserved(wire, AllQueued(mode, ctrlSent), AllQueued(mode, dataSent), pending, rest)
      modifies this`wire
      ensures old(wire) <= wire && Conserved(wire, AllQueued(mode, ctrlSent), AllQueued(mode, dataSent), pending[n..], rest)
    {
      ControlWritten(wire, AllQueued(mode, ctrlSent), AllQueued(mode, dataSent), pending, rest, n);
      wire := wire + [Segment(true, pending[..n], |pending| - n)];
    }

    /** Note `n` octets of the data queue as written; the control queue is empty. */
    ghost method NoteData(waiting: seq<Byte>, pending: seq<Byte>, n: nat)
      requires n <= |pending| && waiting == []
      requires Conserved(wire, AllQueued(mode, ctrlSent), AllQueued(mode, dataSent), waiting, pending)
      modifies this`wire
      ensures old(wire) <= wire && Conserved(wire, AllQueued(mode, ctrlSent), AllQueued(mode, dataSent), waiting, pending[n..])
    {
      DataWritten(wire, AllQueued(mode, ctrlSent), AllQueued(mode, dataSent), waiting, pending, n);
      wire := wire + [Segment(false, pending[..n], |waiting|)];
    }

    method FlushCtrl(kernel: seq<int>) returns (r: Flushed)
      requires Valid()
      modifies this`state, this`wire, ctrl
      ensures Valid() && old(wire) <= wire
      ensures ctrl.Pending() == Rest(old(ctrl.Pending()), kernel) && r == Outcome(old(ctrl.Pending()), kernel)
      ensures state == if r.Broken? then Failed else old(state)
    {
      ghost var pending, rest := ctrl.Pending(), data.Pending();
      var t, out := ctrl.Write(kernel);
      NoteCtrl(pending, rest, t.n);
      r := if !t.ok then Broken else if ctrl.off >= |ctrl.bytes| then Drained else Blocked;
      if r.Broken? { state := Failed; }
    }

    method FlushData(kernel: seq<int>) returns (r: Flushed)
      requires Valid() && ctrl.Pending() == []
      modifies this`state, this`wire, data
      ensures Valid() && old(wire) <= wire
      ensures data.Pending() == Rest(old(data.Pending()), kernel) && r == Outcome(old(data.Pending()), kernel)
      ensures state == if r.Broken? then Failed else old(state)
    {
      ghost var pending := data.Pending();
      var t, out := data.Write(kernel);
      NoteData(ctrl.Pending(), pending, t.n);
      r := if !t.ok then Broken else if data.off >= |data.bytes| then Drained else Blocked;
      if r.Broken? { state := Failed; }
    }

    /** `flushSends`: control first; data only once the control queue is empty. */
    method FlushSends(kernelCtrl: seq<int>, kernelData: seq<int>) returns (r: Flushed)
      requires Valid()
      modifies this`state, this`wire, ctrl, data
      ensures Valid() && old(wire) <= wire
      ensures ctrl.Pending() == Rest(old(ctrl.Pending()), kernelCtrl)
      ensures if Outcome(old(ctrl.Pending()), kernelCtrl).Drained?
              then r == Outcome(old(data.Pending()), kernelData) && data.Pending() == Rest(old(data.Pending()), kernelData)
              else r == Outcome(old(ctrl.Pending()), kernelCtrl) && data.Pending() == old(data.Pending())
      ensures state == if r.Broken? then Failed else old(state)
    {
      r := FlushCtrl(kernelCtrl);
      if r.Drained? { r := FlushData(kernelData); }
    }

    /** Queue a message as data, unless the queue is above its high watermark. */
    method Send(d: seq<Byte>, kernelCtrl: seq<int>, kernelData: seq<int>) returns (ok: bool)
      requires Valid()
      modifies this`state, this`wire, this`dataSent, ctrl, data
      ensures Valid() && old(wire) <= wire
      ensures ok <==> !old(state).Failed? && !old(state).Disconnected? && |old(data.bytes)| <= HIGH_WATER
      ensures dataSent == if ok then old(dataSent) + [d] else old(dataSent)
    {
      if state.Failed? || state.Disconnected? || |data.bytes| > HIGH_WATER { return false; }
      PushKeeps(mode, dataSent, d, From(wire, false), data.Pending());
      data.Push(Queued(mode, d));
      dataSent := dataSent + [d];
      if state.Connected? { var r := FlushSends(kernelCtrl, kernelData); }
      ok := true;
    }

    /** Queue a message as control; no watermark applies. */
    method SendControl(d: seq<Byte>, kernelCtrl: seq<int>, kernelData: seq<int>) returns (ok: bool)
      requires Valid()
      modifies this`state, this`wire, this`ctrlSent, ctrl, data
      ensures Valid() && old(wire) <= wire
      ensures ok <==> !old(state).Failed? && !old(state).Disconnected?
      ensures ctrlSent == if ok then old(ctrlSent) + [d] else old(ctrlSent)
    {
      if state.Failed? || state.Disconnected? { return false; }
      PushKeeps(mode, ctrlSent, d, From(wire, true), ctrl.Pending());
      ctrl.Push(Queued(mode, d));
      ctrlSent := ctrlSent + [d];
      if state.Connected? { var r := FlushSends(kernelCtrl, kernelData); }
      ok := true;
    }
  }

  lemma PushKeeps(mode: Mode, ds: seq<seq<Byte>>, d: seq<Byte>, written: seq<Byte>, pending: seq<Byte>)
    requires written + pending == AllQueued(mode, ds)
    ensures written + (pending + Queued(mode, d)) == AllQueued(mode, ds + [d])
  {
    assert (ds + [d])[..|ds|] == ds;
    Assoc(written, pending, Queued(mode, d));
  }

  // ---- One queue, length-prefixed ------------------------------------------------------

  lemma {:induction false} FramingAppend(ds: seq<seq<Byte>>, d: seq<Byte>)
    ensures Framing(ds + [d]) == Framing(ds) + Framed(d)
  {
    if ds == [] {
      assert ds + [d] == [d];
      assert Framing([d]) == Framed(d) + Framing([]);
    } else {
      FramingAppend(ds[1..], d);
      assert (ds + [d])[1..] == ds[1..] + [d];
      Assoc(Framed(ds[0]), Framing(ds[1..]), Framed(d));
    }
  }

  lemma {:induction false} AllQueuedIsFraming(ds: seq<seq<Byte>>)
    ensures AllQueued(LengthPrefixed, ds) == Framing(ds)
  {
    if ds != [] {
      var last := |ds| - 1;
      AllQueuedIsFraming(ds[..last]);
      FramingAppend(ds[..last], ds[last]);
      assert ds == ds[..last] + [ds[last]];
    }
  }

  lemma {:induction false} OneQueueIsWhole(wire: seq<Segment>, control: bool)
    requires From(wire, !control) == []
    ensures Whole(wire) == From(wire, control)
  {
    if wire != [] {
      var front, last := wire[..|wire| - 1], wire[|wire| - 1];
      assert From(front, !control) == [];
      OneQueueIsWhole(front, control);
      if last.control != control { assert last.bytes == []; }
    }
  }

  /** If only one queue was ever used, the wire is the framed messages, up to what is still queued. */
  lemma WireIsFramed(t: Transport, control: bool)
    requires t.Valid() && t.mode.LengthPrefixed?
    requires (if control then t.dataSent else t.ctrlSent) == []
    ensures Whole(t.wire) + (if control then t.ctrl.Pending() else t.data.Pending())
            == Framing(if control then t.ctrlSent else t.dataSent)
  {
    AllQueuedIsFraming(t.ctrlSent);
    AllQueuedIsFraming(t.dataSent);
    OneQueueIsWhole(t.wire, control);
  }

  // ---- The read side -------------------------------------------------------------------

  datatype Got = Got(out: seq<Byte>, left: seq<Byte>)

  /** `recv`: what is there in raw mode; else one message, or nothing, and an empty message is skipped. */
  function RecvOf(mode: Mode, pending: seq<Byte>, outSize: nat): Got
  {
    if mode.RawBytes? then Got(pending[..Min(|pending|, outSize)], pending[Min(|pending|, outSize)..])
    else if |pending| < 2 then Got([], pending)
    else
      var len := ReadU16(pending);
      if len == 0 then Got([], pending[2..])
      else if |pending| < 2 + len then Got([], pending)
      else Got(pending[2..2 + Min(len, outSize)], pending[2 + len..])
  }

  class Receiver {
    const mode: Mode
    var buf: seq<Byte>
    var off: nat

    ghost predicate Valid()
      reads this
    {
      off <= |buf|
    }

    ghost function Pending(): seq<Byte>
      reads this
      requires Valid()
    {
      buf[off..]
    }

    constructor (mode: Mode)
      ensures Valid() && Pending() == [] && this.mode == mode
    {
      this.mode := mode;
      buf, off := [], 0;
    }

    method OnReadable(bytes: seq<Byte>)
      requires Valid()
      modifies this
      ensures Valid() && Pending() == old(Pending()) + bytes
    {
      buf := buf + bytes;
    }

    method Consume(n: nat)
      requires Valid() && n <= |Pending()|
      modifies this
      ensures Valid() && Pending() == old(Pending())[n..]
    {
      off := off + n;
      if off >= |buf| {
        buf, off := [], 0;
      } else if off >= COMPACT_AT {
        buf, off := buf[off..], 0;
      }
    }

    method Recv(outSize: nat) returns (out: seq<Byte>)
      requires Valid()
      modifies this
      ensures Valid() && Got(out, Pending()) == RecvOf(mode, old(Pending()), outSize)
    {
      var avail := |buf| - off;
      if mode.RawBytes? {
        if avail == 0 { return []; }
        out := buf[off..][..Min(avail, outSize)];
        Consume(Min(avail, outSize));
        return;
      }
      if avail < 2 { return []; }
      var len := ReadU16(buf[off..]);
      if len == 0 {
        Consume(2);
        return [];
      }
      if avail < 2 + len { return []; }
      out := buf[off..][2..2 + Min(len, outSize)];
      Consume(2 + len);
    }
  }

  /** Messages the framing can carry. */
  predicate Sendable(ds: seq<seq<Byte>>) { forall i :: 0 <= i < |ds| ==> 1 <= |ds[i]| <= 65535 }

  /** One `recv` on the front of a framed stream. */
  lemma RecvNext(ds: seq<seq<Byte>>, pending: seq<Byte>, future: seq<Byte>, outSize: nat)
    requires Sendable(ds) && pending + future == Framing(ds) && outSize >= 65535
    ensures var g := RecvOf(LengthPrefixed, pending, outSize);
            if ds != [] && |pending| >= 2 + |ds[0]| then g.out == ds[0] && g.left + future == Framing(ds[1..])
            else g == Got([], pending)
  {
    if ds == [] {
      assert pending == [];
    } else {
      var d, tail := ds[0], Framing(ds[1..]);
      if |pending| >= 2 + |d| {
        CutFront(Framed(d), tail, pending, future);
        FramedFields(d, pending[2 + |d|..]);
      } else if |pending| >= 2 {
        FramedFields(d, tail);
        assert pending[0] == (pending + future)[0] && pending[1] == (pending + future)[1];
      }
    }
  }

  datatype Op = Arrive(chunk: seq<Byte>) | RecvOp(outSize: nat)

  function Arrived(ops: seq<Op>): seq<Byte>
  {
    if ops == [] then [] else (if ops[0].Arrive? then ops[0].chunk else []) + Arrived(ops[1..])
  }

  /** The first `k` messages were returned, the rest of the stream is unread or still to come. */
  predicate Reading(ds: seq<seq<Byte>>, out: seq<seq<Byte>>, pending: seq<Byte>, future: seq<Byte>)
  {
    out <= ds && pending + future == Framing(ds[|out|..])
  }

  method Step(r: Receiver, op: Op, ghost ds: seq<seq<Byte>>, out: seq<seq<Byte>>, ghost future: seq<Byte>)
    returns (out': seq<seq<Byte>>, quiet: bool)
    requires r.Valid() && r.mode.LengthPrefixed? && Sendable(ds) && (op.RecvOp? ==> op.outSize >= 65535)
    requires Reading(ds, out, r.Pending(), (if op.Arrive? then op.chunk else []) + future)
    modifies r
    ensures r.Valid() && Reading(ds, out', r.Pending(), future)
    ensures quiet && |out'| < |ds| ==> |r.Pending()| < 2 + |ds[|out'|]|
    ensures quiet <==> op.RecvOp? && out' == out
  {
    out', quiet := out, false;
    match op
    case Arrive(chunk) =>
      Assoc(r.Pending(), chunk, future);
      r.OnReadable(chunk);
    case RecvOp(outSize) =>
      assert [] + future == future;
      ghost var rest := ds[|out|..];
      RecvNext(rest, r.Pending(), future, outSize);
      var m := r.Recv(outSize);
      quiet := m == [];
      if !quiet {
        out' := out + [m];
        assert rest[1..] == ds[|out'|..];
      }
  }

  lemma NotArrived(ds: seq<seq<Byte>>, out: seq<seq<Byte>>, pending: seq<Byte>, future: seq<Byte>, arrived: nat)
    requires Reading(ds, out, pending, future) && arrived + |future| == |Framing(ds)|
    requires |out| < |ds| && |pending| < 2 + |ds[|out|]|
    ensures arrived < |Framing(ds[..|out| + 1])|
  {
    var k := |out|;
    FramingSplit(ds, k);
    FramingSplit(ds[..k + 1], k);
    assert ds[..k + 1][..k] == ds[..k] && ds[..k + 1][k..] == [ds[k]];
    assert |Framing([ds[k]])| == 2 + |ds[k]|;
    assert |pending| + |future| == |Framing(ds[k..])|;
  }

  /**
   For every sequence of messages of 1 to 65535 octets, every split of their framing into reads
   and every interleaving with `recv` into a large enough buffer, `recv` returns exactly the sent
   messages, in order; when it returns nothing, the next one has not fully arrived.
   */
  method Receive(ghost ds: seq<seq<Byte>>, ops: seq<Op>, ghost future: seq<Byte>) returns (out: seq<seq<Byte>>, quiet: bool)
    requires Sendable(ds) && Arrived(ops) + future == Framing(ds)
    requires forall i :: 0 <= i < |ops| && ops[i].RecvOp? ==> ops[i].outSize >= 65535
    ensures out <= ds
    ensures quiet && |out| < |ds| ==> |Arrived(ops)| < |Framing(ds[..|out| + 1])|
  {
    var r := new Receiver(LengthPrefixed);
    out, quiet := [], false;
    var todo := ops;
    assert [] + (Arrived(ops) + future) == Arrived(ops) + future;
    while todo != []
      invariant r.Valid() && r.mode.LengthPrefixed? && fresh(r)
      invariant Reading(ds, out, r.Pending(), Arrived(todo) + future)
      invariant forall i :: 0 <= i < |todo| && todo[i].RecvOp? ==> todo[i].outSize >= 65535
      invariant quiet && |out| < |ds| ==> |r.Pending()| < 2 + |ds[|out|]|
      decreases |todo|
    {
      Assoc(if todo[0].Arrive? then todo[0].chunk else [], Arrived(todo[1..]), future);
      out, quiet := Step(r, todo[0], ds, out, Arrived(todo[1..]) + future);
      todo := todo[1..];
    }
    assert [] + future == future;
    if quiet && |out| < |ds| { NotArrived(ds, out, r.Pending(), future, |Arrived(ops)|); }
  }

  /** Regrouping around an arriving chunk, and around octets handed out. */
  lemma Regroup(a: seq<Byte>, b: seq<Byte>, c: seq<Byte>, d: seq<Byte>)
    ensures a + (b + c) + d == a + b + (c + d) && a + b + c + d == a + (b + c) + d
  {
  }

  /** In raw mode the octets returned are those that arrived, in order, up to what is still buffered. */
  method ReceiveRaw(ops: seq<Op>) returns (out: seq<Byte>, quiet: bool)
    ensures out <= Arrived(ops)
    ensures quiet ==> out == Arrived(ops)
  {
    var r := new Receiver(RawBytes);
    out, quiet := [], false;
    var todo := ops;
    assert [] + [] + Arrived(ops) == Arrived(ops);
    while todo != []
      invariant r.Valid() && r.mode.RawBytes? && fresh(r)
      invariant out + r.Pending() + Arrived(todo) == Arrived(ops)
      invariant quiet ==> r.Pending() == []
      decreases |todo|
    {
      out, quiet := RawStep(r, todo[0], out, Arrived(todo[1..]));
      todo := todo[1..];
    }
  }

  method RawStep(r: Receiver, op: Op, out: seq<Byte>, ghost rest: seq<Byte>) returns (out': seq<Byte>, quiet: bool)
    requires r.Valid() && r.mode.RawBytes?
    modifies r
    ensures r.Valid() && out' + r.Pending() + rest == out + old(r.Pending()) + ((if op.Arrive? then op.chunk else []) + rest)
    ensures quiet ==> r.Pending() == []
  {
    ghost var before := r.Pending();
    match op
    case Arrive(chunk) =>
      r.OnReadable(chunk);
      Regroup(out, before, chunk, rest);
      out', quiet := out, false;
    case RecvOp(outSize) =>
      var m := r.Recv(outSize);
      assert before == m + r.Pending() && [] + rest == rest;
      Regroup(out, m, r.Pending(), rest);
      out', quiet := out + m, outSize > 0 && m == [];
  }

  // ---- From one end to the other -------------------------------------------------------

  lemma FramingGrows(ds: seq<seq<Byte>>, k: nat)
    requires k <= |ds|
    ensures |Framing(ds[..k])| <= |Framing(ds)|
  {
    FramingSplit(ds, k);
  }

  lemma StreamSplit(wire: seq<Byte>, queued: seq<Byte>, arrived: seq<Byte>)
    requires arrived <= wire
    ensures arrived + (wire[|arrived|..] + queued) == wire + queued
  {
    assert arrived + wire[|arrived|..] == wire;
    Assoc(arrived, wire[|arrived|..], queued);
  }

  /** A receiver on what has arrived of a wire that, with what is still queued, is the framing of `ds`. */
  method ReadWire(ghost ds: seq<seq<Byte>>, ghost wire: seq<Byte>, ghost queued: seq<Byte>, ops: seq<Op>)
    returns (out: seq<seq<Byte>>, quiet: bool)
    requires Sendable(ds) && wire + queued == Framing(ds) && Arrived(ops) <= wire
    requires forall i :: 0 <= i < |ops| && ops[i].RecvOp? ==> ops[i].outSize >= 65535
    ensures out <= ds
    ensures quiet && Arrived(ops) == wire && queued == [] ==> out == ds
  {
    StreamSplit(wire, queued, Arrived(ops));
    out, quiet := Receive(ds, ops, wire[|Arrived(ops)|..] + queued);
    if |out| < |ds| { FramingGrows(ds, |out| + 1); }
  }

  /**
   Whatever a sending transport was asked to send on one queue, however its writes were split, and
   however the wire is cut into reads at the other end: the receiver gets a prefix of the messages
   sent, unchanged and in order; and all of them once the queue is drained, the wire has arrived
   and a `recv` finds nothing more.
   */
  method EndToEnd(t: Transport, control: bool, ops: seq<Op>) returns (out: seq<seq<Byte>>, quiet: bool)
    requires t.Valid() && t.mode.LengthPrefixed?
    requires (if control then t.dataSent else t.ctrlSent) == []
    requires Sendable(if control then t.ctrlSent else t.dataSent) && Arrived(ops) <= Whole(t.wire)
    requires forall i :: 0 <= i < |ops| && ops[i].RecvOp? ==> ops[i].outSize >= 65535
    ensures out <= if control then t.ctrlSent else t.dataSent
    ensures quiet && Arrived(ops) == Whole(t.wire) && (if control then t.ctrl.Pending() else t.data.Pending()) == [] ==>
              out == if control then t.ctrlSent else t.dataSent
  {
    WireIsFramed(t, control);
    out, quiet := ReadWire(if control then t.ctrlSent else t.dataSent, Whole(t.wire),
                           if control then t.ctrl.Pending() else t.data.Pending(), ops);
  }
}
