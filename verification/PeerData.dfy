/**
 Application data of the TURN client for one peer.  Data is buffered while the peer has no
 permission, flushed once it has one, as far as the transport takes it, and sent directly after
 that.

 A packet carries its number in order of acceptance.  `accepted`, `sent` and `lost` are histories:
 what `sendData` took from the application, what the transport took, and what was dropped.
 */
module PeerData {
  const MAX_PENDING := 512
  const MAX_CHANNEL_DATA := 0xFFFF
  const MAX_SEND_DATA := 0xFFFF - 40

  datatype Packet = Packet(serial: nat, size: nat)

  datatype Outcome = Rejected | Buffered | SentNow

  // ---- Order and conservation ----------------------------------------------------------

  /** In the order in which the application handed them over. */
  predicate Increasing(ps: seq<Packet>) { forall i, j :: 0 <= i < j < |ps| ==> ps[i].serial < ps[j].serial }

  predicate Numbered(accepted: seq<Packet>) { forall k :: 0 <= k < |accepted| ==> accepted[k].serial == k }

  predicate Below(ps: seq<Packet>, n: nat) { forall i :: 0 <= i < |ps| ==> ps[i].serial < n }

  /** Everything accepted was sent, waits or was dropped, once. */
  predicate Conserved(sent: seq<Packet>, pending: seq<Packet>, lost: seq<Packet>, accepted: seq<Packet>)
  {
    multiset(sent) + multiset(pending) + multiset(lost) == multiset(accepted)
  }

  predicate Sound(sent: seq<Packet>, pending: seq<Packet>, lost: seq<Packet>, accepted: seq<Packet>)
  {
    && Numbered(accepted) && Below(sent + pending, |accepted|) && Conserved(sent, pending, lost, accepted)
    && |pending| <= MAX_PENDING
  }

  /** Whether the transport can be offered the packet at all: a channel frame has a 16-bit length. */
  predicate Wrappable(ready: bool, p: Packet) { ready ==> p.size <= MAX_CHANNEL_DATA }

  /** Packets sent by one flush: up to the first that cannot be wrapped or is refused. */
  function Flushed(pending: seq<Packet>, ready: bool, takes: seq<bool>): (n: nat)
    ensures n <= |pending|
  {
    if pending == [] || takes == [] || !takes[0] || !Wrappable(ready, pending[0]) then 0
    else 1 + Flushed(pending[1..], ready, takes[1..])
  }

  /** The transport takes the packet at this place. */
  predicate Goes(pending: seq<Packet>, ready: bool, takes: seq<bool>, i: nat)
  {
    i < |pending| && i < |takes| && takes[i] && Wrappable(ready, pending[i])
  }

  /** The longest front of the queue that the transport takes. */
  lemma {:induction false} FlushedIsFront(pending: seq<Packet>, ready: bool, takes: seq<bool>)
    ensures var n := Flushed(pending, ready, takes);
            (forall i :: 0 <= i < n ==> Goes(pending, ready, takes, i)) && !Goes(pending, ready, takes, n)
    decreases |pending|
  {
    if Flushed(pending, ready, takes) > 0 {
      FlushedIsFront(pending[1..], ready, takes[1..]);
      var n := Flushed(pending, ready, takes);
      forall i | 1 <= i <= n ensures Goes(pending, ready, takes, i) == Goes(pending[1..], ready, takes[1..], i - 1) {
      }
    }
  }

  lemma MoveFront(sent: seq<Packet>, pending: seq<Packet>, n: nat)
    requires n <= |pending|
    ensures sent + pending[..n] + pending[n..] == sent + pending
    ensures multiset(sent + pending[..n]) + multiset(pending[n..]) == multiset(sent) + multiset(pending)
  {
    assert pending == pending[..n] + pending[n..];
  }

  /** A flush changes neither the order nor the stock. */
  lemma FlushKeeps(sent: seq<Packet>, pending: seq<Packet>, lost: seq<Packet>, accepted: seq<Packet>, n: nat)
    requires Sound(sent, pending, lost, accepted) && n <= |pending|
    ensures Sound(sent + pending[..n], pending[n..], lost, accepted)
    ensures Increasing(sent + pending[..n] + pending[n..]) == Increasing(sent + pending)
  {
    MoveFront(sent, pending, n);
  }

  /** Dropping the oldest packets that wait loses them and keeps the order of the rest. */
  lemma DropKeeps(sent: seq<Packet>, pending: seq<Packet>, lost: seq<Packet>, accepted: seq<Packet>, n: nat)
    requires Sound(sent, pending, lost, accepted) && n <= |pending|
    ensures Sound(sent, pending[n..], lost + pending[..n], accepted)
    ensures Increasing(sent + pending) ==> Increasing(sent + pending[n..])
  {
    assert pending == pending[..n] + pending[n..];
    var all, less := sent + pending, sent + pending[n..];
    forall i | 0 <= i < |less| ensures less[i] == all[if i < |sent| then i else i + n] {
    }
  }

  /** A packet put behind what waits. */
  lemma BufferKeeps(sent: seq<Packet>, pending: seq<Packet>, lost: seq<Packet>, accepted: seq<Packet>, size: nat)
    requires Sound(sent, pending, lost, accepted) && |pending| < MAX_PENDING
    ensures var p := Packet(|accepted|, size);
            && Sound(sent, pending + [p], lost, accepted + [p])
            && (Increasing(sent + pending) ==> Increasing(sent + (pending + [p])))
  {
    var p := Packet(|accepted|, size);
    assert sent + (pending + [p]) == sent + pending + [p];
  }

  /** A packet sent directly overtakes exactly if something waits. */
  lemma DirectKeepsIff(sent: seq<Packet>, pending: seq<Packet>, lost: seq<Packet>, accepted: seq<Packet>, size: nat)
    requires Sound(sent, pending, lost, accepted)
    ensures var p := Packet(|accepted|, size);
            && Sound(sent + [p], pending, lost, accepted + [p])
            && (Increasing(sent + pending) ==> (Increasing(sent + [p] + pending) <==> pending == []))
  {
    var p := Packet(|accepted|, size);
    if pending == [] {
      assert sent + [p] + pending == sent + pending + [p];
    } else {
      assert (sent + pending)[|sent|] == pending[0];
      assert (sent + [p] + pending)[|sent|] == p && (sent + [p] + pending)[|sent| + 1] == pending[0];
    }
    forall i | 0 <= i < |sent + [p] + pending| ensures (sent + [p] + pending)[i].serial < |accepted| + 1 {
      assert i < |sent| ==> (sent + [p] + pending)[i] == (sent + pending)[i];
      assert i > |sent| ==> (sent + [p] + pending)[i] == (sent + pending)[i - 1];
    }
  }

  // ---- The buffer ----------------------------------------------------------------------

  class PeerBuffer {
    var pending: seq<Packet>
    ghost var sent: seq<Packet>
    ghost var lost: seq<Packet>
    ghost var accepted: seq<Packet>
    var count: nat

    ghost predicate Valid()
      reads this
    {
      Sound(sent, pending, lost, accepted) && count == |accepted|
    }

    ghost predicate InOrder()
      reads this
    {
      Increasing(sent + pending)
    }

    constructor ()
      ensures Valid() && InOrder() && pending == [] && sent == [] && lost == [] && accepted == []
    {
      pending, sent, lost, accepted, count := [], [], [], [], 0;
    }

    /** Buffer a packet, dropping the oldest when the buffer is full. */
    method Buffer(size: nat)
      requires Valid()
      modifies this
      ensures Valid() && (old(InOrder()) ==> InOrder())
      ensures sent == old(sent) && accepted == old(accepted) + [Packet(|old(accepted)|, size)]
      ensures var n := if |old(pending)| >= MAX_PENDING then 1 else 0;
              && pending == old(pending)[n..] + [Packet(|old(accepted)|, size)]
              && lost == old(lost) + old(pending)[..n]
    {
      var n := if |pending| >= MAX_PENDING then 1 else 0;
      DropKeeps(sent, pending, lost, accepted, n);
      lost := lost + pending[..n];
      pending := pending[n..];
      BufferKeeps(sent, pending, lost, accepted, size);
      accepted := accepted + [Packet(count, size)];
      pending := pending + [Packet(count, size)];
      count := count + 1;
    }

    /** Offer a packet to the transport; what it refuses is not accepted. */
    method Direct(size: nat, takes: bool) returns (r: Outcome)
      requires Valid()
      modifies this`sent, this`accepted, this`count
      ensures Valid() && r == if takes then SentNow else Rejected
      ensures !takes ==> sent == old(sent) && accepted == old(accepted)
      ensures takes ==> var p := Packet(|old(accepted)|, size);
                        sent == old(sent) + [p] && accepted == old(accepted) + [p]
      ensures old(InOrder()) ==> (InOrder() <==> !takes || pending == [])
    {
      if !takes { return Rejected; }
      DirectKeepsIff(sent, pending, lost, accepted, size);
      sent, accepted, count := sent + [Packet(count, size)], accepted + [Packet(count, size)], count + 1;
      r := SentNow;
    }

    /** `sendData`; `permitted` is whether any binding of the peer's IP has a permission. */
    method SendData(size: nat, active: bool, permitted: bool, ready: bool, takes: bool) returns (r: Outcome)
      requires Valid()
      modifies this
      ensures Valid()
      ensures r.Buffered? <==> active && !permitted
      ensures r.SentNow? <==> active && permitted && size <= (if ready then MAX_CHANNEL_DATA else MAX_SEND_DATA) && takes
      ensures accepted == if r.Rejected? then old(accepted) else old(accepted) + [Packet(|old(accepted)|, size)]
      ensures r.Rejected? ==> pending == old(pending) && sent == old(sent) && lost == old(lost)
      ensures r.SentNow? ==> pending == old(pending) && lost == old(lost) && sent == old(sent) + [Packet(|old(accepted)|, size)]
      ensures r.Buffered? ==>
                var n := if |old(pending)| >= MAX_PENDING then 1 else 0;
                && pending == old(pending)[n..] + [Packet(|old(accepted)|, size)]
                && lost == old(lost) + old(pending)[..n] && sent == old(sent)
      ensures old(InOrder()) ==> (InOrder() <==> !(r.SentNow? && old(pending) != []))
    {
      if !active { return Rejected; }
      if !permitted {
        Buffer(size);
        return Buffered;
      }
      if size > (if ready then MAX_CHANNEL_DATA else MAX_SEND_DATA) { return Rejected; }
      r := Direct(size, takes);
    }

    /** `flushPendingData`: send from the front until one is refused, and keep the rest. */
    method Flush(ready: bool, takes: seq<bool>) returns (left: nat)
      requires Valid()
      modifies this`sent, this`pending
      ensures Valid() && InOrder() == old(InOrder()) && left == |pending|
      ensures var n := Flushed(old(pending), ready, takes);
              sent == old(sent) + old(pending)[..n] && pending == old(pending)[n..]
    {
      var n := CountFlushed(pending, ready, takes);
      FlushKeeps(sent, pending, lost, accepted, n);
      sent := sent + pending[..n];
      pending := pending[n..];
      left := |pending|;
    }

    /** The permission failed for good: what waits for it is dropped. */
    method Clear()
      requires Valid()
      modifies this`pending, this`lost
      ensures Valid() && (old(InOrder()) ==> InOrder()) && pending == [] && lost == old(lost) + old(pending)
    {
      DropKeeps(sent, pending, lost, accepted, |pending|);
      assert pending[|pending|..] == [] && pending[..|pending|] == pending;
      lost, pending := lost + pending, [];
    }
  }

  method CountFlushed(pending: seq<Packet>, ready: bool, takes: seq<bool>) returns (n: nat)
    ensures n == Flushed(pending, ready, takes)
  {
    n := 0;
    while n < |pending| && n < |takes| && takes[n] && Wrappable(ready, pending[n])
      invariant n <= |pending| && n <= |takes|
      invariant Flushed(pending, ready, takes) == n + Flushed(pending[n..], ready, takes[n..])
    {
      assert pending[n..][1..] == pending[n + 1..] && takes[n..][1..] == takes[n + 1..];
      n := n + 1;
    }
  }

  /** A packet too long for a channel frame at the front holds up everything behind it. */
  lemma OversizeBlocks(pending: seq<Packet>)
    requires pending != []
    ensures (forall t: seq<bool> :: Flushed(pending, true, t) == 0) <==> pending[0].size > MAX_CHANNEL_DATA
  {
    if pending[0].size <= MAX_CHANNEL_DATA {
      assert Flushed(pending, true, [true]) >= 1;
    }
  }

  // ---- Whole sessions ------------------------------------------------------------------

  datatype Op =
    | SendOp(size: nat, active: bool, permitted: bool, ready: bool, takes: bool)
    | FlushOp(ready: bool, answers: seq<bool>)
    | ClearOp

  /** One operation; `overtook` says that a packet was sent directly while others waited. */
  method Perform(b: PeerBuffer, op: Op) returns (overtook: bool)
    requires b.Valid()
    modifies b
    ensures b.Valid() && (old(b.InOrder()) ==> (b.InOrder() <==> !overtook))
    ensures overtook ==> op.SendOp? && op.permitted && old(b.pending) != []
  {
    overtook := false;
    match op
    case SendOp(size, active, permitted, ready, takes) =>
      var waiting := b.pending != [];
      var r := b.SendData(size, active, permitted, ready, takes);
      overtook := r.SentNow? && waiting;
    case FlushOp(ready, answers) => var left := b.Flush(ready, answers);
    case ClearOp => b.Clear();
  }

  /**
   After any operations everything the application was told is accepted was sent, waits or was
   dropped, exactly once; and what was sent is in order unless a packet was sent directly while
   others waited.
   */
  method Session(ops: seq<Op>)
    returns (pending: seq<Packet>, ghost sent: seq<Packet>, ghost lost: seq<Packet>, ghost accepted: seq<Packet>, overtook: bool)
    ensures Conserved(sent, pending, lost, accepted) && Numbered(accepted) && |pending| <= MAX_PENDING
    ensures !overtook ==> Increasing(sent + pending)
  {
    var b := new PeerBuffer();
    overtook := false;
    for i := 0 to |ops|
      invariant b.Valid() && fresh(b) && (!overtook ==> b.InOrder())
    {
      var o := Perform(b, ops[i]);
      overtook := overtook || o;
    }
    pending, sent, lost, accepted := b.pending, b.sent, b.lost, b.accepted;
  }

  lemma OneFlushed(p: Packet, takes: bool)
    ensures Flushed([p], false, [takes]) == if takes then 1 else 0
  {
    assert [p][1..] == [] && [takes][1..] == [];
  }

  lemma OutOfOrder(a: Packet, b: Packet)
    requires a.serial >= b.serial
    ensures !Increasing([a, b] + [])
  {
    assert ([a, b] + [])[0] == a && ([a, b] + [])[1] == b;
  }

  /** A packet waits for a permission; when it comes the transport takes nothing. */
  method FirstWaits() returns (b: PeerBuffer)
    ensures b.Valid() && fresh(b) && b.sent == [] && b.pending == [Packet(0, 1)] && b.accepted == [Packet(0, 1)]
  {
    b := new PeerBuffer();
    var r := b.SendData(1, true, false, false, true);
    assert b.pending == [Packet(0, 1)];
    OneFlushed(Packet(0, 1), false);
    var left := b.Flush(false, [false]);
  }

  /** The next packet is taken, and only then the first. */
  method OvertakingRun() returns (b: PeerBuffer)
    ensures b.Valid() && b.sent == [Packet(1, 1), Packet(0, 1)] && b.pending == [] && !b.InOrder()
  {
    b := FirstWaits();
    var r := b.SendData(1, true, true, false, true);
    assert b.sent == [Packet(1, 1)];
    OneFlushed(Packet(0, 1), true);
    var left := b.Flush(false, [true]);
    assert b.sent == [Packet(1, 1), Packet(0, 1)];
    OutOfOrder(Packet(1, 1), Packet(0, 1));
  }
}
