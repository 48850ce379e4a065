/**
 The RFC 6062 data pipe of the TURN server as a state machine.  Two data connections that
 present the same CONNECTION-ID become the two ends of a transparent byte tunnel.  Every step
 below is one critical section of one thread:

  - a shard takes the next chunk of a data socket and holds that connection's `prePairMtx`
    until the chunk is forwarded or buffered (`appendPrePair`);
  - a CONNECTION-BIND handler runs under the server's state lock, so there is at most one
    (`binder`): it queues the bind response, publishes the pair, then flushes both prefixes;
  - the kernel takes any part of what is queued, or fails the socket for good;
  - closing a connection takes the state lock.

 `head`, `resp`, `relayed`, `wire`, `received` and `partner` are histories: what was queued up
 to and including the bind response, that response, what was queued after it, what the kernel
 accepted, what the shard took from the socket, and which two sockets were ever paired.
 */
module Tunnel {
  import opened Bytes
  import opened WriteBuffer

  type Sock = nat
  type ConnId = nat

  /** The write side of a connection. */
  datatype Out = Out(
    head: seq<Byte>, resp: seq<Byte>, relayed: seq<Byte>, wire: seq<Byte>, pending: seq<Byte>, failed: bool)

  /** Who holds a connection's `prePairMtx`, and how far that thread has come. */
  datatype Mutex =
    | Free
    | Arrived(data: seq<Byte>)
    | Forwarding(data: seq<Byte>, to: Sock)
    | PrefixSent(data: seq<Byte>, to: Sock)
    | Buffering(data: seq<Byte>)
    | FlushLooking
    | FlushSending(to: Sock)

  /** The read side of a connection. */
  datatype In = In(received: seq<Byte>, prePair: seq<Byte>, mutex: Mutex, overflowed: bool)

  /** The CONNECTION-BIND handler that owns the state lock. */
  datatype Binder =
    | NoBinder
    | AnswerFirst(c: Sock)
    | AnswerSecond(c: Sock, first: Sock, id: ConnId)
    | Publish(c: Sock, first: Sock, id: ConnId)
    | FlushOwn(c: Sock, first: Sock)
    | FlushPeer(first: Sock)

  /** A pending CONNECT: no data socket yet, or the one of the first CONNECTION-BIND. */
  datatype Slot = Unbound | First(sock: Sock)

  datatype State = State(
    cap: nat,
    out: map<Sock, Out>,
    rd: map<Sock, In>,
    data: set<Sock>,
    dying: set<Sock>,
    pipe: map<Sock, Sock>,
    partner: map<Sock, Sock>,
    connects: map<ConnId, Slot>,
    binder: Binder)

  type Outs = map<Sock, Out>
  type Ins = map<Sock, In>
  type Peers = map<Sock, Sock>

  /** The two sides of a connection; a socket never used is a blank connection. */
  function O(out: Outs, c: Sock): Out { if c in out then out[c] else Out([], [], [], [], [], false) }

  function I(rd: Ins, c: Sock): In { if c in rd then rd[c] else In([], [], Free, false) }

  // ---- One write into a connection -----------------------------------------------------

  /** The kernel may take any prefix of the queue; a failed socket takes nothing again. */
  predicate Possible(o: Out, data: seq<Byte>, t: Took)
  {
    && t.n <= |o.pending| + |data|
    && (o.failed ==> t.n == 0 && !t.ok)
  }

  /** Any outcome of the server's own write loop is a possible outcome here. */
  lemma WriteLoopIsPossible(o: Out, data: seq<Byte>, kernel: seq<int>)
    requires !o.failed
    ensures Possible(o, data, Flush(|o.pending + data|, kernel, 0))
  {
  }

  /** `sendTcpRaw` or, with no new data, `flushTcp`. */
  function Send(o: Out, data: seq<Byte>, t: Took): Out
    requires Possible(o, data, t)
  {
    var queued := o.pending + data;
    o.(wire := o.wire + queued[..t.n], pending := Left(queued, t), failed := o.failed || !t.ok)
  }

  /** What left the socket is a prefix of what was queued, and complete while it is healthy. */
  predicate OrderedAs(o: Out, output: seq<Byte>)
  {
    && |o.wire| <= |output|
    && o.wire == output[..|o.wire|]
    && o.pending == if o.failed then [] else output[|o.wire|..]
  }

  predicate Ordered(o: Out)
  {
    OrderedAs(o, o.head + o.relayed)
  }

  lemma SendKeepsOrder(o: Out, data: seq<Byte>, t: Took, output: seq<Byte>)
    requires Possible(o, data, t) && OrderedAs(o, output)
    ensures OrderedAs(Send(o, data, t), output + data)
  {
    var queued := o.pending + data;
    if !o.failed {
      assert output + data == o.wire + queued;
    }
  }

  /** Queue a control response. */
  function Respond(o: Out, data: seq<Byte>, t: Took): (o': Out)
    requires Possible(o, data, t)
  {
    Send(o, data, t).(head := o.head + data)
  }

  /** Queue tunnelled bytes; `sendTcpRaw` of nothing does nothing. */
  function Forward(o: Out, data: seq<Byte>, t: Took): (o': Out)
    requires Possible(o, data, t)
  {
    if data == [] then o else Send(o, data, t).(relayed := o.relayed + data)
  }

  lemma RespondKeepsOrder(o: Out, data: seq<Byte>, t: Took)
    requires Possible(o, data, t) && Ordered(o) && o.relayed == []
    ensures Ordered(Respond(o, data, t))
  {
    SendKeepsOrder(o, data, t, o.head + o.relayed);
    assert o.head + o.relayed + data == o.head + data + o.relayed;
  }

  lemma ForwardKeepsOrder(o: Out, data: seq<Byte>, t: Took)
    requires Possible(o, data, t) && Ordered(o)
    ensures Ordered(Forward(o, data, t)) && Forward(o, data, t).relayed == o.relayed + data
  {
    if data != [] {
      SendKeepsOrder(o, data, t, o.head + o.relayed);
      assert o.head + o.relayed + data == o.head + (o.relayed + data);
    }
  }

  lemma FlushKeepsOrder(o: Out, t: Took)
    requires Possible(o, [], t) && Ordered(o)
    ensures Ordered(Send(o, [], t))
  {
    SendKeepsOrder(o, [], t, o.head + o.relayed);
    assert o.head + o.relayed + [] == o.head + o.relayed;
  }

  // ---- Steps ---------------------------------------------------------------------------

  datatype Step =
    | Reply(c: Sock, data: seq<Byte>, t: Took)
    | Writable(c: Sock, t: Took)
    | Connect(id: ConnId)
    | Expire(id: ConnId)
    | BindFirst(c: Sock, id: ConnId)
    | BindSecond(c: Sock, id: ConnId)
    | SendResponse(data: seq<Byte>, t: Took)
    | PublishPair
    | FlushLock
    | FlushLook
    | FlushSend(t: Took)
    | Arrive(c: Sock, data: seq<Byte>)
    | LookUp(c: Sock)
    | SendPrefix(c: Sock, t: Took)
    | SendChunk(c: Sock, t: Took)
    | Buffer(c: Sock)
    | MarkDying(c: Sock)
    | CloseSocket(c: Sock)

  /** `dataPipePeerRef`: the published peer, unless it is being closed. */
  predicate HasPeer(s: State, c: Sock)
  {
    c in s.pipe && s.pipe[c] !in s.dying
  }

  predicate CanBind(s: State, c: Sock, id: ConnId)
  {
    s.binder.NoBinder? && c !in s.data && c !in s.dying && id in s.connects
  }

  predicate Answering(s: State)
  {
    (s.binder.AnswerFirst? || s.binder.AnswerSecond?)
  }

  /** The bind handler is flushing the prefix of `FlushTarget`. */
  predicate Flushing(s: State)
  {
    (s.binder.FlushOwn? || s.binder.FlushPeer?)
  }

  function FlushTarget(b: Binder): Sock
    requires b.FlushOwn? || b.FlushPeer?
  {
    if b.FlushOwn? then b.c else b.first
  }

  function AfterFlush(b: Binder): Binder
    requires b.FlushOwn? || b.FlushPeer?
  {
    if b.FlushOwn? then FlushPeer(b.first) else NoBinder
  }

  /** The mutex holder of `c` can hand `data` to the socket it looked up. */
  predicate CanRelay(s: State, c: Sock, data: seq<Byte>, t: Took)
  {
    Targets(I(s.rd, c).mutex) && Possible(O(s.out, I(s.rd, c).mutex.to), data, t)
  }

  predicate Targets(m: Mutex) { m.Forwarding? || m.PrefixSent? || m.FlushSending? }

  predicate Enabled(s: State, step: Step)
  {
    match step
    case Reply(c, data, t) => c !in s.data && Possible(O(s.out, c), data, t)
    case Writable(c, t) => Possible(O(s.out, c), [], t)
    case Connect(id) => s.binder.NoBinder? && id !in s.connects
    case Expire(id) => s.binder.NoBinder?
    case BindFirst(c, id) => CanBind(s, c, id) && s.connects[id].Unbound?
    case BindSecond(c, id) => CanBind(s, c, id) && s.connects[id].First?
    case SendResponse(data, t) => Answering(s) && data != [] && Possible(O(s.out, s.binder.c), data, t)
    case PublishPair => s.binder.Publish?
    case FlushLock => Flushing(s) && I(s.rd, FlushTarget(s.binder)).mutex.Free?
    case FlushLook => Flushing(s) && I(s.rd, FlushTarget(s.binder)).mutex.FlushLooking?
    case FlushSend(t) =>
      && Flushing(s) && I(s.rd, FlushTarget(s.binder)).mutex.FlushSending?
      && CanRelay(s, FlushTarget(s.binder), I(s.rd, FlushTarget(s.binder)).prePair, t)
    case Arrive(c, data) => c in s.data && I(s.rd, c).mutex.Free?
    case LookUp(c) => I(s.rd, c).mutex.Arrived?
    case SendPrefix(c, t) => I(s.rd, c).mutex.Forwarding? && CanRelay(s, c, I(s.rd, c).prePair, t)
    case SendChunk(c, t) => I(s.rd, c).mutex.PrefixSent? && CanRelay(s, c, I(s.rd, c).mutex.data, t)
    case Buffer(c) => I(s.rd, c).mutex.Buffering?
    case MarkDying(c) => s.binder.NoBinder?
    case CloseSocket(c) => c in s.dying
  }

  function Write(s: State, c: Sock, o: Out): State { s.(out := s.out[c := o]) }

  function Read(s: State, c: Sock, i: In): State { s.(rd := s.rd[c := i]) }

  function DoBind(s: State, c: Sock, id: ConnId): State
    requires CanBind(s, c, id)
  {
    match s.connects[id]
    case Unbound => s.(data := s.data + {c}, connects := s.connects[id := First(c)], binder := AnswerFirst(c))
    case First(f) => s.(data := s.data + {c}, binder := AnswerSecond(c, f, id))
  }

  function DoRespond(s: State, data: seq<Byte>, t: Took): State
    requires Answering(s) && Possible(O(s.out, s.binder.c), data, t)
  {
    Write(s, s.binder.c, Respond(O(s.out, s.binder.c), data, t).(resp := data)).(
      binder := if s.binder.AnswerFirst? then NoBinder else Publish(s.binder.c, s.binder.first, s.binder.id))
  }

  /** The pending CONNECT is retired here: nobody else reads that table under the state lock. */
  function DoPublish(s: State): State
    requires s.binder.Publish?
  {
    var Publish(c, first, id) := s.binder;
    var retired := s.(connects := s.connects - {id}, binder := NoBinder);
    if first in s.dying then retired
    else
      retired.(pipe := s.pipe[c := first][first := c],
               partner := s.partner[c := first][first := c],
               binder := FlushOwn(c, first))
  }

  function DoFlushLook(s: State): State
    requires Flushing(s)
  {
    var c := FlushTarget(s.binder);
    if I(s.rd, c).prePair == [] || !HasPeer(s, c)
    then Read(s, c, I(s.rd, c).(mutex := Free)).(binder := AfterFlush(s.binder))
    else Read(s, c, I(s.rd, c).(mutex := FlushSending(s.pipe[c])))
  }

  /** The mutex holder of `c` hands `data` over and leaves its own read side as `after`. */
  function DoRelay(s: State, c: Sock, data: seq<Byte>, after: In, t: Took): State
    requires CanRelay(s, c, data, t)
  {
    var to := I(s.rd, c).mutex.to;
    Read(Write(s, to, Forward(O(s.out, to), data, t)), c, after)
  }

  function DoLookUp(s: State, c: Sock): State
    requires I(s.rd, c).mutex.Arrived?
  {
    var data := I(s.rd, c).mutex.data;
    Read(s, c, I(s.rd, c).(mutex := if HasPeer(s, c) then Forwarding(data, s.pipe[c]) else Buffering(data)))
  }

  function DoBuffer(s: State, c: Sock): State
    requires I(s.rd, c).mutex.Buffering?
  {
    var i := I(s.rd, c);
    Read(s, c,
         if |i.prePair| + |i.mutex.data| > s.cap
         then i.(prePair := [], overflowed := true, mutex := Free)
         else i.(prePair := i.prePair + i.mutex.data, mutex := Free))
  }

  function DoMarkDying(s: State, c: Sock): State
  {
    s.(dying := s.dying + {c}, pipe := map x | x in s.pipe && x != c && s.pipe[x] != c :: s.pipe[x])
  }

  function Apply(s: State, step: Step): State
    requires Enabled(s, step)
  {
    match step
    case Reply(c, data, t) => Write(s, c, Respond(O(s.out, c), data, t))
    case Writable(c, t) => Write(s, c, Send(O(s.out, c), [], t))
    case Connect(id) => s.(connects := s.connects[id := Unbound])
    case Expire(id) => s.(connects := s.connects - {id})
    case BindFirst(c, id) => DoBind(s, c, id)
    case BindSecond(c, id) => DoBind(s, c, id)
    case SendResponse(data, t) => DoRespond(s, data, t)
    case PublishPair => DoPublish(s)
    case FlushLock => Read(s, FlushTarget(s.binder), I(s.rd, FlushTarget(s.binder)).(mutex := FlushLooking))
    case FlushLook => DoFlushLook(s)
    case FlushSend(t) =>
      var i := I(s.rd, FlushTarget(s.binder));
      DoRelay(s, FlushTarget(s.binder), i.prePair, i.(prePair := [], mutex := Free), t)
      .(binder := AfterFlush(s.binder))
    case Arrive(c, data) => Read(s, c, I(s.rd, c).(received := I(s.rd, c).received + data, mutex := Arrived(data)))
    case LookUp(c) => DoLookUp(s, c)
    case SendPrefix(c, t) =>
      var i := I(s.rd, c);
      DoRelay(s, c, i.prePair, i.(prePair := [], mutex := PrefixSent(i.mutex.data, i.mutex.to)), t)
    case SendChunk(c, t) => DoRelay(s, c, I(s.rd, c).mutex.data, I(s.rd, c).(mutex := Free), t)
    case Buffer(c) => DoBuffer(s, c)
    case MarkDying(c) => DoMarkDying(s, c)
    case CloseSocket(c) => Write(s, c, O(s.out, c).(failed := true, pending := []))
  }

  predicate Init(s: State)
  {
    && s.out == map[] && s.rd == map[] && s.data == {} && s.dying == {} && s.pipe == map[]
    && s.partner == map[] && s.connects == map[] && s.binder.NoBinder?
  }

  /** `s` is reached from `s0` by the run `steps`. */
  ghost predicate Reaches(s0: State, steps: seq<Step>, s: State)
    decreases |steps|
  {
    if steps == [] then s == s0
    else
      var last := |steps| - 1;
      exists m :: Reaches(s0, steps[..last], m) && Enabled(m, steps[last]) && s == Apply(m, steps[last])
  }

  // ---- Invariant -----------------------------------------------------------------------

  /** Bytes of the chunk that the mutex holder has taken but neither forwarded nor buffered. */
  function InHand(m: Mutex): seq<Byte>
  {
    match m
    case Arrived(data) => data
    case Forwarding(data, _) => data
    case PrefixSent(data, _) => data
    case Buffering(data) => data
    case _ => []
  }

  /** Everything taken from the socket that its partner has not been sent. */
  function Waiting(i: In): seq<Byte> { i.prePair + InHand(i.mutex) }

  ghost predicate OutInv(out: Outs)
  {
    forall c: Sock :: Ordered(O(out, c))
  }

  predicate Paired(partner: Peers, c: Sock, d: Sock) { c in partner && partner[c] == d }

  /** Pairing is a symmetric partial matching of data connections. */
  ghost predicate PairsInv(data: set<Sock>, partner: Peers)
  {
    forall c, d :: Paired(partner, c, d) ==> Paired(partner, d, c) && c != d && c in data
  }

  ghost predicate PipeInv(dying: set<Sock>, pipe: Peers, partner: Peers)
  {
    forall c, d :: Paired(pipe, c, d) ==> Paired(partner, c, d) && d !in dying
  }

  /**
   What was received is what the partner was sent, followed by what still waits; after an
   overflow some received byte is neither.
   */
  predicate Balanced(sent: seq<Byte>, i: In)
  {
    if i.overflowed then |sent| + |Waiting(i)| < |i.received| else i.received == sent + Waiting(i)
  }

  /** What the partner of `c` has been sent on its behalf. */
  function Sent(s: State, c: Sock): seq<Byte>
  {
    if c in s.partner then O(s.out, s.partner[c]).relayed else []
  }

  ghost predicate BalanceInv(out: Outs, rd: Ins, partner: Peers)
  {
    && (forall c, d :: Paired(partner, c, d) ==> Balanced(O(out, d).relayed, I(rd, c)))
    && (forall c :: c !in partner ==> Balanced([], I(rd, c)))
    && (forall c :: c !in partner ==> O(out, c).relayed == [])
  }

  /** A mutex holder forwards to the partner only, and behind its own prefix. */
  predicate HolderOk(isData: bool, partner: Peers, c: Sock, i: In)
  {
    && (Targets(i.mutex) ==> Paired(partner, c, i.mutex.to))
    && (i.mutex.PrefixSent? ==> i.prePair == [])
    && (!isData ==> i.mutex.Free?)
  }

  ghost predicate HoldersInv(rd: Ins, data: set<Sock>, partner: Peers)
  {
    forall c :: HolderOk(c in data, partner, c, I(rd, c))
  }

  /** `c` still waits for the bind handler to flush it. */
  predicate AwaitsFlush(b: Binder, c: Sock)
  {
    || (b.FlushOwn? && (c == b.c || c == b.first))
    || (b.FlushPeer? && c == b.first)
  }

  /** No buffered prefix is left behind once both flushes have run. */
  predicate NotStranded(i: In)
  {
    && !i.mutex.Buffering?
    && (i.mutex.Free? ==> i.prePair == [])
  }

  predicate StrandInv(rd: Ins, pipe: Peers, binder: Binder)
  {
    forall c :: c in pipe && !AwaitsFlush(binder, c) ==> NotStranded(I(rd, c))
  }

  predicate HalfBound(data: set<Sock>, partner: Peers, f: Sock) { f in data && f !in partner }

  /** The first data socket of each pending CONNECT is unpaired and belongs to no other. */
  predicate ConnectsInv(connects: map<ConnId, Slot>, data: set<Sock>, partner: Peers)
  {
    && (forall id :: id in connects && connects[id].First? ==> HalfBound(data, partner, connects[id].sock))
    && (forall i, j :: i in connects && j in connects && connects[i].First? && connects[i] == connects[j] ==> i == j)
  }

  predicate Pairable(connects: map<ConnId, Slot>, data: set<Sock>, dying: set<Sock>, partner: Peers,
                     c: Sock, f: Sock, id: ConnId)
  {
    && HalfBound(data, partner, c) && c !in dying && c != f
    && id in connects && connects[id] == First(f)
    && (forall i :: i in connects ==> connects[i] != First(c))
  }

  predicate BinderInv(binder: Binder, connects: map<ConnId, Slot>, data: set<Sock>, dying: set<Sock>,
                      pipe: Peers, partner: Peers)
  {
    match binder
    case NoBinder => true
    case AnswerFirst(c) => HalfBound(data, partner, c)
    case AnswerSecond(c, f, id) => Pairable(connects, data, dying, partner, c, f, id)
    case Publish(c, f, id) => Pairable(connects, data, dying, partner, c, f, id)
    case FlushOwn(c, f) => c in pipe && f in pipe && c != f
    case FlushPeer(f) => f in pipe
  }

  /** The bind response has been queued, and nothing but tunnelled bytes follows it. */
  predicate Answered(o: Out)
  {
    o.resp != [] && |o.resp| <= |o.head| && o.head[|o.head| - |o.resp|..] == o.resp
  }

  ghost predicate AnsweredInv(out: Outs, data: set<Sock>, partner: Peers, connects: map<ConnId, Slot>, binder: Binder)
  {
    && (forall c :: c in partner ==> Answered(O(out, c)))
    && (forall c: Sock :: c !in data ==> O(out, c).resp == [])
    && (forall id :: id in connects && connects[id].First? ==>
          Answered(O(out, connects[id].sock)) || binder == AnswerFirst(connects[id].sock))
    && (binder.Publish? ==> Answered(O(out, binder.c)))
  }

  /** What the shards and the kernel rely on. */
  ghost predicate DataInv(s: State)
  {
    && OutInv(s.out)
    && PairsInv(s.data, s.partner)
    && PipeInv(s.dying, s.pipe, s.partner)
    && BalanceInv(s.out, s.rd, s.partner)
    && HoldersInv(s.rd, s.data, s.partner)
    && StrandInv(s.rd, s.pipe, s.binder)
  }

  /** What the bind handler relies on. */
  ghost predicate BindInv(s: State)
  {
    && ConnectsInv(s.connects, s.data, s.partner)
    && BinderInv(s.binder, s.connects, s.data, s.dying, s.pipe, s.partner)
    && AnsweredInv(s.out, s.data, s.partner, s.connects, s.binder)
  }

  ghost predicate Inv(s: State)
  {
    DataInv(s) && BindInv(s)
  }

  // ---- Data-plane steps ------------------------------------------------------------------

  lemma OutUpdate(out: Outs, c: Sock, o: Out)
    requires OutInv(out) && Ordered(o)
    ensures OutInv(out[c := o])
  {
    var out' := out[c := o];
    forall x: Sock ensures Ordered(O(out', x)) {
      assert Ordered(O(out, x));
    }
  }

  lemma BalanceRead(out: Outs, rd: Ins, partner: Peers, c: Sock, i: In)
    requires BalanceInv(out, rd, partner)
    requires Balanced(if c in partner then O(out, partner[c]).relayed else [], i)
    ensures BalanceInv(out, rd[c := i], partner)
  {
  }

  lemma BalanceWrite(out: Outs, rd: Ins, partner: Peers, c: Sock, o: Out)
    requires BalanceInv(out, rd, partner) && o.relayed == O(out, c).relayed
    ensures BalanceInv(out[c := o], rd, partner)
  {
  }

  lemma BalanceRelay(out: Outs, rd: Ins, data: set<Sock>, partner: Peers, c: Sock, to: Sock, i: In, o: Out)
    requires PairsInv(data, partner) && Paired(partner, c, to) && BalanceInv(out, rd, partner)
    requires Balanced(o.relayed, i)
    ensures BalanceInv(out[to := o], rd[c := i], partner)
  {
    assert Paired(partner, to, c);
  }

  lemma HoldersUpdate(rd: Ins, data: set<Sock>, partner: Peers, c: Sock, i: In)
    requires HoldersInv(rd, data, partner) && HolderOk(c in data, partner, c, i)
    ensures HoldersInv(rd[c := i], data, partner)
  {
  }

  lemma StrandUpdate(rd: Ins, pipe: Peers, binder: Binder, c: Sock, i: In)
    requires StrandInv(rd, pipe, binder) && (c in pipe && !AwaitsFlush(binder, c) ==> NotStranded(i))
    ensures StrandInv(rd[c := i], pipe, binder)
  {
  }

  /** Replacing the read side of one connection. */
  lemma ReadKeeps(s: State, c: Sock, i: In)
    requires DataInv(s) && Balanced(Sent(s, c), i) && HolderOk(c in s.data, s.partner, c, i)
    requires c in s.pipe && !AwaitsFlush(s.binder, c) ==> NotStranded(i)
    ensures DataInv(Read(s, c, i))
  {
    BalanceRead(s.out, s.rd, s.partner, c, i);
    HoldersUpdate(s.rd, s.data, s.partner, c, i);
    StrandUpdate(s.rd, s.pipe, s.binder, c, i);
  }

  /** Replacing the write side of one connection without adding tunnelled bytes. */
  lemma WriteKeeps(s: State, c: Sock, o: Out)
    requires DataInv(s) && Ordered(o) && o.relayed == O(s.out, c).relayed
    ensures DataInv(Write(s, c, o))
  {
    OutUpdate(s.out, c, o);
    BalanceWrite(s.out, s.rd, s.partner, c, o);
  }

  lemma BalanceShift(sent: seq<Byte>, data: seq<Byte>, i: In, after: In)
    requires Balanced(sent, i) && Waiting(i) == data + Waiting(after)
    requires after.received == i.received && after.overflowed == i.overflowed
    ensures Balanced(sent + data, after)
  {
    var rest := Waiting(after);
    assert sent + data + rest == sent + (data + rest);
  }

  lemma ForwardBalances(o: Out, data: seq<Byte>, i: In, after: In, t: Took)
    requires Ordered(o) && Possible(o, data, t) && Balanced(o.relayed, i)
    requires Waiting(i) == data + Waiting(after)
    requires after.received == i.received && after.overflowed == i.overflowed
    ensures Ordered(Forward(o, data, t)) && Balanced(Forward(o, data, t).relayed, after)
  {
    ForwardKeepsOrder(o, data, t);
    BalanceShift(o.relayed, data, i, after);
    assert Forward(o, data, t).relayed == o.relayed + data;
  }

  /** Moving a front part of what waits on `c` into its partner. */
  lemma RelayKeeps(s: State, c: Sock, data: seq<Byte>, after: In, t: Took)
    requires DataInv(s) && CanRelay(s, c, data, t)
    requires Waiting(I(s.rd, c)) == data + Waiting(after)
    requires after.received == I(s.rd, c).received && after.overflowed == I(s.rd, c).overflowed
    requires HolderOk(c in s.data, s.partner, c, after)
    requires c in s.pipe && !AwaitsFlush(s.binder, c) ==> NotStranded(after)
    ensures DataInv(DoRelay(s, c, data, after, t))
  {
    var to := I(s.rd, c).mutex.to;
    var o := O(s.out, to);
    assert HolderOk(c in s.data, s.partner, c, I(s.rd, c));
    ForwardBalances(o, data, I(s.rd, c), after, t);
    OutUpdate(s.out, to, Forward(o, data, t));
    BalanceRelay(s.out, s.rd, s.data, s.partner, c, to, after, Forward(o, data, t));
    HoldersUpdate(s.rd, s.data, s.partner, c, after);
    StrandUpdate(s.rd, s.pipe, s.binder, c, after);
  }

  lemma ReaderFacts(s: State, c: Sock)
    requires DataInv(s)
    ensures Balanced(Sent(s, c), I(s.rd, c)) && HolderOk(c in s.data, s.partner, c, I(s.rd, c))
    ensures c in s.pipe ==> c in s.partner && s.partner[c] == s.pipe[c] && s.pipe[c] !in s.dying
    ensures c in s.partner ==> c in s.data
  {
    if c in s.partner { assert Paired(s.partner, c, s.partner[c]); }
    if c in s.pipe { assert Paired(s.pipe, c, s.pipe[c]); }
  }

  lemma ArriveBalances(sent: seq<Byte>, i: In, data: seq<Byte>)
    requires Balanced(sent, i) && i.mutex.Free?
    ensures Balanced(sent, i.(received := i.received + data, mutex := Arrived(data)))
  {
    assert i.prePair + [] == i.prePair;
    assert sent + i.prePair + data == sent + (i.prePair + data);
  }

  lemma ArriveKeeps(s: State, c: Sock, data: seq<Byte>)
    requires DataInv(s) && c in s.data && I(s.rd, c).mutex.Free?
    ensures DataInv(Read(s, c, I(s.rd, c).(received := I(s.rd, c).received + data, mutex := Arrived(data))))
  {
    var i := I(s.rd, c);
    ReaderFacts(s, c);
    ArriveBalances(Sent(s, c), i, data);
    ReadKeeps(s, c, i.(received := i.received + data, mutex := Arrived(data)));
  }

  lemma LookUpKeeps(s: State, c: Sock)
    requires DataInv(s) && I(s.rd, c).mutex.Arrived?
    ensures DataInv(DoLookUp(s, c))
  {
    ReaderFacts(s, c);
    ReadKeeps(s, c, I(DoLookUp(s, c).rd, c));
  }

  lemma BufferKeeps(s: State, c: Sock)
    requires DataInv(s) && I(s.rd, c).mutex.Buffering?
    ensures DataInv(DoBuffer(s, c))
  {
    var i := I(s.rd, c);
    ReaderFacts(s, c);
    assert i.prePair + i.mutex.data + [] == i.prePair + i.mutex.data;
    ReadKeeps(s, c, I(DoBuffer(s, c).rd, c));
  }

  lemma PrefixKeeps(s: State, c: Sock, t: Took)
    requires var i := I(s.rd, c); DataInv(s) && i.mutex.Forwarding? && CanRelay(s, c, i.prePair, t)
    ensures var i := I(s.rd, c);
            DataInv(DoRelay(s, c, i.prePair, i.(prePair := [], mutex := PrefixSent(i.mutex.data, i.mutex.to)), t))
  {
    var i := I(s.rd, c);
    ReaderFacts(s, c);
    assert [] + i.mutex.data == i.mutex.data;
    RelayKeeps(s, c, i.prePair, i.(prePair := [], mutex := PrefixSent(i.mutex.data, i.mutex.to)), t);
  }

  lemma ChunkKeeps(s: State, c: Sock, t: Took)
    requires var i := I(s.rd, c); DataInv(s) && i.mutex.PrefixSent? && CanRelay(s, c, i.mutex.data, t)
    ensures var i := I(s.rd, c); DataInv(DoRelay(s, c, i.mutex.data, i.(mutex := Free), t))
  {
    var i := I(s.rd, c);
    ReaderFacts(s, c);
    assert [] + i.mutex.data == i.mutex.data + ([] + []);
    RelayKeeps(s, c, i.mutex.data, i.(mutex := Free), t);
  }

  /** The bind handler moves on once nothing of its current target waits. */
  lemma FlushDone(s: State)
    requires DataInv(s) && Flushing(s) && NotStranded(I(s.rd, FlushTarget(s.binder)))
    ensures DataInv(s.(binder := AfterFlush(s.binder)))
  {
  }

  lemma FlushLockKeeps(s: State)
    requires DataInv(s) && Flushing(s) && FlushTarget(s.binder) in s.pipe && I(s.rd, FlushTarget(s.binder)).mutex.Free?
    ensures DataInv(Read(s, FlushTarget(s.binder), I(s.rd, FlushTarget(s.binder)).(mutex := FlushLooking)))
  {
    var c := FlushTarget(s.binder);
    ReaderFacts(s, c);
    ReadKeeps(s, c, I(s.rd, c).(mutex := FlushLooking));
  }

  lemma FlushLookKeeps(s: State)
    requires DataInv(s) && Flushing(s) && FlushTarget(s.binder) in s.pipe
    requires I(s.rd, FlushTarget(s.binder)).mutex.FlushLooking?
    ensures DataInv(DoFlushLook(s))
  {
    var c := FlushTarget(s.binder);
    var i := I(s.rd, c);
    ReaderFacts(s, c);
    if i.prePair == [] || !HasPeer(s, c) {
      ReadKeeps(s, c, i.(mutex := Free));
      FlushDone(Read(s, c, i.(mutex := Free)));
    } else {
      ReadKeeps(s, c, i.(mutex := FlushSending(s.pipe[c])));
    }
  }

  lemma FlushSendKeeps(s: State, t: Took)
    requires DataInv(s) && Enabled(s, FlushSend(t))
    ensures DataInv(Apply(s, FlushSend(t)))
  {
    var c := FlushTarget(s.binder);
    var i := I(s.rd, c);
    var after := i.(prePair := [], mutex := Free);
    ReaderFacts(s, c);
    assert i.prePair + [] == i.prePair + ([] + []);
    RelayKeeps(s, c, i.prePair, after, t);
    FlushDone(DoRelay(s, c, i.prePair, after, t));
  }

  lemma RespondKeeps(s: State, c: Sock, data: seq<Byte>, t: Took, o: Out)
    requires DataInv(s) && c !in s.partner && Possible(O(s.out, c), data, t)
    requires Respond(O(s.out, c), data, t).(resp := o.resp) == o
    ensures DataInv(Write(s, c, o))
  {
    RespondKeepsOrder(O(s.out, c), data, t);
    WriteKeeps(s, c, o);
  }

  lemma WritableKeeps(s: State, c: Sock, t: Took)
    requires DataInv(s) && Possible(O(s.out, c), [], t)
    ensures DataInv(Write(s, c, Send(O(s.out, c), [], t)))
  {
    FlushKeepsOrder(O(s.out, c), t);
    WriteKeeps(s, c, Send(O(s.out, c), [], t));
  }

  lemma CloseKeeps(s: State, c: Sock)
    requires DataInv(s)
    ensures DataInv(Write(s, c, O(s.out, c).(failed := true, pending := [])))
  {
    assert Ordered(O(s.out, c));
    WriteKeeps(s, c, O(s.out, c).(failed := true, pending := []));
  }

  lemma DyingKeeps(s: State, c: Sock)
    requires DataInv(s)
    ensures DataInv(DoMarkDying(s, c))
  {
    var s' := DoMarkDying(s, c);
    forall x, d | Paired(s'.pipe, x, d) ensures Paired(s.partner, x, d) && d !in s'.dying {
      assert Paired(s.pipe, x, d);
    }
  }

  // ---- CONNECTION-BIND -------------------------------------------------------------------

  lemma DataGrows(rd: Ins, data: set<Sock>, partner: Peers, c: Sock)
    requires HoldersInv(rd, data, partner) && PairsInv(data, partner)
    ensures HoldersInv(rd, data + {c}, partner) && PairsInv(data + {c}, partner)
  {
    forall x ensures HolderOk(x in data + {c}, partner, x, I(rd, x)) {
      assert HolderOk(x in data, partner, x, I(rd, x));
    }
  }

  lemma BindKeepsData(s: State, c: Sock, id: ConnId)
    requires DataInv(s) && CanBind(s, c, id)
    ensures DataInv(DoBind(s, c, id))
  {
    DataGrows(s.rd, s.data, s.partner, c);
  }

  lemma FirstKeepsConnects(connects: map<ConnId, Slot>, data: set<Sock>, partner: Peers, c: Sock, id: ConnId)
    requires ConnectsInv(connects, data, partner) && c !in data && c !in partner && id in connects && connects[id].Unbound?
    ensures ConnectsInv(connects[id := First(c)], data + {c}, partner)
  {
  }

  lemma SecondKeepsConnects(connects: map<ConnId, Slot>, data: set<Sock>, partner: Peers, c: Sock)
    requires ConnectsInv(connects, data, partner) && c !in data
    ensures ConnectsInv(connects, data + {c}, partner)
    ensures forall i :: i in connects ==> connects[i] != First(c)
  {
  }

  lemma FirstKeepsAnswered(s: State, c: Sock, id: ConnId)
    requires AnsweredInv(s.out, s.data, s.partner, s.connects, s.binder) && s.binder.NoBinder?
    ensures AnsweredInv(s.out, s.data + {c}, s.partner, s.connects[id := First(c)], AnswerFirst(c))
  {
  }

  lemma SecondKeepsAnswered(s: State, c: Sock, f: Sock, id: ConnId)
    requires AnsweredInv(s.out, s.data, s.partner, s.connects, s.binder) && s.binder.NoBinder?
    ensures AnsweredInv(s.out, s.data + {c}, s.partner, s.connects, AnswerSecond(c, f, id))
  {
  }

  lemma BindKeepsBind(s: State, c: Sock, id: ConnId)
    requires BindInv(s) && CanBind(s, c, id) && c !in s.partner
    ensures BindInv(DoBind(s, c, id))
  {
    match s.connects[id]
    case Unbound =>
      FirstKeepsConnects(s.connects, s.data, s.partner, c, id);
      FirstKeepsAnswered(s, c, id);
    case First(f) =>
      SecondKeepsConnects(s.connects, s.data, s.partner, c);
      SecondKeepsAnswered(s, c, f, id);
  }

  lemma PairPartner(data: set<Sock>, partner: Peers, c: Sock, f: Sock)
    requires PairsInv(data, partner) && c in data && f in data && c !in partner && f !in partner && c != f
    ensures PairsInv(data, partner[c := f][f := c])
  {
    var partner' := partner[c := f][f := c];
    forall x, y | Paired(partner', x, y) ensures Paired(partner', y, x) && x != y && x in data {
      if x != c && x != f {
        assert Paired(partner, x, y);
        assert Paired(partner, y, x);
      }
    }
  }

  lemma PairPipe(dying: set<Sock>, pipe: Peers, partner: Peers, c: Sock, f: Sock)
    requires PipeInv(dying, pipe, partner) && c !in partner && f !in partner && c != f && c !in dying && f !in dying
    ensures PipeInv(dying, pipe[c := f][f := c], partner[c := f][f := c])
    ensures c !in pipe && f !in pipe
  {
    var pipe', partner' := pipe[c := f][f := c], partner[c := f][f := c];
    if c in pipe { assert Paired(pipe, c, pipe[c]); }
    if f in pipe { assert Paired(pipe, f, pipe[f]); }
    forall x, y | Paired(pipe', x, y) ensures Paired(partner', x, y) && y !in dying {
      if x != c && x != f { assert Paired(pipe, x, y); }
    }
  }

  lemma PairBalance(out: Outs, rd: Ins, partner: Peers, c: Sock, f: Sock)
    requires BalanceInv(out, rd, partner) && c !in partner && f !in partner
    ensures BalanceInv(out, rd, partner[c := f][f := c])
  {
    var partner' := partner[c := f][f := c];
    forall x, y | Paired(partner', x, y) ensures Balanced(O(out, y).relayed, I(rd, x)) {
      if x != c && x != f { assert Paired(partner, x, y); }
    }
  }

  lemma PairHolders(rd: Ins, data: set<Sock>, partner: Peers, c: Sock, f: Sock)
    requires HoldersInv(rd, data, partner) && c !in partner && f !in partner
    ensures HoldersInv(rd, data, partner[c := f][f := c])
  {
    var partner' := partner[c := f][f := c];
    forall x ensures HolderOk(x in data, partner', x, I(rd, x)) {
      assert HolderOk(x in data, partner, x, I(rd, x));
    }
  }

  lemma PublishKeepsData(s: State)
    requires DataInv(s) && s.binder.Publish?
    requires var Publish(c, f, id) := s.binder;
             HalfBound(s.data, s.partner, c) && HalfBound(s.data, s.partner, f) && c != f && c !in s.dying
    ensures DataInv(DoPublish(s))
  {
    var Publish(c, f, id) := s.binder;
    if f !in s.dying {
      PairPartner(s.data, s.partner, c, f);
      PairPipe(s.dying, s.pipe, s.partner, c, f);
      PairBalance(s.out, s.rd, s.partner, c, f);
      PairHolders(s.rd, s.data, s.partner, c, f);
    }
  }

  lemma PublishKeepsBind(s: State)
    requires BindInv(s) && s.binder.Publish?
    ensures BindInv(DoPublish(s))
  {
  }

  /** Any write that leaves the heads of data connections alone. */
  lemma AnsweredUpdate(s: State, c: Sock, o: Out)
    requires AnsweredInv(s.out, s.data, s.partner, s.connects, s.binder)
    requires c in s.data ==> o.head == O(s.out, c).head
    requires o.resp == O(s.out, c).resp
    ensures AnsweredInv(s.out[c := o], s.data, s.partner, s.connects, s.binder)
  {
    var out' := s.out[c := o];
    forall x: Sock ensures Answered(O(s.out, x)) ==> Answered(O(out', x)) {
    }
  }

  lemma AnsweredRelay(s: State, c: Sock, data: seq<Byte>, t: Took)
    requires AnsweredInv(s.out, s.data, s.partner, s.connects, s.binder) && CanRelay(s, c, data, t)
    ensures var to := I(s.rd, c).mutex.to;
            AnsweredInv(s.out[to := Forward(O(s.out, to), data, t)], s.data, s.partner, s.connects, s.binder)
  {
    var to := I(s.rd, c).mutex.to;
    AnsweredUpdate(s, to, Forward(O(s.out, to), data, t));
  }

  lemma ConnectKeepsBind(s: State, id: ConnId)
    requires BindInv(s) && s.binder.NoBinder? && id !in s.connects
    ensures BindInv(s.(connects := s.connects[id := Unbound]))
  {
  }

  lemma ExpireKeepsBind(s: State, id: ConnId)
    requires BindInv(s) && s.binder.NoBinder?
    ensures BindInv(s.(connects := s.connects - {id}))
  {
  }

  lemma RespondAnswers(o: Out, data: seq<Byte>, t: Took)
    requires Possible(o, data, t) && data != []
    ensures Answered(Respond(o, data, t).(resp := data))
  {
  }

  lemma RespondKeepsBind(s: State, data: seq<Byte>, t: Took)
    requires BindInv(s) && Answering(s) && data != [] && Possible(O(s.out, s.binder.c), data, t)
    ensures BindInv(DoRespond(s, data, t))
  {
    var c := s.binder.c;
    RespondAnswers(O(s.out, c), data, t);
    var s' := DoRespond(s, data, t);
    forall x: Sock ensures Answered(O(s'.out, x)) == (x == c || Answered(O(s.out, x))) {
    }
  }

  // ---- Every run -------------------------------------------------------------------------

  /** Steps that read or pass on tunnelled bytes. */
  predicate MovesData(step: Step)
  {
    || step.FlushLock? || step.FlushLook? || step.FlushSend?
    || step.Arrive? || step.LookUp? || step.Buffer? || step.SendPrefix? || step.SendChunk?
  }

  lemma MoveKeepsData(s: State, step: Step)
    requires Inv(s) && Enabled(s, step) && MovesData(step)
    ensures DataInv(Apply(s, step))
  {
    match step
    case FlushLock => FlushLockKeeps(s);
    case FlushLook => FlushLookKeeps(s);
    case FlushSend(t) => FlushSendKeeps(s, t);
    case Arrive(c, data) => ArriveKeeps(s, c, data);
    case LookUp(c) => LookUpKeeps(s, c);
    case Buffer(c) => BufferKeeps(s, c);
    case SendPrefix(c, t) => PrefixKeeps(s, c, t);
    case SendChunk(c, t) => ChunkKeeps(s, c, t);
  }

  /** Steps of the bind handler up to the publication. */
  predicate Binds(step: Step) { step.BindFirst? || step.BindSecond? || step.SendResponse? || step.PublishPair? }

  lemma BindingKeepsData(s: State, step: Step)
    requires Inv(s) && Enabled(s, step) && Binds(step)
    ensures DataInv(Apply(s, step))
  {
    match step
    case BindFirst(c, id) => BindKeepsData(s, c, id);
    case BindSecond(c, id) => BindKeepsData(s, c, id);
    case SendResponse(data, t) =>
      RespondKeeps(s, s.binder.c, data, t, Respond(O(s.out, s.binder.c), data, t).(resp := data));
    case PublishPair => PublishKeepsData(s);
  }

  lemma ConnectKeepsData(s: State, step: Step)
    requires DataInv(s) && Enabled(s, step) && (step.Connect? || step.Expire?)
    ensures DataInv(Apply(s, step))
  {
  }

  lemma StepKeepsData(s: State, step: Step)
    requires Inv(s) && Enabled(s, step)
    ensures DataInv(Apply(s, step))
  {
    if MovesData(step) {
      MoveKeepsData(s, step);
    } else if Binds(step) {
      BindingKeepsData(s, step);
    } else {
      OtherKeepsData(s, step);
    }
  }

  lemma OtherKeepsData(s: State, step: Step)
    requires Inv(s) && Enabled(s, step) && !MovesData(step) && !Binds(step)
    ensures DataInv(Apply(s, step))
  {
    match step
    case Reply(c, data, t) =>
      ReaderFacts(s, c);
      RespondKeeps(s, c, data, t, Respond(O(s.out, c), data, t));
    case Writable(c, t) => WritableKeeps(s, c, t);
    case CloseSocket(c) => CloseKeeps(s, c);
    case MarkDying(c) => DyingKeeps(s, c);
    case Connect(_) => ConnectKeepsData(s, step);
    case Expire(_) => ConnectKeepsData(s, step);
  }

  /** The steps that send nothing and bind nothing. */
  predicate Quiet(step: Step)
  {
    step.MarkDying? || step.FlushLock? || step.FlushLook? || step.Arrive? || step.LookUp? || step.Buffer?
  }

  lemma QuietKeepsBind(s: State, step: Step)
    requires BindInv(s) && Enabled(s, step) && Quiet(step)
    ensures BindInv(Apply(s, step))
  {
  }

  lemma StepKeepsBind(s: State, step: Step)
    requires BindInv(s) && Enabled(s, step) && (forall c :: c in s.partner ==> c in s.data)
    ensures BindInv(Apply(s, step))
  {
    match step
    case Reply(c, data, t) => AnsweredUpdate(s, c, Respond(O(s.out, c), data, t));
    case Writable(c, t) => AnsweredUpdate(s, c, Send(O(s.out, c), [], t));
    case CloseSocket(c) => AnsweredUpdate(s, c, O(s.out, c).(failed := true, pending := []));
    case BindFirst(c, id) => BindKeepsBind(s, c, id);
    case BindSecond(c, id) => BindKeepsBind(s, c, id);
    case SendResponse(data, t) => RespondKeepsBind(s, data, t);
    case PublishPair => PublishKeepsBind(s);
    case FlushSend(t) =>
      var i := I(s.rd, FlushTarget(s.binder));
      AnsweredRelay(s, FlushTarget(s.binder), i.prePair, t);
    case SendPrefix(c, t) => AnsweredRelay(s, c, I(s.rd, c).prePair, t);
    case SendChunk(c, t) => AnsweredRelay(s, c, I(s.rd, c).mutex.data, t);
    case Connect(id) => ConnectKeepsBind(s, id);
    case Expire(id) => ExpireKeepsBind(s, id);
    case _ => QuietKeepsBind(s, step);
  }

  lemma StepKeeps(s: State, step: Step)
    requires Inv(s) && Enabled(s, step)
    ensures Inv(Apply(s, step))
  {
    StepKeepsData(s, step);
    forall c | c in s.partner ensures c in s.data { ReaderFacts(s, c); }
    StepKeepsBind(s, step);
  }

  lemma {:induction false} RunKeeps(s0: State, steps: seq<Step>, s: State)
    requires Inv(s0) && Reaches(s0, steps, s)
    ensures Inv(s)
    decreases |steps|
  {
    if steps != [] {
      var last := |steps| - 1;
      var m :| Reaches(s0, steps[..last], m) && Enabled(m, steps[last]) && s == Apply(m, steps[last]);
      RunKeeps(s0, steps[..last], m);
      StepKeeps(m, steps[last]);
    }
  }

  lemma InitInv(s: State)
    requires Init(s)
    ensures Inv(s)
  {
  }

  // ---- Main results ----------------------------------------------------------------------

  /** The part of a socket's output that starts with its bind response. */
  function FromResponse(o: Out): seq<Byte>
    requires Answered(o)
  {
    if |o.wire| < |o.head| - |o.resp| then [] else o.wire[|o.head| - |o.resp|..]
  }

  /**
   In every run, what a paired data socket `d` has put on the wire since its bind response is
   a prefix of that response followed by the bytes its partner `c` received, as long as the
   pre-pair buffer of `c` never overflowed; and while `d` has not failed, every byte of `c`
   is on the wire, queued for `d`, buffered, or in the hand of the one thread forwarding it.
   */
  lemma Transparent(s0: State, steps: seq<Step>, s: State, c: Sock, d: Sock)
    requires Init(s0) && Reaches(s0, steps, s) && Paired(s.partner, c, d) && !I(s.rd, c).overflowed
    ensures var o, i := O(s.out, d), I(s.rd, c);
            && Answered(o)
            && |FromResponse(o)| <= |o.resp + i.received|
            && FromResponse(o) == (o.resp + i.received)[..|FromResponse(o)|]
            && (!o.failed ==> o.wire + o.pending + Waiting(i) == o.head + i.received)
  {
    InitInv(s0);
    RunKeeps(s0, steps, s);
    assert Paired(s.partner, d, c);
    assert Answered(O(s.out, d)) && Ordered(O(s.out, d)) && Balanced(O(s.out, d).relayed, I(s.rd, c));
    TransparentAt(O(s.out, d), I(s.rd, c));
  }

  lemma TransparentAt(o: Out, i: In)
    requires Answered(o) && Ordered(o) && Balanced(o.relayed, i) && !i.overflowed
    ensures |FromResponse(o)| <= |o.resp + i.received|
    ensures FromResponse(o) == (o.resp + i.received)[..|FromResponse(o)|]
    ensures !o.failed ==> o.wire + o.pending + Waiting(i) == o.head + i.received
  {
    var whole, rest := o.head + i.received, Waiting(i);
    Assoc(o.head, o.relayed, rest);
    TakenFromWhole(o.wire, o.head + o.relayed, rest);
    TailFromResponse(o.wire, o.head, o.resp, i.received);
    if !o.failed { assert o.wire + o.pending == o.head + o.relayed; }
  }

  /** A prefix of a prefix. */
  lemma TakenFromWhole(wire: seq<Byte>, queued: seq<Byte>, rest: seq<Byte>)
    requires |wire| <= |queued| && wire == queued[..|wire|]
    ensures wire == (queued + rest)[..|wire|]
  {
  }

  lemma TailFromResponse(wire: seq<Byte>, head: seq<Byte>, resp: seq<Byte>, received: seq<Byte>)
    requires |resp| <= |head| && head[|head| - |resp|..] == resp
    requires |wire| <= |head + received| && wire == (head + received)[..|wire|]
    ensures var start := |head| - |resp|;
            |wire| >= start ==> |wire[start..]| <= |resp + received| && wire[start..] == (resp + received)[..|wire[start..]|]
  {
    var start := |head| - |resp|;
    assert (head + received)[start..] == resp + received;
    if |wire| >= start {
      assert wire[start..] == (head + received)[start..][..|wire| - start];
    }
  }

  /**
   Exactly when bytes are lost before they reach the partner's queue: in every run, what `c`
   received is what its partner was sent plus what still waits if and only if no chunk ever
   exceeded the pre-pair cap of `c`.
   */
  lemma LostIffOverflowed(s0: State, steps: seq<Step>, s: State, c: Sock)
    requires Init(s0) && Reaches(s0, steps, s)
    ensures I(s.rd, c).received == Sent(s, c) + Waiting(I(s.rd, c)) <==> !I(s.rd, c).overflowed
  {
    InitInv(s0);
    RunKeeps(s0, steps, s);
    ReaderFacts(s, c);
  }

  /** The steps of a mutex holder. */
  predicate MovesReader(step: Step)
  {
    || step.FlushLock? || step.FlushLook? || step.FlushSend? || step.Arrive? || step.LookUp? || step.SendPrefix?
    || step.SendChunk? || step.Buffer?
  }

  lemma ReadersUntouched(s: State, step: Step)
    requires Enabled(s, step) && !MovesReader(step)
    ensures Apply(s, step).rd == s.rd
  {
  }

  /** The flag is raised by the step that would exceed the cap and by no other. */
  lemma OverflowExactly(s: State, step: Step, c: Sock)
    requires Enabled(s, step)
    ensures I(Apply(s, step).rd, c).overflowed <==>
            || I(s.rd, c).overflowed
            || (step == Buffer(c) && |I(s.rd, c).prePair| + |I(s.rd, c).mutex.data| > s.cap)
  {
    if !MovesReader(step) { ReadersUntouched(s, step); }
  }

  /**
   No byte is stranded: once the pair is published and both flushes are over, a connection
   whose mutex is free has handed everything it received to its partner.
   */
  lemma NothingStranded(s0: State, steps: seq<Step>, s: State, c: Sock)
    requires Init(s0) && Reaches(s0, steps, s)
    requires c in s.pipe && I(s.rd, c).mutex.Free? && !AwaitsFlush(s.binder, c) && !I(s.rd, c).overflowed
    ensures Paired(s.partner, c, s.pipe[c]) && O(s.out, s.pipe[c]).relayed == I(s.rd, c).received
  {
    InitInv(s0);
    RunKeeps(s0, steps, s);
    ReaderFacts(s, c);
    assert NotStranded(I(s.rd, c));
  }

  /** A connection that has no partner puts nothing but control responses on the wire. */
  lemma UnpairedSilent(s0: State, steps: seq<Step>, s: State, c: Sock)
    requires Init(s0) && Reaches(s0, steps, s) && c !in s.partner
    ensures O(s.out, c).wire <= O(s.out, c).head
  {
    InitInv(s0);
    RunKeeps(s0, steps, s);
    assert Ordered(O(s.out, c));
    assert O(s.out, c).head + [] == O(s.out, c).head;
  }

  /** Nothing is queued between the bind response and the tunnelled bytes of a paired socket. */
  lemma HeadFixedOncePaired(s0: State, steps: seq<Step>, s: State, step: Step, c: Sock)
    requires Init(s0) && Reaches(s0, steps, s) && Enabled(s, step) && c in s.partner
    ensures O(Apply(s, step).out, c).head == O(s.out, c).head
  {
    InitInv(s0);
    RunKeeps(s0, steps, s);
    ReaderFacts(s, c);
    HeadKept(s, step, c);
  }

  lemma SendKeepsHead(o: Out, data: seq<Byte>, t: Took)
    requires Possible(o, data, t)
    ensures Send(o, data, t).head == o.head && Forward(o, data, t).head == o.head
  {
  }

  lemma RelayKeepsHead(s: State, x: Sock, data: seq<Byte>, after: In, t: Took, c: Sock)
    requires CanRelay(s, x, data, t)
    ensures O(DoRelay(s, x, data, after, t).out, c).head == O(s.out, c).head
  {
    SendKeepsHead(O(s.out, I(s.rd, x).mutex.to), data, t);
  }

  lemma HeadKept(s: State, step: Step, c: Sock)
    requires BindInv(s) && Enabled(s, step) && c in s.partner && c in s.data
    ensures O(Apply(s, step).out, c).head == O(s.out, c).head
  {
    match step
    case Reply(x, data, t) =>
    case Writable(x, t) => SendKeepsHead(O(s.out, x), [], t);
    case SendResponse(data, t) => ResponseKeepsHead(s, data, t, c);
    case FlushSend(t) => FlushKeepsHead(s, t, c);
    case SendPrefix(x, t) => PrefixKeepsHead(s, x, t, c);
    case SendChunk(x, t) => ChunkKeepsHead(s, x, t, c);
    case CloseSocket(x) =>
    case _ => WritersUntouched(s, step);
  }

  lemma WritersUntouched(s: State, step: Step)
    requires Enabled(s, step)
    requires Quiet(step) || step.Connect? || step.Expire? || step.BindFirst? || step.BindSecond? || step.PublishPair?
    ensures Apply(s, step).out == s.out
  {
  }

  lemma ResponseKeepsHead(s: State, data: seq<Byte>, t: Took, c: Sock)
    requires BinderInv(s.binder, s.connects, s.data, s.dying, s.pipe, s.partner)
    requires Enabled(s, SendResponse(data, t)) && c in s.partner
    ensures O(Apply(s, SendResponse(data, t)).out, c).head == O(s.out, c).head
  {
  }

  lemma FlushKeepsHead(s: State, t: Took, c: Sock)
    requires Enabled(s, FlushSend(t))
    ensures O(Apply(s, FlushSend(t)).out, c).head == O(s.out, c).head
  {
    var x := FlushTarget(s.binder);
    RelayKeepsHead(s, x, I(s.rd, x).prePair, I(s.rd, x), t, c);
  }

  lemma PrefixKeepsHead(s: State, x: Sock, t: Took, c: Sock)
    requires Enabled(s, SendPrefix(x, t))
    ensures O(Apply(s, SendPrefix(x, t)).out, c).head == O(s.out, c).head
  {
    RelayKeepsHead(s, x, I(s.rd, x).prePair, I(s.rd, x), t, c);
  }

  lemma ChunkKeepsHead(s: State, x: Sock, t: Took, c: Sock)
    requires Enabled(s, SendChunk(x, t))
    ensures O(Apply(s, SendChunk(x, t)).out, c).head == O(s.out, c).head
  {
    RelayKeepsHead(s, x, I(s.rd, x).mutex.data, I(s.rd, x), t, c);
  }

  // ---- Pairing happens -------------------------------------------------------------------

  lemma Extend(s0: State, steps: seq<Step>, s: State, step: Step)
    requires Reaches(s0, steps, s) && Enabled(s, step)
    ensures Reaches(s0, steps + [step], Apply(s, step))
  {
    assert (steps + [step])[..|steps|] == steps;
  }

  /** Both directions are published, and both ends wait for their flush. */
  predicate Tunnelled(s: State, c: Sock, f: Sock)
  {
    && Paired(s.pipe, c, f) && Paired(s.pipe, f, c) && Paired(s.partner, c, f) && Paired(s.partner, f, c)
    && AwaitsFlush(s.binder, c) && AwaitsFlush(s.binder, f)
  }

  /**
   In every reachable state the publication pairs the two sockets of the bind, both ways, unless
   the first is being closed; the CONNECTION-ID is used up, other pairs stay, and no byte moves.
   */
  lemma PublishPairs(s0: State, run: seq<Step>, s: State)
    requires Init(s0) && Reaches(s0, run, s) && s.binder.Publish?
    ensures var Publish(c, f, id) := s.binder;
            var s' := Apply(s, PublishPair);
            && c != f && id in s.connects && s'.connects == s.connects - {id} && s'.out == s.out && s'.rd == s.rd
            && (f !in s.dying ==> Tunnelled(s', c, f))
            && (f in s.dying ==> s'.pipe == s.pipe && s'.partner == s.partner && s'.binder.NoBinder?)
            && (forall x :: x != c && x != f ==> (x in s'.pipe <==> x in s.pipe) && (x in s.pipe ==> s'.pipe[x] == s.pipe[x]))
  {
    PublisherFacts(s0, run, s);
    PublishedIs(s);
  }

  lemma PublisherFacts(s0: State, run: seq<Step>, s: State)
    requires Init(s0) && Reaches(s0, run, s) && s.binder.Publish?
    ensures s.binder.c != s.binder.first && s.binder.id in s.connects
  {
    InitInv(s0);
    RunKeeps(s0, run, s);
    assert BinderInv(s.binder, s.connects, s.data, s.dying, s.pipe, s.partner);
  }

  lemma PublishedIs(s: State)
    requires s.binder.Publish? && s.binder.c != s.binder.first
    ensures var Publish(c, f, id) := s.binder;
            var s' := DoPublish(s);
            && s'.connects == s.connects - {id} && s'.out == s.out && s'.rd == s.rd
            && (f !in s.dying ==> Tunnelled(s', c, f))
            && (f in s.dying ==> s'.pipe == s.pipe && s'.partner == s.partner && s'.binder.NoBinder?)
            && (forall x :: x != c && x != f ==> (x in s'.pipe <==> x in s.pipe) && (x in s.pipe ==> s'.pipe[x] == s.pipe[x]))
  {
  }

  /**
   The first CONNECTION-BIND of an id: whatever response is sent and however much of it the kernel
   takes, it is queued behind what the socket already had, and the id remembers the socket.
   */
  lemma FirstBinds(s: State, c: Sock, id: ConnId, data: seq<Byte>, t: Took)
    requires Enabled(s, BindFirst(c, id)) && data != [] && Possible(O(s.out, c), data, t)
    ensures var s1 := Apply(s, BindFirst(c, id));
            && Enabled(s1, SendResponse(data, t))
            && var s2 := Apply(s1, SendResponse(data, t));
               && s2.binder.NoBinder? && id in s2.connects && s2.connects[id] == First(c) && c in s2.data
               && O(s2.out, c).head == O(s.out, c).head + data && O(s2.out, c).resp == data
  {
  }

  /** The second one: bind, response and publication follow each other, and the two sockets are paired. */
  lemma SecondPairs(s: State, c: Sock, id: ConnId, data: seq<Byte>, t: Took)
    requires Enabled(s, BindSecond(c, id)) && data != [] && Possible(O(s.out, c), data, t)
    requires s.connects[id].sock !in s.dying
    ensures var s1 := Apply(s, BindSecond(c, id));
            && Enabled(s1, SendResponse(data, t))
            && var s2 := Apply(s1, SendResponse(data, t));
               && Enabled(s2, PublishPair) && O(s2.out, c).head == O(s.out, c).head + data && O(s2.out, c).resp == data
               && var s3 := Apply(s2, PublishPair);
                  Tunnelled(s3, c, s.connects[id].sock) && id !in s3.connects && s3.out == s2.out
  {
  }

  // ---- Delivery --------------------------------------------------------------------------

  /** Only the bind handler holds a mutex to flush, and only that of the socket it is flushing. */
  ghost predicate FlusherInv(rd: Ins, binder: Binder)
  {
    forall x: Sock :: FlusherOk(I(rd, x).mutex, binder, x)
  }

  predicate FlusherOk(m: Mutex, binder: Binder, x: Sock)
  {
    m.FlushLooking? || m.FlushSending? ==> (binder.FlushOwn? || binder.FlushPeer?) && FlushTarget(binder) == x
  }

  lemma FlusherRead(rd: Ins, binder: Binder, c: Sock, i: In)
    requires FlusherInv(rd, binder) && FlusherOk(i.mutex, binder, c)
    ensures FlusherInv(rd[c := i], binder)
  {
    var rd' := rd[c := i];
    forall x: Sock ensures FlusherOk(I(rd', x).mutex, binder, x) {
      assert FlusherOk(I(rd, x).mutex, binder, x);
    }
  }

  /** The handler leaves its target with the mutex free. */
  lemma FlusherLeaves(rd: Ins, binder: Binder, after: Binder, i: In)
    requires FlusherInv(rd, binder) && (binder.FlushOwn? || binder.FlushPeer?) && i.mutex.Free?
    ensures FlusherInv(rd[FlushTarget(binder) := i], after)
  {
    var rd' := rd[FlushTarget(binder) := i];
    forall x: Sock ensures FlusherOk(I(rd', x).mutex, after, x) {
      assert FlusherOk(I(rd, x).mutex, binder, x);
    }
  }

  /** No flush is under way while the handler is at another point. */
  lemma FlusherMoves(rd: Ins, binder: Binder, after: Binder)
    requires FlusherInv(rd, binder) && !binder.FlushOwn? && !binder.FlushPeer?
    ensures FlusherInv(rd, after)
  {
    forall x: Sock ensures FlusherOk(I(rd, x).mutex, after, x) {
      assert FlusherOk(I(rd, x).mutex, binder, x);
    }
  }

  lemma StepKeepsFlusher(s: State, step: Step)
    requires FlusherInv(s.rd, s.binder) && Enabled(s, step)
    ensures FlusherInv(Apply(s, step).rd, Apply(s, step).binder)
  {
    match step
    case BindFirst(c, id) => FlusherMoves(s.rd, s.binder, Apply(s, step).binder);
    case BindSecond(c, id) => FlusherMoves(s.rd, s.binder, Apply(s, step).binder);
    case SendResponse(data, t) => FlusherMoves(s.rd, s.binder, Apply(s, step).binder);
    case PublishPair => FlusherMoves(s.rd, s.binder, Apply(s, step).binder);
    case FlushLock => FlusherRead(s.rd, s.binder, FlushTarget(s.binder), I(s.rd, FlushTarget(s.binder)).(mutex := FlushLooking));
    case FlushLook => FlushLookFlusher(s);
    case FlushSend(t) =>
      FlusherLeaves(s.rd, s.binder, AfterFlush(s.binder), I(s.rd, FlushTarget(s.binder)).(prePair := [], mutex := Free));
    case Arrive(c, data) => FlusherRead(s.rd, s.binder, c, I(Apply(s, step).rd, c));
    case LookUp(c) => FlusherRead(s.rd, s.binder, c, I(Apply(s, step).rd, c));
    case SendPrefix(c, t) => FlusherRead(s.rd, s.binder, c, I(Apply(s, step).rd, c));
    case SendChunk(c, t) => FlusherRead(s.rd, s.binder, c, I(Apply(s, step).rd, c));
    case Buffer(c) => FlusherRead(s.rd, s.binder, c, I(Apply(s, step).rd, c));
    case _ =>
  }

  lemma FlushLookFlusher(s: State)
    requires FlusherInv(s.rd, s.binder) && Flushing(s)
    ensures FlusherInv(DoFlushLook(s).rd, DoFlushLook(s).binder)
  {
    var c := FlushTarget(s.binder);
    if I(s.rd, c).prePair == [] || !HasPeer(s, c) {
      FlusherLeaves(s.rd, s.binder, AfterFlush(s.binder), I(s.rd, c).(mutex := Free));
    } else {
      FlusherRead(s.rd, s.binder, c, I(s.rd, c).(mutex := FlushSending(s.pipe[c])));
    }
  }

  lemma {:induction false} RunKeepsFlusher(s0: State, steps: seq<Step>, s: State)
    requires FlusherInv(s0.rd, s0.binder) && Reaches(s0, steps, s)
    ensures FlusherInv(s.rd, s.binder)
    decreases |steps|
  {
    if steps != [] {
      var last := |steps| - 1;
      var m :| Reaches(s0, steps[..last], m) && Enabled(m, steps[last]) && s == Apply(m, steps[last]);
      RunKeepsFlusher(s0, steps[..last], m);
      StepKeepsFlusher(m, steps[last]);
    }
  }

  /** The kernel takes everything that is queued, unless the socket has failed. */
  function All(o: Out, data: seq<Byte>): (t: Took)
    ensures Possible(o, data, t)
  {
    if o.failed then Took(0, false) else Took(|o.pending| + |data|, true)
  }

  /** Steps of mutex holders, of the flushing bind handler and of the kernel. */
  predicate Delivers(step: Step) { (MovesData(step) && !step.Arrive?) || step.Writable? }

  predicate AllDeliver(steps: seq<Step>) { forall i :: 0 <= i < |steps| ==> Delivers(steps[i]) }

  /** The next step of whoever holds the mutex of `x`, or of the bind handler whose turn it is there. */
  function NextStep(s: State, x: Sock): Step
  {
    var i := I(s.rd, x);
    match i.mutex
    case Free => FlushLock
    case Arrived(_) => LookUp(x)
    case Forwarding(_, to) => SendPrefix(x, All(O(s.out, to), i.prePair))
    case PrefixSent(data, to) => SendChunk(x, All(O(s.out, to), data))
    case Buffering(_) => Buffer(x)
    case FlushLooking => FlushLook
    case FlushSending(to) => FlushSend(All(O(s.out, to), i.prePair))
  }

  /** How far the mutex holder still has to go. */
  function Togo(m: Mutex): nat
  {
    match m
    case Arrived(_) => 7
    case Forwarding(_, _) => 6
    case PrefixSent(_, _) => 5
    case Buffering(_) => 4
    case Free => 3
    case FlushLooking => 2
    case FlushSending(_) => 1
  }

  function Stage(b: Binder): nat { if b.FlushOwn? then 2 else if b.FlushPeer? then 1 else 0 }

  /** Someone can move at `x`: a mutex holder, or the bind handler. */
  predicate Movable(s: State, x: Sock)
  {
    && (!I(s.rd, x).mutex.Free? || (Flushing(s) && FlushTarget(s.binder) == x)) && FlusherOk(I(s.rd, x).mutex, s.binder, x)
  }

  /** The read side of `x`, the handler and the queues after that step. */
  function NextIn(s: State, x: Sock): In
  {
    var i := I(s.rd, x);
    match i.mutex
    case Free => i.(mutex := FlushLooking)
    case Arrived(data) => i.(mutex := if HasPeer(s, x) then Forwarding(data, s.pipe[x]) else Buffering(data))
    case Forwarding(data, to) => i.(prePair := [], mutex := PrefixSent(data, to))
    case PrefixSent(_, _) => i.(mutex := Free)
    case Buffering(data) =>
      if |i.prePair| + |data| > s.cap then i.(prePair := [], overflowed := true, mutex := Free)
      else i.(prePair := i.prePair + data, mutex := Free)
    case FlushLooking => if i.prePair == [] || !HasPeer(s, x) then i.(mutex := Free) else i.(mutex := FlushSending(s.pipe[x]))
    case FlushSending(_) => i.(prePair := [], mutex := Free)
  }

  function NextBinder(s: State, x: Sock): Binder
    requires Movable(s, x)
  {
    var i := I(s.rd, x);
    if i.mutex.FlushSending? || (i.mutex.FlushLooking? && (i.prePair == [] || !HasPeer(s, x))) then AfterFlush(s.binder)
    else s.binder
  }

  function NextOut(s: State, x: Sock): Outs
  {
    var i := I(s.rd, x);
    match i.mutex
    case Forwarding(_, to) => s.out[to := Forward(O(s.out, to), i.prePair, All(O(s.out, to), i.prePair))]
    case PrefixSent(data, to) => s.out[to := Forward(O(s.out, to), data, All(O(s.out, to), data))]
    case FlushSending(to) => s.out[to := Forward(O(s.out, to), i.prePair, All(O(s.out, to), i.prePair))]
    case _ => s.out
  }

  function Next(s: State, x: Sock): State
    requires Movable(s, x)
  {
    s.(rd := s.rd[x := NextIn(s, x)], binder := NextBinder(s, x), out := NextOut(s, x))
  }

  lemma NextIs(s: State, x: Sock)
    requires Movable(s, x)
    ensures Enabled(s, NextStep(s, x)) && Delivers(NextStep(s, x)) && Apply(s, NextStep(s, x)) == Next(s, x)
  {
    match I(s.rd, x).mutex
    case Free =>
    case Arrived(_) =>
    case Forwarding(_, to) =>
    case PrefixSent(data, to) =>
    case Buffering(_) =>
    case FlushLooking =>
    case FlushSending(to) =>
  }

  /** It moves the holder on, or the handler. */
  lemma NextAdvances(s: State, x: Sock)
    requires Movable(s, x)
    ensures I(Next(s, x).rd, x).received == I(s.rd, x).received
    ensures var s' := Next(s, x);
            || Stage(s'.binder) < Stage(s.binder)
            || (s'.binder == s.binder && Togo(I(s'.rd, x).mutex) < Togo(I(s.rd, x).mutex))
  {
  }

  lemma AllSurvives(o: Out, data: seq<Byte>)
    ensures Forward(o, data, All(o, data)).failed == o.failed
  {
  }

  /** No socket fails by it. */
  lemma NextSurvives(s: State, x: Sock, y: Sock)
    ensures O(NextOut(s, x), y).failed == O(s.out, y).failed
  {
    var i := I(s.rd, x);
    match i.mutex
    case Forwarding(_, to) => AllSurvives(O(s.out, to), i.prePair);
    case PrefixSent(data, to) => AllSurvives(O(s.out, to), data);
    case FlushSending(to) => AllSurvives(O(s.out, to), i.prePair);
    case _ =>
  }

  /** A chunk looked up before the publication is about to be buffered past the cap. */
  predicate Doomed(cap: nat, i: In) { i.mutex.Buffering? && |i.prePair| + |i.mutex.data| > cap }

  /** `c` feeds a healthy `d`, and nothing of `c` was or will be lost. */
  ghost predicate Feeds(s: State, c: Sock, d: Sock)
  {
    && Inv(s) && FlusherInv(s.rd, s.binder) && Paired(s.pipe, c, d) && !O(s.out, d).failed
    && !I(s.rd, c).overflowed && !Doomed(s.cap, I(s.rd, c))
  }

  /** Whose turn it is: while `c` waits for its flush the socket being flushed, then `c` itself. */
  function Turn(s: State, c: Sock): Sock { if AwaitsFlush(s.binder, c) then FlushTarget(s.binder) else c }

  predicate Busy(s: State, c: Sock) { AwaitsFlush(s.binder, c) || !I(s.rd, c).mutex.Free? }

  lemma TurnMovable(s: State, c: Sock, d: Sock)
    requires Feeds(s, c, d) && Busy(s, c)
    ensures Movable(s, Turn(s, c))
  {
    assert FlusherOk(I(s.rd, c).mutex, s.binder, c);
    assert FlusherOk(I(s.rd, Turn(s, c)).mutex, s.binder, Turn(s, c));
  }

  /** A published connection finds its peer, so no chunk of it is sent to the buffer any more. */
  lemma OwnStepSafe(s: State, c: Sock)
    requires HasPeer(s, c) && !I(s.rd, c).overflowed && !Doomed(s.cap, I(s.rd, c))
    ensures !NextIn(s, c).overflowed && !Doomed(s.cap, NextIn(s, c))
  {
  }

  /** The read side of `c` after a step at `x`. */
  lemma NextReads(s: State, x: Sock, c: Sock)
    requires Movable(s, x)
    ensures I(Next(s, x).rd, c) == if x == c then NextIn(s, c) else I(s.rd, c)
  {
  }

  lemma TurnKeepsFeeding(s: State, c: Sock, d: Sock)
    requires Feeds(s, c, d) && Busy(s, c)
    ensures Movable(s, Turn(s, c)) && Feeds(Next(s, Turn(s, c)), c, d)
    ensures I(Next(s, Turn(s, c)).rd, c).received == I(s.rd, c).received
  {
    var x := Turn(s, c);
    TurnMovable(s, c, d);
    NextIs(s, x);
    StepKeeps(s, NextStep(s, x));
    StepKeepsFlusher(s, NextStep(s, x));
    NextSurvives(s, x, d);
    NextReads(s, x, c);
    NextAdvances(s, x);
    ReaderFacts(s, c);
    OwnStepSafe(s, c);
  }

  /** There is less to do until everything of `c` is queued for its partner. */
  lemma TurnDecreases(s: State, c: Sock)
    requires Movable(s, Turn(s, c))
    ensures var x, s' := Turn(s, c), Next(s, Turn(s, c));
            || Stage(s'.binder) < Stage(s.binder)
            || (s'.binder == s.binder && Turn(s', c) == x && Togo(I(s'.rd, x).mutex) < Togo(I(s.rd, x).mutex))
  {
    NextAdvances(s, Turn(s, c));
  }

  /** All that `c` received, and nothing else, is on the wire of `d` behind its bind response. */
  predicate Delivered(s: State, c: Sock, d: Sock) { O(s.out, d).wire == O(s.out, d).head + I(s.rd, c).received }

  /** Steps of mutex holders, the flushing bind handler and the kernel can bring it all there. */
  ghost predicate CanDeliver(s: State, c: Sock, d: Sock)
  {
    exists steps, s' ::
      AllDeliver(steps) && Reaches(s, steps, s') && I(s'.rd, c).received == I(s.rd, c).received && Delivered(s', c, d)
  }

  /** A healthy queue that is taken whole leaves everything on the wire. */
  lemma WrittenOut(o: Out)
    requires Ordered(o) && !o.failed
    ensures Send(o, [], All(o, [])).wire == o.head + o.relayed
  {
    assert (o.pending + [])[..|o.pending|] == o.pending;
    assert o.wire + o.pending == o.head + o.relayed;
  }

  lemma AllRelayed(sent: seq<Byte>, i: In)
    requires Balanced(sent, i) && !i.overflowed && NotStranded(i) && i.mutex.Free?
    ensures i.received == sent
  {
    assert i.prePair + [] == [];
    assert sent + [] == sent;
  }

  /** Once nothing of `c` waits, the kernel only has to take the rest of `d`'s queue. */
  lemma LastWrite(s: State, c: Sock, d: Sock)
    requires Feeds(s, c, d) && !Busy(s, c)
    ensures var o := O(s.out, d);
            Delivered(Write(s, d, Send(o, [], All(o, []))), c, d)
  {
    ReaderFacts(s, c);
    assert Ordered(O(s.out, d)) && NotStranded(I(s.rd, c));
    AllRelayed(O(s.out, d).relayed, I(s.rd, c));
    WrittenOut(O(s.out, d));
  }

  lemma OneMore(steps: seq<Step>, step: Step)
    requires AllDeliver(steps) && Delivers(step)
    ensures AllDeliver(steps + [step])
  {
  }

  /** A run so far, on the way to delivery. */
  ghost predicate OnTheWay(s: State, steps: seq<Step>, m: State, c: Sock, d: Sock)
  {
    AllDeliver(steps) && Reaches(s, steps, m) && Feeds(m, c, d) && I(m.rd, c).received == I(s.rd, c).received
  }

  lemma OneTurn(s: State, steps: seq<Step>, m: State, c: Sock, d: Sock) returns (steps': seq<Step>)
    requires OnTheWay(s, steps, m, c, d) && Busy(m, c)
    ensures Movable(m, Turn(m, c)) && OnTheWay(s, steps', Next(m, Turn(m, c)), c, d)
  {
    var x := Turn(m, c);
    TurnKeepsFeeding(m, c, d);
    NextIs(m, x);
    Extend(s, steps, m, NextStep(m, x));
    OneMore(steps, NextStep(m, x));
    steps' := steps + [NextStep(m, x)];
  }

  lemma FinalWrite(s: State, steps: seq<Step>, m: State, c: Sock, d: Sock)
    requires OnTheWay(s, steps, m, c, d) && !Busy(m, c)
    ensures CanDeliver(s, c, d)
  {
    LastWrite(m, c, d);
    var last := Writable(d, All(O(m.out, d), []));
    Extend(s, steps, m, last);
    OneMore(steps, last);
    assert Apply(m, last) == Write(m, d, Send(O(m.out, d), [], All(O(m.out, d), [])));
  }

  lemma FeedsDelivers(s: State, c: Sock, d: Sock)
    requires Feeds(s, c, d)
    ensures CanDeliver(s, c, d)
  {
    var steps: seq<Step>, m := [], s;
    while Busy(m, c)
      invariant OnTheWay(s, steps, m, c, d)
      decreases Stage(m.binder), Togo(I(m.rd, Turn(m, c)).mutex)
    {
      steps := OneTurn(s, steps, m, c, d);
      TurnDecreases(m, c);
      m := Next(m, Turn(m, c));
    }
    FinalWrite(s, steps, m, c, d);
  }

  lemma DoomedKept(s: State, step: Step, c: Sock)
    requires Enabled(s, step) && (I(s.rd, c).overflowed || Doomed(s.cap, I(s.rd, c)))
    ensures Apply(s, step).cap == s.cap
    ensures I(Apply(s, step).rd, c).overflowed || Doomed(s.cap, I(Apply(s, step).rd, c))
  {
    if I(s.rd, c).overflowed {
      OverflowExactly(s, step, c);
    } else if step != Buffer(c) {
      BusyUntouched(s, step, c);
    }
  }

  /** Nobody but the mutex holder changes the read side of a connection whose chunk is being buffered. */
  lemma BusyUntouched(s: State, step: Step, c: Sock)
    requires Enabled(s, step) && I(s.rd, c).mutex.Buffering? && step != Buffer(c)
    ensures I(Apply(s, step).rd, c) == I(s.rd, c)
  {
    if !MovesReader(step) { ReadersUntouched(s, step); }
  }

  lemma {:induction false} DoomedRun(s: State, steps: seq<Step>, s': State, c: Sock)
    requires Reaches(s, steps, s') && (I(s.rd, c).overflowed || Doomed(s.cap, I(s.rd, c)))
    ensures s'.cap == s.cap && (I(s'.rd, c).overflowed || Doomed(s.cap, I(s'.rd, c)))
    decreases |steps|
  {
    if steps != [] {
      var last := |steps| - 1;
      var m :| Reaches(s, steps[..last], m) && Enabled(m, steps[last]) && s' == Apply(m, steps[last]);
      DoomedRun(s, steps[..last], m, c);
      DoomedKept(m, steps[last], c);
    }
  }

  lemma OthersKeepPartners(s: State, step: Step)
    requires Enabled(s, step) && !step.PublishPair?
    ensures Apply(s, step).partner == s.partner
  {
  }

  lemma PublishKeepsPartners(s: State, c: Sock, d: Sock)
    requires ConnectsInv(s.connects, s.data, s.partner)
    requires BinderInv(s.binder, s.connects, s.data, s.dying, s.pipe, s.partner)
    requires Enabled(s, PublishPair) && Paired(s.partner, c, d)
    ensures Paired(Apply(s, PublishPair).partner, c, d)
  {
  }

  lemma PartnerStays(s: State, step: Step, c: Sock, d: Sock)
    requires Inv(s) && Enabled(s, step) && Paired(s.partner, c, d)
    ensures Paired(Apply(s, step).partner, c, d)
  {
    if step.PublishPair? {
      PublishKeepsPartners(s, c, d);
    } else {
      OthersKeepPartners(s, step);
    }
  }

  lemma {:induction false} PartnerRun(s: State, steps: seq<Step>, s': State, c: Sock, d: Sock)
    requires Inv(s) && Reaches(s, steps, s') && Paired(s.partner, c, d)
    ensures Inv(s') && Paired(s'.partner, c, d)
    decreases |steps|
  {
    if steps != [] {
      var last := |steps| - 1;
      var m :| Reaches(s, steps[..last], m) && Enabled(m, steps[last]) && s' == Apply(m, steps[last]);
      PartnerRun(s, steps[..last], m, c, d);
      StepKeeps(m, steps[last]);
      PartnerStays(m, steps[last], c, d);
    }
  }

  lemma LostNotDelivered(s: State, c: Sock, d: Sock)
    requires Inv(s) && Paired(s.partner, c, d) && (I(s.rd, c).overflowed || Doomed(s.cap, I(s.rd, c)))
    ensures !Delivered(s, c, d)
  {
    var o, i := O(s.out, d), I(s.rd, c);
    assert Ordered(o) && Balanced(o.relayed, i);
    assert |o.wire| <= |o.head| + |o.relayed|;
    assert |o.relayed| < |i.received|;
  }

  /**
   Delivery.  In every reachable state in which `c` is published with a healthy `d`, the mutex
   holders, the bind handler and the kernel can put everything `c` has received on the wire of `d`,
   behind its bind response, if and only if no chunk of `c` was dropped at the cap and none that was
   looked up before the publication is about to be.
   */
  lemma DeliversIff(s0: State, run: seq<Step>, s: State, c: Sock, d: Sock)
    requires Init(s0) && Reaches(s0, run, s) && Paired(s.pipe, c, d) && !O(s.out, d).failed
    ensures CanDeliver(s, c, d) <==> !I(s.rd, c).overflowed && !Doomed(s.cap, I(s.rd, c))
  {
    InitInv(s0);
    RunKeeps(s0, run, s);
    RunKeepsFlusher(s0, run, s);
    if !I(s.rd, c).overflowed && !Doomed(s.cap, I(s.rd, c)) {
      FeedsDelivers(s, c, d);
    } else {
      ReaderFacts(s, c);
      forall steps, s' | Reaches(s, steps, s') ensures !Delivered(s', c, d) {
        PartnerRun(s, steps, s', c, d);
        DoomedRun(s, steps, s', c);
        LostNotDelivered(s', c, d);
      }
    }
  }

  /** So a further chunk of a published connection can always be taken and delivered behind the others. */
  lemma NextChunkDelivers(s0: State, run: seq<Step>, s: State, c: Sock, d: Sock, data: seq<Byte>)
    requires Init(s0) && Reaches(s0, run, s) && Paired(s.pipe, c, d) && !O(s.out, d).failed
    requires I(s.rd, c).mutex.Free? && !I(s.rd, c).overflowed
    ensures Enabled(s, Arrive(c, data))
    ensures var s' := Apply(s, Arrive(c, data));
            I(s'.rd, c).received == I(s.rd, c).received + data && CanDeliver(s', c, d)
  {
    InitInv(s0);
    RunKeeps(s0, run, s);
    ReaderFacts(s, c);
    Extend(s0, run, s, Arrive(c, data));
    DeliversIff(s0, run + [Arrive(c, data)], Apply(s, Arrive(c, data)), c, d);
  }

  // ---- Closing ---------------------------------------------------------------------------

  /** Not published: nothing is looked up from `c` or to it. */
  predicate Retired(s: State, c: Sock) { c in s.dying && c !in s.pipe && forall x :: x in s.pipe ==> s.pipe[x] != c }

  lemma OutStays(s: State, step: Step, c: Sock)
    requires BinderInv(s.binder, s.connects, s.data, s.dying, s.pipe, s.partner) && Enabled(s, step) && Retired(s, c)
    ensures Retired(Apply(s, step), c)
  {
  }

  /** A connection that is being closed is taken out of the tunnel in both directions and never gets back in. */
  lemma {:induction false} ClosedStaysOut(s: State, c: Sock, steps: seq<Step>, s': State)
    requires Inv(s) && Enabled(s, MarkDying(c)) && Reaches(Apply(s, MarkDying(c)), steps, s')
    ensures Inv(s') && Retired(s', c)
    decreases |steps|
  {
    if steps == [] {
      StepKeeps(s, MarkDying(c));
    } else {
      var last := |steps| - 1;
      var m :| Reaches(Apply(s, MarkDying(c)), steps[..last], m) && Enabled(m, steps[last]) && s' == Apply(m, steps[last]);
      ClosedStaysOut(s, c, steps[..last], m);
      StepKeeps(m, steps[last]);
      OutStays(m, steps[last], c);
    }
  }

  /** An expired CONNECT cannot be bound any more. */
  lemma ExpiredUnbindable(s: State, id: ConnId, c: Sock)
    requires Enabled(s, Expire(id))
    ensures !Enabled(Apply(s, Expire(id)), BindFirst(c, id)) && !Enabled(Apply(s, Expire(id)), BindSecond(c, id))
  {
  }

  // ---- Past the buffer cap ---------------------------------------------------------------

  /** Connection 1 asks to be the first data connection of CONNECTION-ID 0. */
  lemma AskOne(s0: State) returns (steps: seq<Step>, s: State)
    requires Init(s0)
    ensures Reaches(s0, steps, s)
    ensures s == s0.(connects := map[0 := First(1)], data := {1}, binder := AnswerFirst(1))
  {
    var s1 := Apply(s0, Connect(0));
    Extend(s0, [], s0, Connect(0));
    s := Apply(s1, BindFirst(1, 0));
    Extend(s0, [] + [Connect(0)], s1, BindFirst(1, 0));
    steps := [] + [Connect(0)] + [BindFirst(1, 0)];
    assert s.connects == map[0 := First(1)] && s.data == {1};
  }

  /** It is answered. */
  lemma BindOne(s0: State) returns (steps: seq<Step>, s: State)
    requires Init(s0)
    ensures Reaches(s0, steps, s) && s.cap == s0.cap && s.data == {1} && s.dying == {} && s.pipe == map[]
    ensures s.rd == map[] && s.connects == map[0 := First(1)] && s.binder.NoBinder?
  {
    var st, s1 := AskOne(s0);
    var answer := SendResponse([9], Took(0, true));
    Extend(s0, st, s1, answer);
    steps, s := st + [answer], DoRespond(s1, [9], Took(0, true));
  }

  /** A chunk arrives on it and finds no partner. */
  lemma ArriveOne(s0: State, st: seq<Step>, s1: State, chunk: seq<Byte>) returns (steps: seq<Step>)
    requires Reaches(s0, st, s1) && 1 in s1.data && s1.rd == map[] && s1.pipe == map[]
    ensures Reaches(s0, steps, Read(s1, 1, In([] + chunk, [], Buffering(chunk), false)))
  {
    var s2 := Read(s1, 1, In([] + chunk, [], Arrived(chunk), false));
    assert Apply(s1, Arrive(1, chunk)) == s2;
    Extend(s0, st, s1, Arrive(1, chunk));
    assert DoLookUp(s2, 1) == Read(s1, 1, In([] + chunk, [], Buffering(chunk), false)) by {
      assert s1.rd[1 := In([] + chunk, [], Arrived(chunk), false)][1 := In([] + chunk, [], Buffering(chunk), false)]
             == s1.rd[1 := In([] + chunk, [], Buffering(chunk), false)];
    }
    Extend(s0, st + [Arrive(1, chunk)], s2, LookUp(1));
    steps := st + [Arrive(1, chunk)] + [LookUp(1)];
  }

  /**
   A peer that streams past the cap before the pair exists loses bytes, and the connection is
   still there to be paired: closing it is only queued.
   */
  lemma OverflowHappens(s0: State) returns (steps: seq<Step>, s: State)
    requires Init(s0)
    ensures Reaches(s0, steps, s) && I(s.rd, 1).overflowed && 1 !in s.dying && s.connects == map[0 := First(1)]
  {
    var st1, s1 := BindOne(s0);
    var chunk := Zeros(s0.cap + 1);
    var st2 := ArriveOne(s0, st1, s1, chunk);
    var s2 := Read(s1, 1, In([] + chunk, [], Buffering(chunk), false));
    Extend(s0, st2, s2, Buffer(1));
    steps, s := st2 + [Buffer(1)], DoBuffer(s2, 1);
  }
}
