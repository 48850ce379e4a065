/**
 The data plane of UDP allocations: a ChannelData frame from one client towards a peer, and the
 local-relay shortcut taken when the peer is another allocation of the same server.  The shortcut
 hands the data straight to the destination allocation; without it the data leaves through the
 sender's relay socket and comes back on the destination's.
 */
module Hairpin {
  import opened Bytes
  import opened Options
  import opened ServerTables
  import CD = ChannelData
  import SM = StunMessage

  datatype Address = Address(ip: nat, v6: bool, port: Port)

  datatype Chan = Chan(number: nat, peer: Address, expiry: int)

  datatype Perm = Perm(peer: Address, expiry: int)

  /** The channels and permissions of one allocation. */
  datatype Plane = Plane(channels: seq<Chan>, permissions: seq<Perm>)

  /** Where each socket is bound, which socket an address reaches, and which clients are reached over IPv6. */
  datatype Kernel = Kernel(bound: map<Sock, Address>, at: map<Address, Sock>, v6Clients: set<Addr>)

  datatype Server = Server(objs: Objs, x: Index, planes: map<Id, Plane>, relayIp: nat, relayV6: bool, kernel: Kernel)

  /** The largest UDP payload towards an address of either family. */
  const MAX_V4 := 65507
  const MAX_V6 := 65527

  function Limit(v6: bool): nat { if v6 then MAX_V6 else MAX_V4 }

  datatype Packet = ChannelFrame(bytes: seq<Byte>) | Indication(peer: Address, data: seq<Byte>)

  /** What becomes of a frame. */
  datatype Outcome =
    | Dropped
    | ToClient(client: Addr, control: Option<Sock>, packet: Packet)
    | Outside(from: Address, to: Address, data: seq<Byte>)

  /** `relayedAddr`. */
  function Relayed(s: Server, a: Alloc): Address { Address(s.relayIp, s.relayV6, a.relayPort) }

  function PlaneOf(s: Server, id: Id): Plane { if id in s.planes then s.planes[id] else Plane([], []) }

  /** Octets of a packet on a UDP control path: the indication carries the peer, the data, SOFTWARE and FINGERPRINT. */
  function WireSize(p: Packet): nat
  {
    match p
    case ChannelFrame(bytes) => |bytes|
    case Indication(peer, data) => 20 + (if peer.v6 then 24 else 12) + 4 + Padded(|data|) + 12 + 8
  }

  const XOR_PEER_ADDRESS := 0x12
  const DATA := 0x13

  /** It is the length of the encoded Data indication. */
  lemma IndicationSize(peer: Address, data: seq<Byte>, t: nat, tid: seq<Byte>, address: seq<Byte>, software: seq<Byte>,
                       fingerprint: seq<Byte>)
    requires |tid| == 12 && |address| == (if peer.v6 then 20 else 8) && |software| == |"stserver"| && |fingerprint| == 4
    ensures WireSize(Indication(peer, data)) ==
            |SM.Encoding(t, tid, [SM.Attr(XOR_PEER_ADDRESS, address), SM.Attr(DATA, data), SM.Attr(SM.SOFTWARE, software),
                                  SM.Attr(SM.FINGERPRINT, fingerprint)])|
  {
    var a, b, c, d := SM.Attr(XOR_PEER_ADDRESS, address), SM.Attr(DATA, data), SM.Attr(SM.SOFTWARE, software),
                      SM.Attr(SM.FINGERPRINT, fingerprint);
    assert SM.Body([a, b, c, d]) == SM.Tlv(a) + SM.Body([b, c, d]);
    assert SM.Body([b, c, d]) == SM.Tlv(b) + SM.Body([c, d]);
    assert SM.Body([c, d]) == SM.Tlv(c) + SM.Body([d]);
    assert SM.Body([d]) == SM.Tlv(d) + SM.Body([]);
  }

  // ---- Searches ------------------------------------------------------------------------

  function ByNumber(cs: seq<Chan>, number: nat): Option<Chan>
  {
    if cs == [] then None else if cs[0].number == number then Some(cs[0]) else ByNumber(cs[1..], number)
  }

  function ByPeer(cs: seq<Chan>, peer: Address, now: int): Option<Chan>
  {
    if cs == [] then None
    else if cs[0].peer == peer && cs[0].expiry > now then Some(cs[0])
    else ByPeer(cs[1..], peer, now)
  }

  predicate SameIp(a: Address, b: Address) { a.ip == b.ip && a.v6 == b.v6 }

  predicate Permitted(ps: seq<Perm>, peer: Address, now: int)
  {
    exists i :: 0 <= i < |ps| && SameIp(ps[i].peer, peer) && ps[i].expiry > now
  }

  /** Channel `i` is the first with this number. */
  predicate FirstNumbered(cs: seq<Chan>, number: nat, i: int)
  {
    0 <= i < |cs| && cs[i].number == number && forall j :: 0 <= j < i ==> cs[j].number != number
  }

  /** Channel `i` is the first unexpired one bound to this peer. */
  predicate FirstOpen(cs: seq<Chan>, peer: Address, now: int, i: int)
  {
    && 0 <= i < |cs| && cs[i].peer == peer && cs[i].expiry > now
    && forall j :: 0 <= j < i ==> !(cs[j].peer == peer && cs[j].expiry > now)
  }

  /** The search by number finds the first channel with it, and nothing only if there is none. */
  lemma {:induction false} ByNumberIff(cs: seq<Chan>, number: nat)
    ensures ByNumber(cs, number).None? <==> forall i :: 0 <= i < |cs| ==> cs[i].number != number
    ensures ByNumber(cs, number).Some? ==> exists i :: FirstNumbered(cs, number, i) && ByNumber(cs, number) == Some(cs[i])
  {
    if cs != [] {
      if cs[0].number == number {
        assert FirstNumbered(cs, number, 0);
      } else {
        ByNumberIff(cs[1..], number);
        if i :| FirstNumbered(cs[1..], number, i) && ByNumber(cs[1..], number) == Some(cs[1..][i]) {
          assert FirstNumbered(cs, number, i + 1);
        }
        assert forall i :: 1 <= i < |cs| ==> cs[i] == cs[1..][i - 1];
      }
    }
  }

  /** The search by peer finds the first unexpired channel bound to it, and nothing only if there is none. */
  lemma {:induction false} ByPeerIff(cs: seq<Chan>, peer: Address, now: int)
    ensures ByPeer(cs, peer, now).None? <==> forall i :: 0 <= i < |cs| ==> !(cs[i].peer == peer && cs[i].expiry > now)
    ensures ByPeer(cs, peer, now).Some? ==> exists i :: FirstOpen(cs, peer, now, i) && ByPeer(cs, peer, now) == Some(cs[i])
  {
    if cs != [] {
      if cs[0].peer == peer && cs[0].expiry > now {
        assert FirstOpen(cs, peer, now, 0);
      } else {
        ByPeerIff(cs[1..], peer, now);
        if i :| FirstOpen(cs[1..], peer, now, i) && ByPeer(cs[1..], peer, now) == Some(cs[1..][i]) {
          assert FirstOpen(cs, peer, now, i + 1);
        }
        assert forall i :: 1 <= i < |cs| ==> cs[i] == cs[1..][i - 1];
      }
    }
  }

  lemma FirstNumberedFound(cs: seq<Chan>, number: nat, i: nat)
    requires FirstNumbered(cs, number, i)
    ensures ByNumber(cs, number) == Some(cs[i])
  {
    ByNumberIff(cs, number);
    var k :| FirstNumbered(cs, number, k) && ByNumber(cs, number) == Some(cs[k]);
    assert k == i;
  }

  lemma FirstOpenFound(cs: seq<Chan>, peer: Address, now: int, i: nat)
    requires FirstOpen(cs, peer, now, i)
    ensures ByPeer(cs, peer, now) == Some(cs[i])
  {
    ByPeerIff(cs, peer, now);
    var k :| FirstOpen(cs, peer, now, k) && ByPeer(cs, peer, now) == Some(cs[k]);
    assert k == i;
  }

  method FindByNumber(cs: seq<Chan>, number: nat) returns (r: Option<Chan>)
    ensures r == ByNumber(cs, number)
  {
    for i := 0 to |cs|
      invariant ByNumber(cs, number) == ByNumber(cs[i..], number)
    {
      if cs[i].number == number { return Some(cs[i]); }
      assert cs[i..][1..] == cs[i + 1..];
    }
    r := None;
  }

  method FindByPeer(cs: seq<Chan>, peer: Address, now: int) returns (r: Option<Chan>)
    ensures r == ByPeer(cs, peer, now)
  {
    for i := 0 to |cs|
      invariant ByPeer(cs, peer, now) == ByPeer(cs[i..], peer, now)
    {
      if cs[i].peer == peer && cs[i].expiry > now { return Some(cs[i]); }
      assert cs[i..][1..] == cs[i + 1..];
    }
    r := None;
  }

  method FindPermission(ps: seq<Perm>, peer: Address, now: int) returns (r: bool)
    ensures r == Permitted(ps, peer, now)
  {
    for i := 0 to |ps|
      invariant forall j :: 0 <= j < i ==> !(SameIp(ps[j].peer, peer) && ps[j].expiry > now)
    {
      if SameIp(ps[i].peer, peer) && ps[i].expiry > now { return true; }
    }
    r := false;
  }

  // ---- Peer to client ------------------------------------------------------------------

  /** The packet for data from `peer`: a bound channel first, else a permission, else nothing. */
  function PacketFor(p: Plane, peer: Address, data: seq<Byte>, now: int): Option<Packet>
  {
    var c := ByPeer(p.channels, peer, now);
    if c.Some? && CD.ChannelValid(c.value.number) && |data| <= CD.MAX_DATA
    then Some(ChannelFrame(CD.Frame(c.value.number, data)))
    else if Permitted(p.permissions, peer, now) then Some(Indication(peer, data))
    else None
  }

  /** `forwardToClient`: over UDP a packet that does not fit a datagram is lost. */
  function Forward(k: Kernel, a: Alloc, p: Plane, peer: Address, data: seq<Byte>, now: int): Outcome
  {
    var packet := PacketFor(p, peer, data, now);
    if packet.None? || (a.control.None? && WireSize(packet.value) > Limit(a.client in k.v6Clients)) then Dropped
    else ToClient(a.client, a.control, packet.value)
  }

  method ForwardToClient(k: Kernel, a: Alloc, p: Plane, peer: Address, data: seq<Byte>, now: int) returns (o: Outcome)
    ensures o == Forward(k, a, p, peer, data, now)
  {
    var packet: Option<Packet> := None;
    var c := FindByPeer(p.channels, peer, now);
    if c.Some? {
      var n, frame := CD.Wrap(c.value.number, data);
      if n > 0 { packet := Some(ChannelFrame(frame)); }
    }
    if packet.None? {
      var permitted := FindPermission(p.permissions, peer, now);
      if permitted { packet := Some(Indication(peer, data)); }
    }
    if packet.None? { return Dropped; }
    if a.control.None? && WireSize(packet.value) > Limit(a.client in k.v6Clients) { return Dropped; }
    o := ToClient(a.client, a.control, packet.value);
  }

  // ---- Client to peer ------------------------------------------------------------------

  /** A datagram on a bound socket: read by whichever allocation owns it. */
  function Arrives(s: Server, h: Sock, from: Address, to: Address, data: seq<Byte>, now: int): Outcome
  {
    var id := Lookup(s.x, ByRelaySock(h));
    if id.None? || id.value !in s.objs then Outside(from, to, data)
    else Forward(s.kernel, s.objs[id.value], PlaneOf(s, id.value), from, data, now)
  }

  /** `sendto` on a relay socket: the source is where that socket is bound.  `now` is when the data arrives. */
  function SendTo(s: Server, h: Sock, to: Address, data: seq<Byte>, now: int): Outcome
  {
    if h !in s.kernel.bound || |data| > Limit(to.v6) then Dropped
    else if to in s.kernel.at then Arrives(s, s.kernel.at[to], s.kernel.bound[h], to, data, now)
    else Outside(s.kernel.bound[h], to, data)
  }

  /** The allocation the shortcut would deliver to: UDP relay, UDP control, and not the sender itself. */
  function LocalPeer(s: Server, id: Id, peer: Address): Option<Id>
  {
    var dst := if SameIp(peer, Address(s.relayIp, s.relayV6, peer.port)) then Lookup(s.x, ByRelayAddr(peer.port)) else None;
    if dst.Some? && dst.value in s.objs && dst.value != id && s.objs[dst.value].transport.Dgram?
       && s.objs[dst.value].control.None? && s.objs[dst.value].relaySock.Some?
    then dst else None
  }

  /** `handleChannelDataFrame` for the data of a frame on a channel of allocation `id`. */
  function Handle(s: Server, id: Id, channel: nat, data: seq<Byte>, now: int, shortcut: bool): Outcome
    requires id in s.objs
  {
    var a := s.objs[id];
    var c := ByNumber(PlaneOf(s, id).channels, channel);
    if data == [] || c.None? || !(a.transport.Dgram? && a.relaySock.Some?) then Dropped
    else
      var peer := c.value.peer;
      var dst := if shortcut then LocalPeer(s, id, peer) else None;
      if dst.Some? then Forward(s.kernel, s.objs[dst.value], PlaneOf(s, dst.value), Relayed(s, a), data, now)
      else SendTo(s, a.relaySock.value, peer, data, now)
  }

  /** The frame as the client sent it. */
  function HandleFrame(s: Server, id: Id, frame: seq<Byte>, now: int, shortcut: bool): Outcome
    requires id in s.objs
  {
    match CD.Unwrap(frame)
    case NotAFrame => Dropped
    case Unwrapped(channel, data, size) => Handle(s, id, channel, data, now, shortcut)
  }

  // ---- The shortcut and the two-hop path -----------------------------------------------

  /** Every live relay socket is bound to the relayed address of its allocation and reads that address only. */
  predicate KernelAgrees(s: Server)
  {
    && (forall id :: id in s.objs && s.objs[id].relaySock.Some? ==>
          var h := s.objs[id].relaySock.value;
          var addr := Relayed(s, s.objs[id]);
          h in s.kernel.bound && s.kernel.bound[h] == addr && addr in s.kernel.at && s.kernel.at[addr] == h)
    && (forall addr :: addr in s.kernel.at && s.kernel.at[addr] in s.kernel.bound ==> s.kernel.bound[s.kernel.at[addr]] == addr)
  }

  /**
   What the relay socket cannot send in one datagram but the client path can: more than an IPv4
   relay address takes, not more than an IPv6 client does once it is wrapped for a bound channel.
   */
  predicate OnlyDirect(k: Kernel, relayV6: bool, a: Alloc, p: Plane, peer: Address, data: seq<Byte>, now: int)
  {
    && !relayV6 && a.client in k.v6Clients
    && MAX_V4 < |data| <= MAX_V6 - CD.HEADER - 3
    && var c := ByPeer(p.channels, peer, now);
       c.Some? && CD.ChannelValid(c.value.number)
  }

  lemma PaddedFits(n: nat)
    ensures CD.HEADER + Padded(n) <= MAX_V6 <==> n <= MAX_V6 - CD.HEADER - 3
  {
    assert MAX_V6 - CD.HEADER - 3 == 4 * 16380;
    assert Padded(n) == 4 * (Padded(n) / 4);
  }

  /** Data too long for the relay socket reaches a UDP client on the direct path exactly then. */
  lemma OversizeDropped(k: Kernel, relayV6: bool, a: Alloc, p: Plane, peer: Address, data: seq<Byte>, now: int)
    requires a.control.None? && |data| > Limit(relayV6)
    ensures Forward(k, a, p, peer, data, now) == Dropped <==> !OnlyDirect(k, relayV6, a, p, peer, data, now)
  {
    PaddedFits(|data|);
  }

  /** The destination found by relayed address is the one whose relay socket reads that address. */
  lemma SameDestination(s: Server, id: Id, peer: Address, dst: Id)
    requires Coherent(s.objs, s.x) && KernelAgrees(s) && LocalPeer(s, id, peer) == Some(dst)
    ensures dst in s.objs && s.objs[dst].control.None? && peer == Relayed(s, s.objs[dst])
    ensures peer in s.kernel.at && Lookup(s.x, ByRelaySock(s.kernel.at[peer])) == Some(dst)
  {
    assert Live(s.objs, dst, ByRelayAddr(peer.port));
    var h := s.objs[dst].relaySock.value;
    assert peer == Relayed(s, s.objs[dst]);
    assert Live(s.objs, dst, ByRelaySock(h));
  }

  /** The peer that the channel of a frame is bound to. */
  function BoundPeer(s: Server, id: Id, frame: seq<Byte>): Option<Address>
  {
    match CD.Unwrap(frame)
    case NotAFrame => None
    case Unwrapped(channel, _, _) =>
      var c := ByNumber(PlaneOf(s, id).channels, channel);
      if c.Some? then Some(c.value.peer) else None
  }

  /** The frame goes to another local allocation that can be given it directly only. */
  predicate Differs(s: Server, id: Id, frame: seq<Byte>, now: int)
    requires id in s.objs
  {
    var u, a, peer := CD.Unwrap(frame), s.objs[id], BoundPeer(s, id, frame);
    var dst := if peer.Some? then LocalPeer(s, id, peer.value) else None;
    && u.Unwrapped? && a.transport.Dgram? && a.relaySock.Some? && dst.Some?
    && OnlyDirect(s.kernel, s.relayV6, s.objs[dst.value], PlaneOf(s, dst.value), Relayed(s, a), u.data, now)
  }

  /** Delivery to a local peer: over the kernel the data is lost when the relay address is too small for it. */
  lemma TwoHops(s: Server, id: Id, dst: Id, peer: Address, data: seq<Byte>, now: int)
    requires Coherent(s.objs, s.x) && KernelAgrees(s) && id in s.objs && s.objs[id].relaySock.Some?
    requires LocalPeer(s, id, peer) == Some(dst)
    ensures dst in s.objs
    ensures SendTo(s, s.objs[id].relaySock.value, peer, data, now) ==
            if |data| > Limit(s.relayV6) then Dropped
            else Forward(s.kernel, s.objs[dst], PlaneOf(s, dst), Relayed(s, s.objs[id]), data, now)
  {
    SameDestination(s, id, peer, dst);
  }

  /**
   For every coherent table state and every frame, the shortcut gives the same client the same
   packet, the same drop or the same send outside as the two hops, if and only if the frame is not
   one that only the direct path can carry; then the two hops drop what the shortcut delivers.
   */
  lemma ShortcutInvisibleIff(s: Server, id: Id, frame: seq<Byte>, now: int)
    requires Coherent(s.objs, s.x) && KernelAgrees(s) && id in s.objs
    ensures HandleFrame(s, id, frame, now, true) == HandleFrame(s, id, frame, now, false) <==> !Differs(s, id, frame, now)
    ensures Differs(s, id, frame, now) ==>
              HandleFrame(s, id, frame, now, true).ToClient? && HandleFrame(s, id, frame, now, false) == Dropped
  {
    var u := CD.Unwrap(frame);
    if u.Unwrapped? && u.data != [] {
      var a := s.objs[id];
      var c := ByNumber(PlaneOf(s, id).channels, u.channel);
      if c.Some? && a.transport.Dgram? && a.relaySock.Some? {
        var dst := LocalPeer(s, id, c.value.peer);
        if dst.Some? {
          SameDestination(s, id, c.value.peer, dst.value);
          TwoHops(s, id, dst.value, c.value.peer, u.data, now);
          if |u.data| > Limit(s.relayV6) {
            OversizeDropped(s.kernel, s.relayV6, s.objs[dst.value], PlaneOf(s, dst.value), Relayed(s, a), u.data, now);
          }
        }
      }
    }
  }

  /** When relay and clients are of one family the shortcut is invisible for every frame. */
  lemma ShortcutInvisible(s: Server, id: Id, frame: seq<Byte>, now: int)
    requires Coherent(s.objs, s.x) && KernelAgrees(s) && id in s.objs
    requires s.relayV6 || s.kernel.v6Clients == {}
    ensures HandleFrame(s, id, frame, now, true) == HandleFrame(s, id, frame, now, false)
  {
    ShortcutInvisibleIff(s, id, frame, now);
  }

  /** Nothing that counts now has run out later. */
  predicate NothingExpires(p: Plane, now: int, later: int)
  {
    && (forall i :: 0 <= i < |p.channels| && p.channels[i].expiry > now ==> p.channels[i].expiry > later)
    && (forall i :: 0 <= i < |p.permissions| && p.permissions[i].expiry > now ==> p.permissions[i].expiry > later)
  }

  lemma {:induction false} ByPeerLater(cs: seq<Chan>, peer: Address, now: int, later: int)
    requires now <= later && forall i :: 0 <= i < |cs| && cs[i].expiry > now ==> cs[i].expiry > later
    ensures ByPeer(cs, peer, later) == ByPeer(cs, peer, now)
  {
    if cs != [] { ByPeerLater(cs[1..], peer, now, later); }
  }

  /** The time the second hop takes does not matter unless something expires meanwhile. */
  lemma DelayHarmless(k: Kernel, a: Alloc, p: Plane, peer: Address, data: seq<Byte>, now: int, later: int)
    requires now <= later && NothingExpires(p, now, later)
    ensures Forward(k, a, p, peer, data, later) == Forward(k, a, p, peer, data, now)
  {
    ByPeerLater(p.channels, peer, now, later);
    if i :| 0 <= i < |p.permissions| && SameIp(p.permissions[i].peer, peer) && p.permissions[i].expiry > now {
      assert p.permissions[i].expiry > later;
    }
  }

  /** The allocation lets data from `peer` through. */
  predicate Admits(p: Plane, peer: Address, now: int)
  {
    ByPeer(p.channels, peer, now).Some? || Permitted(p.permissions, peer, now)
  }

  /** Who may get a frame: the allocation whose relayed address the channel is bound to, if it admits the sender. */
  predicate Entitled(s: Server, id: Id, frame: seq<Byte>, now: int, dst: Id)
    requires id in s.objs
  {
    dst in s.objs && BoundPeer(s, id, frame) == Some(Relayed(s, s.objs[dst])) && Admits(PlaneOf(s, dst), Relayed(s, s.objs[id]), now)
  }

  lemma OnlyEntitled(s: Server, id: Id, frame: seq<Byte>, now: int, shortcut: bool)
    requires Coherent(s.objs, s.x) && KernelAgrees(s) && id in s.objs && HandleFrame(s, id, frame, now, shortcut).ToClient?
    ensures exists dst :: Entitled(s, id, frame, now, dst) && s.objs[dst].client == HandleFrame(s, id, frame, now, shortcut).client
  {
    var u := CD.Unwrap(frame);
    var peer := ByNumber(PlaneOf(s, id).channels, u.channel).value.peer;
    var direct := if shortcut then LocalPeer(s, id, peer) else None;
    if direct.Some? {
      SameDestination(s, id, peer, direct.value);
      assert Entitled(s, id, frame, now, direct.value);
    } else {
      var dst := Lookup(s.x, ByRelaySock(s.kernel.at[peer])).value;
      assert Live(s.objs, dst, ByRelaySock(s.kernel.at[peer]));
      assert Entitled(s, id, frame, now, dst);
    }
  }

  /**
   A client's ChannelData frame.  A client gets it only if the sender's channel is bound to its
   allocation's relayed address and it admits the sender, with the shortcut or without; and which
   way is taken shows only in frames that one of them cannot carry.
   */
  method HandleChannelDataFrame(s: Server, id: Id, frame: seq<Byte>, now: int, shortcut: bool) returns (o: Outcome)
    requires id in s.objs
    ensures o == HandleFrame(s, id, frame, now, shortcut)
    ensures Coherent(s.objs, s.x) && KernelAgrees(s) ==>
              && (o == HandleFrame(s, id, frame, now, !shortcut) <==> !Differs(s, id, frame, now))
              && (o.ToClient? ==> exists dst :: Entitled(s, id, frame, now, dst) && s.objs[dst].client == o.client)
  {
    o := Dispatch(s, id, frame, now, shortcut);
    if Coherent(s.objs, s.x) && KernelAgrees(s) {
      ShortcutInvisibleIff(s, id, frame, now);
      if o.ToClient? { OnlyEntitled(s, id, frame, now, shortcut); }
    }
  }

  method Dispatch(s: Server, id: Id, frame: seq<Byte>, now: int, shortcut: bool) returns (o: Outcome)
    requires id in s.objs
    ensures o == HandleFrame(s, id, frame, now, shortcut)
  {
    var u := CD.Unwrap(frame);
    if u.NotAFrame? || u.data == [] { return Dropped; }
    var a := s.objs[id];
    var c := FindByNumber(PlaneOf(s, id).channels, u.channel);
    if c.None? || !(a.transport.Dgram? && a.relaySock.Some?) { return Dropped; }
    if shortcut {
      var dst := LocalPeer(s, id, c.value.peer);
      if dst.Some? {
        o := ForwardToClient(s.kernel, s.objs[dst.value], PlaneOf(s, dst.value), Relayed(s, a), u.data, now);
        return;
      }
    }
    o := SendTo(s, a.relaySock.value, c.value.peer, u.data, now);
  }

  // ---- What becomes of a frame ---------------------------------------------------------

  /** A frame on a number that no channel of the sender has is dropped. */
  lemma UnboundDropped(s: Server, id: Id, channel: nat, data: seq<Byte>, tail: seq<Byte>, now: int, shortcut: bool)
    requires id in s.objs && CD.ChannelValid(channel) && |data| <= CD.MAX_DATA
    requires forall i :: 0 <= i < |PlaneOf(s, id).channels| ==> PlaneOf(s, id).channels[i].number != channel
    ensures HandleFrame(s, id, CD.Frame(channel, data) + tail, now, shortcut) == Dropped
  {
    CD.RoundTrip(channel, data, tail);
    ByNumberIff(PlaneOf(s, id).channels, channel);
  }

  /** The sender can relay, and its channel `i` is the one a frame on its number selects. */
  predicate Sends(s: Server, id: Id, i: nat, data: seq<Byte>)
  {
    && id in s.objs && s.objs[id].transport.Dgram? && s.objs[id].relaySock.Some?
    && i < |PlaneOf(s, id).channels|
    && FirstNumbered(PlaneOf(s, id).channels, PlaneOf(s, id).channels[i].number, i)
    && CD.ChannelValid(PlaneOf(s, id).channels[i].number) && 0 < |data| <= CD.MAX_DATA
  }

  /** The frame that selects channel `i`, whatever follows it in the buffer. */
  function FrameOn(s: Server, id: Id, i: nat, data: seq<Byte>, tail: seq<Byte>): seq<Byte>
    requires i < |PlaneOf(s, id).channels|
  {
    CD.Frame(PlaneOf(s, id).channels[i].number, data) + tail
  }

  lemma SelectedPeer(s: Server, id: Id, i: nat, data: seq<Byte>, tail: seq<Byte>, now: int, shortcut: bool)
    requires Sends(s, id, i, data)
    ensures var peer := PlaneOf(s, id).channels[i].peer;
            var dst := if shortcut then LocalPeer(s, id, peer) else None;
            HandleFrame(s, id, FrameOn(s, id, i, data, tail), now, shortcut) ==
            if dst.Some? then Forward(s.kernel, s.objs[dst.value], PlaneOf(s, dst.value), Relayed(s, s.objs[id]), data, now)
            else SendTo(s, s.objs[id].relaySock.value, peer, data, now)
  {
    var cs := PlaneOf(s, id).channels;
    CD.RoundTrip(cs[i].number, data, tail);
    FirstNumberedFound(cs, cs[i].number, i);
  }

  /** A peer that no local socket has gets exactly the data, from the sender's relayed address, or nothing if it is too long. */
  lemma RemotePeerReached(s: Server, id: Id, i: nat, data: seq<Byte>, tail: seq<Byte>, now: int, shortcut: bool)
    requires Coherent(s.objs, s.x) && KernelAgrees(s) && Sends(s, id, i, data)
    requires PlaneOf(s, id).channels[i].peer !in s.kernel.at
    ensures var peer := PlaneOf(s, id).channels[i].peer;
            HandleFrame(s, id, FrameOn(s, id, i, data, tail), now, shortcut) ==
            if |data| <= Limit(peer.v6) then Outside(Relayed(s, s.objs[id]), peer, data) else Dropped
  {
    var peer := PlaneOf(s, id).channels[i].peer;
    SelectedPeer(s, id, i, data, tail, now, shortcut);
    var dst := LocalPeer(s, id, peer);
    if dst.Some? { SameDestination(s, id, peer, dst.value); }
  }

  /** A peer that is the relayed address of an allocation here: its client is served as if the data came from the sender's relay. */
  lemma LocalPeerServed(s: Server, id: Id, dst: Id, i: nat, data: seq<Byte>, tail: seq<Byte>, now: int, shortcut: bool)
    requires Coherent(s.objs, s.x) && KernelAgrees(s) && Sends(s, id, i, data) && |data| <= Limit(s.relayV6)
    requires dst in s.objs && s.objs[dst].relaySock.Some? && PlaneOf(s, id).channels[i].peer == Relayed(s, s.objs[dst])
    ensures HandleFrame(s, id, FrameOn(s, id, i, data, tail), now, shortcut)
            == Forward(s.kernel, s.objs[dst], PlaneOf(s, dst), Relayed(s, s.objs[id]), data, now)
  {
    var peer := Relayed(s, s.objs[dst]);
    SelectedPeer(s, id, i, data, tail, now, shortcut);
    assert Live(s.objs, dst, ByRelaySock(s.objs[dst].relaySock.value));
    var direct := LocalPeer(s, id, peer);
    if direct.Some? {
      SameDestination(s, id, peer, direct.value);
      assert s.kernel.at[peer] == s.objs[dst].relaySock.value;
    }
  }

  /** The packet fits the client's path: always over TCP, else in a datagram of its family. */
  predicate FitsClient(k: Kernel, a: Alloc, packet: Packet)
  {
    a.control.Some? || WireSize(packet) <= Limit(a.client in k.v6Clients)
  }

  /** Who has an open channel for the peer gets the data in a frame on the first such channel. */
  lemma ChannelServes(k: Kernel, a: Alloc, p: Plane, peer: Address, j: nat, data: seq<Byte>, now: int)
    requires FirstOpen(p.channels, peer, now, j) && CD.ChannelValid(p.channels[j].number) && |data| <= CD.MAX_DATA
    ensures var packet := ChannelFrame(CD.Frame(p.channels[j].number, data));
            Forward(k, a, p, peer, data, now) == if FitsClient(k, a, packet) then ToClient(a.client, a.control, packet) else Dropped
  {
    FirstOpenFound(p.channels, peer, now, j);
  }

  /** Who has none but an unexpired permission for the peer's IP gets a Data indication that names the peer. */
  lemma PermissionServes(k: Kernel, a: Alloc, p: Plane, peer: Address, j: nat, data: seq<Byte>, now: int)
    requires forall i :: 0 <= i < |p.channels| ==> !(p.channels[i].peer == peer && p.channels[i].expiry > now)
    requires j < |p.permissions| && SameIp(p.permissions[j].peer, peer) && p.permissions[j].expiry > now
    ensures Forward(k, a, p, peer, data, now) ==
            if FitsClient(k, a, Indication(peer, data)) then ToClient(a.client, a.control, Indication(peer, data)) else Dropped
  {
    ByPeerIff(p.channels, peer, now);
  }

  /** Who has neither gets nothing. */
  lemma StrangerDropped(k: Kernel, a: Alloc, p: Plane, peer: Address, data: seq<Byte>, now: int)
    requires forall i :: 0 <= i < |p.channels| ==> !(p.channels[i].peer == peer && p.channels[i].expiry > now)
    requires forall i :: 0 <= i < |p.permissions| ==> !(SameIp(p.permissions[i].peer, peer) && p.permissions[i].expiry > now)
    ensures Forward(k, a, p, peer, data, now) == Dropped
  {
    ByPeerIff(p.channels, peer, now);
  }

  // ---- A frame that shows the difference -----------------------------------------------

  const NOTHING: Index := Index(map[], map[], map[], map[], map[], map[], map[], None)

  /** A sender on a TCP control connection and a UDP client. */
  const SENDER: Alloc := Alloc(Dgram, 0, Some(7), Some(0), 1, 100, [])
  const RECEIVER: Alloc := Alloc(Dgram, 1, None, Some(1), 2, 100, [])

  function TwoIndex(): Index { Added(Added(NOTHING, 0, SENDER), 1, RECEIVER) }

  lemma TwoCoherent()
    ensures Coherent(map[0 := SENDER, 1 := RECEIVER], TwoIndex())
  {
    var objs: Objs := map[];
    assert Coherent(objs, NOTHING);
    KeysFree(objs, NOTHING, SENDER);
    AddKeeps(objs, NOTHING, 0, SENDER);
    var x := Added(NOTHING, 0, SENDER);
    KeysFree(objs[0 := SENDER], x, RECEIVER);
    AddKeeps(objs[0 := SENDER], x, 1, RECEIVER);
    assert objs[0 := SENDER][1 := RECEIVER] == map[0 := SENDER, 1 := RECEIVER];
  }

  /** Both allocations on an IPv4 relay address, each with a channel to the other; the receiver's client is on IPv6. */
  function TwoClients(): Server
  {
    var to, from := Address(9, false, 2), Address(9, false, 1);
    Server(map[0 := SENDER, 1 := RECEIVER], TwoIndex(),
           map[0 := Plane([Chan(CD.CHANNEL_MIN, to, 100)], []), 1 := Plane([Chan(CD.CHANNEL_MIN, from, 100)], [])],
           9, false, Kernel(map[0 := from, 1 := to], map[from := 0, to := 1], {1}))
  }

  lemma TwoClientsAgree()
    ensures var s := TwoClients();
            && Coherent(s.objs, s.x) && KernelAgrees(s)
            && LocalPeer(s, 0, Address(9, false, 2)) == Some(1)
  {
    var s := TwoClients();
    TwoCoherent();
    assert Live(s.objs, 1, ByRelayAddr(2));
  }

  /** For each such length there is a frame that the shortcut delivers and the two hops drop. */
  lemma LongFrameDiffers(n: nat)
    requires MAX_V4 < n <= MAX_V6 - CD.HEADER - 3
    ensures var s, frame := TwoClients(), CD.Frame(CD.CHANNEL_MIN, Zeros(n));
            && Coherent(s.objs, s.x) && KernelAgrees(s)
            && HandleFrame(s, 0, frame, 50, true).ToClient? && HandleFrame(s, 0, frame, 50, false) == Dropped
  {
    var s, frame := TwoClients(), CD.Frame(CD.CHANNEL_MIN, Zeros(n));
    TwoClientsAgree();
    CD.RoundTrip(CD.CHANNEL_MIN, Zeros(n), []);
    assert frame + [] == frame;
    assert BoundPeer(s, 0, frame) == Some(Address(9, false, 2));
    assert Differs(s, 0, frame, 50);
    ShortcutInvisibleIff(s, 0, frame, 50);
  }
}
