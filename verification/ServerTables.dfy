/**
 The allocation tables of the TURN server: the owning table, five lookup maps, the pending
 CONNECT index and the relay-port pool.  The maps are coherent when each is the exact inverse
 of the live allocations; every operation of the control plane keeps them so.

 Pointers to allocations are modelled by identifiers: `objs` holds the allocation objects
 themselves, the maps hold identifiers.
 */
module ServerTables {
  import opened Options

  type Id = nat
  type Sock = nat
  type Addr = nat
  type ConnId = nat
  type Port = p: int | 0 <= p < 0x1_0000

  const RANDOM_TRIES := 200
  const BIND_RETRIES := 50
  const PENDING_CONNECT_MS := 30_000
  const CONN_ID_MODULUS := 0x1_0000_0000

  datatype Transport = Dgram | Stream

  datatype Pending = Pending(connId: ConnId, first: Option<Sock>, expiry: int)

  /** An allocation; `control` is the TCP control socket, `relaySock` the UDP relay socket. */
  datatype Alloc = Alloc(
    transport: Transport, client: Addr, control: Option<Sock>, relaySock: Option<Sock>, relayPort: Port,
    expiry: int, pendings: seq<Pending>)

  datatype AllocKey = AllocKey(transport: Transport, client: Addr)

  type Objs = map<Id, Alloc>
  type Ports = map<Port, Option<Id>>

  // ---- What the indexes should hold ----------------------------------------------------

  function KeyOf(a: Alloc): AllocKey { AllocKey(a.transport, a.client) }

  function ConnIds(ps: seq<Pending>): set<ConnId> { set p | p in ps :: p.connId }

  /**
   Everything the server keeps besides the allocations themselves; `atNoSocket` is what the control
   map holds under the handle that stands for no socket.
   */
  datatype Index = Index(
    allocations: map<AllocKey, Id>,
    byRelaySock: map<Sock, Id>,
    byRelayAddr: map<Port, Id>,
    byClient: map<Addr, Id>,
    byControl: map<Sock, Id>,
    byConnId: map<ConnId, Id>,
    used: Ports,
    atNoSocket: Option<Id>)

  /** A way to reach an allocation; the relayed address is the relay address with the relay port. */
  datatype Ref =
    | ByKey(key: AllocKey)
    | ByRelaySock(sock: Sock)
    | ByRelayAddr(port: Port)
    | ByClient(addr: Addr)
    | ByControl(sock: Sock)
    | ByConnId(connId: ConnId)
    | ByPort(port: Port)
    | ByNoSocket

  function Get<K(==), V>(m: map<K, V>, k: K): Option<V> { if k in m then Some(m[k]) else None }

  function Owner(used: Ports, p: Port): Option<Id> { if p in used then used[p] else None }

  function Lookup(x: Index, r: Ref): Option<Id>
  {
    match r
    case ByKey(k) => Get(x.allocations, k)
    case ByRelaySock(h) => Get(x.byRelaySock, h)
    case ByRelayAddr(p) => Get(x.byRelayAddr, p)
    case ByClient(c) => Get(x.byClient, c)
    case ByControl(h) => Get(x.byControl, h)
    case ByConnId(c) => Get(x.byConnId, c)
    case ByPort(p) => Owner(x.used, p)
    case ByNoSocket => x.atNoSocket
  }

  /** The ways by which an allocation should be reached. */
  predicate Has(a: Alloc, r: Ref)
  {
    match r
    case ByKey(k) => k == KeyOf(a)
    case ByRelaySock(h) => a.relaySock == Some(h)
    case ByRelayAddr(p) => a.transport.Dgram? && a.relayPort == p
    case ByClient(c) => a.transport.Dgram? && a.client == c
    case ByControl(h) => a.control == Some(h)
    case ByConnId(c) => c in ConnIds(a.pendings)
    case ByPort(p) => a.relayPort == p
    case ByNoSocket => false
  }

  predicate Live(objs: Objs, id: Id, r: Ref) { id in objs && Has(objs[id], r) }

  /** Every index is the exact inverse of the live allocations. */
  ghost predicate Exact(objs: Objs, x: Index)
  {
    forall r, id: Id :: Lookup(x, r) == Some(id) <==> Live(objs, id, r)
  }

  /** No port is reserved without an owner. */
  predicate AllOwned(used: Ports) { forall p :: p in used ==> used[p].Some? }

  predicate DistinctIds(ps: seq<Pending>)
  {
    forall i, j :: 0 <= i < j < |ps| ==> ps[i].connId != ps[j].connId
  }

  predicate ShapeOk(a: Alloc)
  {
    && (a.transport.Dgram? <==> a.relaySock.Some?) && (a.transport.Stream? ==> a.control.Some?)
    && DistinctIds(a.pendings)
  }

  /** Shapes, and no two allocations with one client address. */
  predicate Shapes(objs: Objs)
  {
    && (forall id :: id in objs ==> ShapeOk(objs[id]))
    && (forall x, y :: x in objs && y in objs && objs[x].client == objs[y].client ==> x == y)
  }

  ghost predicate Coherent(objs: Objs, x: Index)
  {
    Exact(objs, x) && AllOwned(x.used) && Shapes(objs)
  }

  // ---- Coherence fixes every map -------------------------------------------------------

  lemma SameMap<K(!new), V>(x: map<K, V>, y: map<K, V>)
    requires forall k :: Get(x, k) == Get(y, k)
    ensures x == y
  {
    assert forall k :: k in x ==> Get(x, k) == Get(y, k);
    assert forall k :: k in y ==> Get(x, k) == Get(y, k);
  }

  lemma SameLookup(objs: Objs, x: Index, y: Index, r: Ref)
    requires Exact(objs, x) && Exact(objs, y)
    ensures Lookup(x, r) == Lookup(y, r)
  {
    match Lookup(x, r) {
      case Some(id) => assert Live(objs, id, r);
      case None =>
        match Lookup(y, r) {
          case Some(id) => assert Live(objs, id, r);
          case None =>
        }
    }
  }

  lemma SameUsed(x: Ports, y: Ports)
    requires AllOwned(x) && AllOwned(y) && forall p :: Owner(x, p) == Owner(y, p)
    ensures x == y
  {
    assert forall p :: p in x ==> Owner(x, p) == Owner(y, p);
    assert forall p :: p in y ==> Owner(x, p) == Owner(y, p);
  }

  /** The live allocations determine every lookup map, the pending index and the port pool. */
  lemma CoherentDetermines(objs: Objs, x: Index, y: Index)
    requires Coherent(objs, x) && Coherent(objs, y)
    ensures x == y
  {
    forall k ensures Get(x.allocations, k) == Get(y.allocations, k) { SameLookup(objs, x, y, ByKey(k)); }
    SameMap(x.allocations, y.allocations);
    forall k ensures Get(x.byRelaySock, k) == Get(y.byRelaySock, k) { SameLookup(objs, x, y, ByRelaySock(k)); }
    SameMap(x.byRelaySock, y.byRelaySock);
    forall k ensures Get(x.byRelayAddr, k) == Get(y.byRelayAddr, k) { SameLookup(objs, x, y, ByRelayAddr(k)); }
    SameMap(x.byRelayAddr, y.byRelayAddr);
    forall k ensures Get(x.byClient, k) == Get(y.byClient, k) { SameLookup(objs, x, y, ByClient(k)); }
    SameMap(x.byClient, y.byClient);
    forall k ensures Get(x.byControl, k) == Get(y.byControl, k) { SameLookup(objs, x, y, ByControl(k)); }
    SameMap(x.byControl, y.byControl);
    forall k ensures Get(x.byConnId, k) == Get(y.byConnId, k) { SameLookup(objs, x, y, ByConnId(k)); }
    SameMap(x.byConnId, y.byConnId);
    forall k ensures Owner(x.used, k) == Owner(y.used, k) { SameLookup(objs, x, y, ByPort(k)); }
    SameUsed(x.used, y.used);
    SameLookup(objs, x, y, ByNoSocket);
  }

  // ---- Adding, removing and updating one allocation ------------------------------------

  /** What the commit at the end of Allocate writes. */
  function Added(x: Index, id: Id, a: Alloc): Index
  {
    Index(x.allocations[KeyOf(a) := id],
          if a.relaySock.Some? then x.byRelaySock[a.relaySock.value := id] else x.byRelaySock,
          if a.transport.Dgram? then x.byRelayAddr[a.relayPort := id] else x.byRelayAddr,
          if a.transport.Dgram? then x.byClient[a.client := id] else x.byClient,
          if a.control.Some? then x.byControl[a.control.value := id] else x.byControl,
          x.byConnId,
          x.used[a.relayPort := Some(id)],
          if a.transport.Stream? && a.control.None? then Some(id) else x.atNoSocket)
  }

  /** What destruction erases: by key, whether or not the allocation was ever entered there. */
  function Removed(x: Index, a: Alloc): Index
  {
    Index(x.allocations - {KeyOf(a)},
          if a.relaySock.Some? then x.byRelaySock - {a.relaySock.value} else x.byRelaySock,
          x.byRelayAddr - {a.relayPort},
          x.byClient - {a.client},
          if a.control.Some? then x.byControl - {a.control.value} else x.byControl,
          x.byConnId - ConnIds(a.pendings),
          x.used - {a.relayPort},
          x.atNoSocket)
  }

  /** The keys under which destruction erases. */
  predicate ErasedBy(a: Alloc, r: Ref)
  {
    Has(a, r) || r == ByRelayAddr(a.relayPort) || r == ByClient(a.client)
  }

  lemma LookupAdded(x: Index, id: Id, a: Alloc, r: Ref)
    requires ShapeOk(a) && a.pendings == []
    ensures Lookup(Added(x, id, a), r) == if Has(a, r) then Some(id) else Lookup(x, r)
  {
  }

  lemma LookupRemoved(x: Index, a: Alloc, r: Ref)
    ensures Lookup(Removed(x, a), r) == if ErasedBy(a, r) then None else Lookup(x, r)
  {
  }

  /** Nothing live has a key of `a`. */
  ghost predicate Unclaimed(x: Index, a: Alloc)
  {
    forall r :: Has(a, r) ==> Lookup(x, r).None?
  }

  /** Committing an allocation whose keys nobody has keeps every map exact. */
  lemma AddKeeps(objs: Objs, x: Index, id: Id, a: Alloc)
    requires Coherent(objs, x) && id !in objs && ShapeOk(a) && a.pendings == [] && Unclaimed(x, a)
    requires forall y :: y in objs ==> objs[y].client != a.client
    ensures Coherent(objs[id := a], Added(x, id, a))
  {
    var o, x' := objs[id := a], Added(x, id, a);
    forall r, y: Id ensures Lookup(x', r) == Some(y) <==> Live(o, y, r) {
      LookupAdded(x, id, a, r);
      assert Lookup(x, r) == Some(y) <==> Live(objs, y, r);
    }
  }

  /** And only then: committing over a key or a client address in use breaks some map. */
  lemma AddNeedsUnclaimed(objs: Objs, x: Index, id: Id, a: Alloc)
    requires Coherent(objs, x) && id !in objs && ShapeOk(a) && a.pendings == []
    requires Coherent(objs[id := a], Added(x, id, a))
    ensures Unclaimed(x, a) && forall y :: y in objs ==> objs[y].client != a.client
  {
    var o, x' := objs[id := a], Added(x, id, a);
    forall r | Has(a, r) ensures Lookup(x, r).None? {
      LookupAdded(x, id, a, r);
      assert forall y: Id :: Live(objs, y, r) ==> Live(o, y, r);
      assert forall y: Id :: Lookup(x, r) == Some(y) <==> Live(objs, y, r);
    }
    forall y | y in objs ensures objs[y].client != a.client {
      assert o[y] == objs[y] && o[id] == a;
    }
  }

  /** Erasing by key removes the allocation's own entries and no others. */
  lemma RemoveKeeps(objs: Objs, x: Index, id: Id)
    requires Coherent(objs, x) && id in objs
    ensures Coherent(objs - {id}, Removed(x, objs[id]))
  {
    var a := objs[id];
    var o, x' := objs - {id}, Removed(x, a);
    forall r, y: Id ensures Lookup(x', r) == Some(y) <==> Live(o, y, r) {
      LookupRemoved(x, a, r);
      if ErasedBy(a, r) { OnlyOwnErased(objs, x, id, r); }
      assert Lookup(x, r) == Some(y) <==> Live(objs, y, r);
    }
  }

  /** No other allocation has a key that destruction erases. */
  lemma OnlyOwnErased(objs: Objs, x: Index, id: Id, r: Ref)
    requires Coherent(objs, x) && id in objs && ErasedBy(objs[id], r)
    ensures Lookup(x, r).None? || Lookup(x, r) == Some(id)
  {
    assert Lookup(x, ByPort(objs[id].relayPort)) == Some(id) by { assert Live(objs, id, ByPort(objs[id].relayPort)); }
    match Lookup(x, r) {
      case None =>
      case Some(y) =>
        assert Live(objs, y, r);
        assert r.ByRelayAddr? ==> Live(objs, y, ByPort(r.port));
        assert Has(objs[id], r) ==> Live(objs, id, r);
    }
  }

  /** Two allocations that differ only in expiry and pending CONNECTs. */
  predicate SameIdentity(a: Alloc, b: Alloc)
  {
    a == b.(expiry := a.expiry, pendings := a.pendings)
  }

  /** The pending index after allocation `id` has pending CONNECTs `ps` instead of `before`. */
  ghost predicate Repended(byConnId: map<ConnId, Id>, id: Id, before: seq<Pending>, ps: seq<Pending>, after: map<ConnId, Id>)
  {
    && (forall c :: c in after <==> c in ConnIds(ps) || (c in byConnId && c !in ConnIds(before)))
    && (forall c :: c in after ==> after[c] == if c in ConnIds(ps) then id else byConnId[c])
    && (forall c :: c in ConnIds(ps) ==> c in ConnIds(before) || c !in byConnId)
  }

  /** Changing only the expiry and the pending CONNECTs of one allocation. */
  lemma UpdateKeeps(objs: Objs, x: Index, id: Id, a: Alloc, after: map<ConnId, Id>)
    requires Coherent(objs, x) && id in objs && SameIdentity(a, objs[id]) && DistinctIds(a.pendings)
    requires Repended(x.byConnId, id, objs[id].pendings, a.pendings, after)
    ensures Coherent(objs[id := a], x.(byConnId := after))
  {
    var o, x' := objs[id := a], x.(byConnId := after);
    forall r, y: Id ensures Lookup(x', r) == Some(y) <==> Live(o, y, r) {
      UpdateLookup(objs, x, id, a, after, r, y);
    }
    assert forall y :: y in o ==> o[y].client == objs[y].client && ShapeOk(o[y]);
  }

  lemma UpdateLookup(objs: Objs, x: Index, id: Id, a: Alloc, after: map<ConnId, Id>, r: Ref, y: Id)
    requires Coherent(objs, x) && id in objs && SameIdentity(a, objs[id])
    requires Repended(x.byConnId, id, objs[id].pendings, a.pendings, after)
    ensures Lookup(x.(byConnId := after), r) == Some(y) <==> Live(objs[id := a], y, r)
  {
    assert Lookup(x, r) == Some(y) <==> Live(objs, y, r);
    assert Lookup(x, r) == Some(id) <==> Live(objs, id, r);
    if r.ByConnId? {
      assert r.connId in ConnIds(objs[id].pendings) <==> Live(objs, id, r);
    } else {
      assert Has(a, r) == Has(objs[id], r);
      assert Lookup(x.(byConnId := after), r) == Lookup(x, r);
    }
  }

  lemma OwnsPort(objs: Objs, x: Index, id: Id)
    requires Coherent(objs, x) && id in objs
    ensures objs[id].relayPort in x.used && x.used[objs[id].relayPort] == Some(id)
  {
    assert Live(objs, id, ByPort(objs[id].relayPort));
  }

  /** The pool after a release: only the owner, or anyone before an owner is recorded, gives a port back. */
  function Released(used: Ports, port: Port, owner: Option<Id>): Ports
  {
    if port in used && (used[port].None? || used[port] == owner) then used - {port} else used
  }

  /** A release never takes the port of a live allocation from it, unless it is that allocation's own. */
  lemma ReleaseSafe(objs: Objs, x: Index, port: Port, owner: Option<Id>, id: Id)
    requires Coherent(objs, x) && id in objs
    ensures Owner(Released(x.used, port, owner), objs[id].relayPort) ==
            if owner == Some(id) && port == objs[id].relayPort then None else Some(id)
  {
    OwnsPort(objs, x, id);
  }

  /** A release undoes a reservation, whoever asks for it. */
  lemma ReservationUndone(used: Ports, port: Port, owner: Option<Id>)
    requires port !in used
    ensures Released(used[port := None], port, owner) == used
  {
    assert used[port := None] - {port} == used;
  }

  lemma PortOwnerUnique(objs: Objs, x: Index, id: Id)
    requires Coherent(objs, x) && id in objs
    ensures forall y :: y in objs && objs[y].relayPort == objs[id].relayPort ==> y == id
  {
    var r := ByPort(objs[id].relayPort);
    assert Live(objs, id, r);
    forall y | y in objs && objs[y].relayPort == objs[id].relayPort ensures y == id {
      assert Live(objs, y, r);
    }
  }

  /** A CONNECTION-ID in the index is found in the allocation it points to. */
  lemma ConnIdFound(objs: Objs, x: Index, c: ConnId)
    requires Coherent(objs, x) && c in x.byConnId
    ensures x.byConnId[c] in objs && c in ConnIds(objs[x.byConnId[c]].pendings)
  {
    assert Live(objs, x.byConnId[c], ByConnId(c));
  }

  lemma RetireIs(byConnId: map<ConnId, Id>, ps: seq<Pending>, c: ConnId)
    requires c in ConnIds(ps)
    ensures byConnId - {c} == byConnId - ConnIds(Filter(ps, Not(OtherThan(c))))
  {
    var gone := Filter(ps, Not(OtherThan(c)));
    forall q ensures Passes(Not(OtherThan(c)), q) <==> q.connId == c {
      assert Passes(Not(OtherThan(c)), q) <==> !Passes(OtherThan(c), q);
    }
    var p :| p in ps && p.connId == c;
    assert p in gone;
    assert ConnIds(gone) == {c};
  }

  lemma KeysFree(objs: Objs, x: Index, a: Alloc)
    requires Coherent(objs, x) && a.pendings == [] && a.relayPort !in x.used
    requires forall y :: y in objs ==> objs[y].client != a.client
    requires a.relaySock.Some? ==> a.relaySock.value !in x.byRelaySock
    requires a.control.Some? ==> a.control.value !in x.byControl
    ensures Unclaimed(x, a)
  {
    forall r | Has(a, r) ensures Lookup(x, r).None? {
      match Lookup(x, r) {
        case None =>
        case Some(y) =>
          assert Live(objs, y, r);
          assert r.ByRelayAddr? ==> Live(objs, y, ByPort(a.relayPort));
      }
    }
  }

  lemma CommitKeeps(objs: Objs, x: Index, id: Id, a: Alloc)
    requires Coherent(objs, x) && id !in objs && ShapeOk(a) && a.pendings == [] && a.relayPort !in x.used
    requires forall y :: y in objs ==> objs[y].client != a.client
    requires a.relaySock.Some? ==> a.relaySock.value !in x.byRelaySock
    requires a.control.Some? ==> a.control.value !in x.byControl
    ensures Coherent(objs[id := a], Added(x.(used := x.used[a.relayPort := None]), id, a))
  {
    KeysFree(objs, x, a);
    AddKeeps(objs, x, id, a);
    AddedOverReservation(x, id, a);
  }

  /** The allocations once one under the same key was overwritten, and so freed, by a new one. */
  function Replaced(objs: Objs, x: Index, id: Id, a: Alloc): Objs
  {
    (if KeyOf(a) in x.allocations then objs - {x.allocations[KeyOf(a)]} else objs)[id := a]
  }

  /** A TCP allocation has a control connection, and no live allocation has the client's address. */
  predicate Separate(objs: Objs, a: Alloc)
  {
    (a.transport.Stream? ==> a.control.Some?) && forall y :: y in objs ==> objs[y].client != a.client
  }

  lemma KeyedLive(objs: Objs, x: Index, k: AllocKey)
    requires Coherent(objs, x)
    ensures k in x.allocations ==> Live(objs, x.allocations[k], ByKey(k))
  {
    assert forall id: Id :: Lookup(x, ByKey(k)) == Some(id) <==> Live(objs, id, ByKey(k));
  }

  lemma SeparateReplacesNone(objs: Objs, x: Index, id: Id, a: Alloc)
    requires Coherent(objs, x) && Separate(objs, a)
    ensures Replaced(objs, x, id, a) == objs[id := a]
  {
    KeyedLive(objs, x, KeyOf(a));
  }

  /** Without a control connection the entry made for it answers to no socket. */
  lemma NoControlBreaks(objs: Objs, x: Index, id: Id, a: Alloc)
    requires a.transport.Stream? && a.control.None?
    ensures !Exact(objs, Added(x, id, a))
  {
    assert Lookup(Added(x, id, a), ByNoSocket) == Some(id);
    assert !Live(objs, id, ByNoSocket);
  }

  /** An allocation with the same address is freed with its entries left behind, or shares the address. */
  lemma SharedAddressBreaks(objs: Objs, x: Index, id: Id, a: Alloc, y: Id)
    requires Coherent(objs, x) && id !in objs && a.relayPort !in x.used && y in objs && objs[y].client == a.client
    ensures !Coherent(Replaced(objs, x, id, a), Added(x, id, a))
  {
    var o, x' := Replaced(objs, x, id, a), Added(x, id, a);
    OwnsPort(objs, x, y);
    if KeyOf(a) == KeyOf(objs[y]) {
      assert Live(objs, y, ByKey(KeyOf(a)));
      assert Lookup(x', ByPort(objs[y].relayPort)) == Some(y) && !Live(o, y, ByPort(objs[y].relayPort));
    } else {
      KeyedLive(objs, x, KeyOf(a));
      assert y in o && id in o && o[y].client == o[id].client;
    }
  }

  /** Committing on a fresh port and fresh sockets keeps the tables coherent exactly if the client is separate. */
  lemma CommitKeepsIff(objs: Objs, x: Index, id: Id, a: Alloc)
    requires Coherent(objs, x) && id !in objs && a.pendings == [] && a.relayPort !in x.used
    requires a.transport.Dgram? <==> a.relaySock.Some?
    requires a.relaySock.Some? ==> a.relaySock.value !in x.byRelaySock
    requires a.control.Some? ==> a.control.value !in x.byControl
    ensures Coherent(Replaced(objs, x, id, a), Added(x.(used := x.used[a.relayPort := None]), id, a)) <==> Separate(objs, a)
    ensures Separate(objs, a) ==> Replaced(objs, x, id, a) == objs[id := a]
  {
    AddedOverReservation(x, id, a);
    if Separate(objs, a) {
      SeparateReplacesNone(objs, x, id, a);
      CommitKeeps(objs, x, id, a);
    } else if a.transport.Stream? && a.control.None? {
      NoControlBreaks(Replaced(objs, x, id, a), x, id, a);
    } else {
      var y :| y in objs && objs[y].client == a.client;
      SharedAddressBreaks(objs, x, id, a, y);
    }
  }

  /** Why addresses must not be shared: destroying the TCP allocation erases the other's entry. */
  lemma SharedAddressErased(objs: Objs, x: Index, t: Id, d: Id)
    requires Exact(objs, x) && t in objs && d in objs && objs[t].client == objs[d].client
    requires objs[t].transport.Stream? && objs[d].transport.Dgram?
    ensures !Exact(objs - {t}, Removed(x, objs[t]))
  {
    var r := ByClient(objs[d].client);
    assert Lookup(Removed(x, objs[t]), r).None? && Live(objs - {t}, d, r);
  }

  /** A reservation that gets its owner is as good as one made for the owner. */
  lemma AddedOverReservation(x: Index, id: Id, a: Alloc)
    ensures Added(x.(used := x.used[a.relayPort := None]), id, a) == Added(x, id, a)
  {
    assert x.used[a.relayPort := None][a.relayPort := Some(id)] == x.used[a.relayPort := Some(id)];
  }

  lemma ConnIdsGrow(ps: seq<Pending>, i: nat)
    requires i < |ps|
    ensures ConnIds(ps[..i + 1]) == ConnIds(ps[..i]) + {ps[i].connId}
  {
    assert ps[..i + 1] == ps[..i] + [ps[i]];
  }

  /** The allocation of a control path, as `dispatchStun` looks it up. */
  function CurrentIn(x: Index, src: Addr, control: Option<Sock>): Option<Id>
  {
    if control.Some? then Lookup(x, ByControl(control.value)) else Lookup(x, ByKey(AllocKey(Dgram, src)))
  }

  lemma CurrentExists(objs: Objs, x: Index, src: Addr, control: Option<Sock>)
    requires Coherent(objs, x)
    ensures CurrentIn(x, src, control).Some? ==> CurrentIn(x, src, control).value in objs
    ensures control.Some? && CurrentIn(x, src, control).Some? ==> objs[CurrentIn(x, src, control).value].control == control
  {
    var r := if control.Some? then ByControl(control.value) else ByKey(AllocKey(Dgram, src));
    var c := CurrentIn(x, src, control);
    if c.Some? { assert Live(objs, c.value, r); }
  }

  /** It is the one live allocation of that client, if there is any. */
  lemma CurrentIsLive(objs: Objs, x: Index, src: Addr, control: Option<Sock>, c: Option<Id>)
    requires Coherent(objs, x) && c == CurrentIn(x, src, control)
    requires forall y :: y in objs && objs[y].client == src ==> objs[y].control == control
    ensures c.Some? ==> c.value in objs
    ensures forall y :: y in objs && objs[y].client == src ==> c == Some(y)
    ensures forall y :: y in objs && control.Some? && objs[y].control == control ==> c == Some(y)
  {
    var r := if control.Some? then ByControl(control.value) else ByKey(AllocKey(Dgram, src));
    if c.Some? { assert Live(objs, c.value, r); }
    forall y | y in objs && (objs[y].client == src || (control.Some? && objs[y].control == control))
      ensures c == Some(y)
    {
      assert Live(objs, y, r);
    }
  }

  lemma ControlGone(objs: Objs, x: Index, sock: Sock)
    requires Coherent(objs, x) && sock !in x.byControl
    ensures forall y :: y in objs ==> objs[y].control != Some(sock)
  {
    forall y | y in objs ensures objs[y].control != Some(sock) {
      assert Lookup(x, ByControl(sock)) == Some(y) <==> Live(objs, y, ByControl(sock));
    }
  }

  // ---- Pending CONNECTs ----------------------------------------------------------------

  datatype Test = LaterThan(now: int) | OtherThan(connId: ConnId) | Not(test: Test)

  predicate Passes(f: Test, p: Pending)
  {
    match f
    case LaterThan(now) => p.expiry > now
    case OtherThan(c) => p.connId != c
    case Not(g) => !Passes(g, p)
  }

  function Filter(ps: seq<Pending>, f: Test): (r: seq<Pending>)
    ensures forall p :: p in r <==> p in ps && Passes(f, p)
  {
    if ps == [] then []
    else
      var last := |ps| - 1;
      assert ps == ps[..last] + [ps[last]];
      Filter(ps[..last], f) + if Passes(f, ps[last]) then [ps[last]] else []
  }

  lemma {:induction false} FilterDistinct(ps: seq<Pending>, f: Test)
    requires DistinctIds(ps)
    ensures DistinctIds(Filter(ps, f))
  {
    if ps != [] {
      var last := |ps| - 1;
      FilterDistinct(ps[..last], f);
      forall p | p in Filter(ps[..last], f) ensures p.connId != ps[last].connId {
        assert p in ps[..last];
      }
    }
  }

  /** Entries with one CONNECTION-ID are one entry. */
  lemma SameEntry(ps: seq<Pending>, p: Pending, q: Pending)
    requires DistinctIds(ps) && p in ps && q in ps && p.connId == q.connId
    ensures p == q
  {
  }

  function Kept(a: Alloc, now: int): Alloc { a.(pendings := Filter(a.pendings, LaterThan(now))) }

  /** What an expiry sweep leaves. */
  function Swept(objs: Objs, now: int): Objs
  {
    map id | id in objs && objs[id].expiry > now :: Kept(objs[id], now)
  }

  /** It leaves the unexpired allocations, each as it was but for its expired pending connects. */
  lemma SweptIff(objs: Objs, now: int, id: Id)
    ensures id in Swept(objs, now) <==> id in objs && objs[id].expiry > now
    ensures id in Swept(objs, now) ==>
              var a, b := objs[id], Swept(objs, now)[id];
              && b == a.(pendings := b.pendings)
              && (forall p :: p in b.pendings <==> p in a.pendings && p.expiry > now)
  {
  }

  /** The CONNECTION-IDs of an allocation are indexed to it, and no other id is. */
  lemma OwnConnIds(objs: Objs, x: Index, id: Id)
    requires Coherent(objs, x) && id in objs
    ensures forall c :: c in ConnIds(objs[id].pendings) <==> c in x.byConnId && x.byConnId[c] == id
  {
    forall c: ConnId ensures c in ConnIds(objs[id].pendings) <==> c in x.byConnId && x.byConnId[c] == id {
      assert Lookup(x, ByConnId(c)) == Some(id) <==> Live(objs, id, ByConnId(c));
    }
  }

  /** Dropping pending CONNECTs from one allocation and their ids from the index. */
  lemma FilterKeeps(objs: Objs, x: Index, id: Id, f: Test)
    requires Coherent(objs, x) && id in objs
    ensures Coherent(objs[id := objs[id].(pendings := Filter(objs[id].pendings, f))],
                     x.(byConnId := x.byConnId - ConnIds(Filter(objs[id].pendings, Not(f)))))
  {
    var ps := objs[id].pendings;
    OwnConnIds(objs, x, id);
    FilterDistinct(ps, f);
    FilterRepends(x.byConnId, id, ps, f);
    UpdateKeeps(objs, x, id, objs[id].(pendings := Filter(ps, f)), x.byConnId - ConnIds(Filter(ps, Not(f))));
  }

  lemma RefreshKeeps(objs: Objs, x: Index, id: Id, expiry: int)
    requires Coherent(objs, x) && id in objs
    ensures Coherent(objs[id := objs[id].(expiry := expiry)], x)
  {
    OwnConnIds(objs, x, id);
    UpdateKeeps(objs, x, id, objs[id].(expiry := expiry), x.byConnId);
  }

  lemma ConnectKeeps(objs: Objs, x: Index, id: Id, p: Pending)
    requires Coherent(objs, x) && id in objs && p.connId !in x.byConnId
    ensures Coherent(objs[id := objs[id].(pendings := objs[id].pendings + [p])],
                     x.(byConnId := x.byConnId[p.connId := id]))
  {
    var ps := objs[id].pendings;
    OwnConnIds(objs, x, id);
    assert ConnIds(ps + [p]) == ConnIds(ps) + {p.connId};
    assert forall i :: 0 <= i < |ps| ==> ps[i].connId in ConnIds(ps);
    UpdateKeeps(objs, x, id, objs[id].(pendings := ps + [p]), x.byConnId[p.connId := id]);
  }

  lemma BindFirstKeeps(objs: Objs, x: Index, id: Id, i: nat, sock: Sock)
    requires Coherent(objs, x) && id in objs && i < |objs[id].pendings|
    ensures var ps := objs[id].pendings;
            Coherent(objs[id := objs[id].(pendings := ps[i := ps[i].(first := Some(sock))])], x)
  {
    var ps := objs[id].pendings;
    var qs := ps[i := ps[i].(first := Some(sock))];
    OwnConnIds(objs, x, id);
    assert forall k :: 0 <= k < |ps| ==> ps[k].connId == qs[k].connId;
    forall c ensures c in ConnIds(ps) <==> c in ConnIds(qs) {
      if c in ConnIds(ps) { var k :| 0 <= k < |ps| && ps[k].connId == c; assert qs[k] in qs; }
      if c in ConnIds(qs) { var k :| 0 <= k < |qs| && qs[k].connId == c; assert ps[k] in ps; }
    }
    UpdateKeeps(objs, x, id, objs[id].(pendings := qs), x.byConnId);
  }

  /** Erasing exactly the ids that a filter drops keeps the index in step with it. */
  lemma FilterRepends(byConnId: map<ConnId, Id>, id: Id, ps: seq<Pending>, f: Test)
    requires DistinctIds(ps)
    requires forall c :: c in ConnIds(ps) ==> c in byConnId && byConnId[c] == id
    ensures Repended(byConnId, id, ps, Filter(ps, f), byConnId - ConnIds(Filter(ps, Not(f))))
  {
    var kept, gone := Filter(ps, f), Filter(ps, Not(f));
    forall c ensures c in ConnIds(gone) <==> c in ConnIds(ps) && c !in ConnIds(kept) {
      if c in ConnIds(ps) {
        var p :| p in ps && p.connId == c;
        if c in ConnIds(kept) {
          var q :| q in kept && q.connId == c;
          SameEntry(ps, p, q);
        }
        if c in ConnIds(gone) {
          var q :| q in gone && q.connId == c;
          SameEntry(ps, p, q);
        }
      }
    }
  }

  /** A table of which the allocations in `todo` still have to be swept. */
  predicate PartlySwept(before: Objs, objs: Objs, todo: set<Id>, now: int)
  {
    && (forall id :: id in todo ==> id in objs && id in before && objs[id] == before[id])
    && (forall id :: id in objs && id !in todo ==> id in before && before[id].expiry > now && objs[id] == Kept(before[id], now))
    && (forall id :: id in before && id !in todo && before[id].expiry > now ==> id in objs)
  }

  function SweptAt(objs: Objs, id: Id, now: int): Objs
    requires id in objs
  {
    if objs[id].expiry <= now then objs - {id} else objs[id := Kept(objs[id], now)]
  }

  lemma SweepStep(before: Objs, objs: Objs, todo: set<Id>, id: Id, now: int)
    requires PartlySwept(before, objs, todo, now) && id in todo
    ensures PartlySwept(before, SweptAt(objs, id, now), todo - {id}, now)
  {
  }

  lemma FullySwept(before: Objs, objs: Objs, now: int)
    requires PartlySwept(before, objs, {}, now)
    ensures objs == Swept(before, now)
  {
  }

  /** Every owner recorded for a port is still in the table of allocations. */
  lemma NoOrphan(objs: Objs, x: Index, p: Port)
    requires Coherent(objs, x) && p in x.used
    ensures x.used[p].Some? && x.used[p].value in objs && KeyOf(objs[x.used[p].value]) in x.allocations
  {
    var id := x.used[p].value;
    assert Live(objs, id, ByPort(p));
    assert Live(objs, id, ByKey(KeyOf(objs[id])));
  }

  // ---- The control plane ---------------------------------------------------------------

  /** The outcome of one attempt to bind a relay socket; `moved` is a bound port other than the one asked for. */
  datatype Bind = Fails | Binds(sock: Sock, moved: Option<Port>)

  function BindAt(binds: seq<Bind>, i: int): Bind { if 0 <= i < |binds| then binds[i] else Fails }

  /** The relay-port range; the ends may be configured in either order. */
  function Lo(begin: Port, end: Port): Port { if end < begin then end else begin }

  function Hi(begin: Port, end: Port): Port { if end < begin then begin else end }

  /** The ports of the range that nobody has. */
  function FreePorts(used: Ports, begin: Port, end: Port): set<Port>
  {
    set p: Port | Lo(begin, end) <= p <= Hi(begin, end) && p !in used
  }

  /** How often a bind is attempted at most: once and 50 times more, on a new free port each time. */
  function Attempts(used: Ports, begin: Port, end: Port): nat
  {
    var n := |FreePorts(used, begin, end)|;
    if n < BIND_RETRIES + 1 then n else BIND_RETRIES + 1
  }

  /** Attempt `k` is the first of `n` that succeeds. */
  predicate FirstBinds(binds: seq<Bind>, n: nat, k: int)
  {
    0 <= k < n && BindAt(binds, k).Binds? && forall j :: 0 <= j < k ==> BindAt(binds, j).Fails?
  }

  predicate AllFail(binds: seq<Bind>, n: nat) { forall k :: 0 <= k < n ==> BindAt(binds, k).Fails? }

  /** Whether a relay can be had: a free port for TCP, a successful attempt for UDP. */
  predicate CanReserve(stream: bool, used: Ports, begin: Port, end: Port, binds: seq<Bind>)
  {
    if stream then FreePorts(used, begin, end) != {} else !AllFail(binds, Attempts(used, begin, end))
  }

  /** The relay of a UDP allocation: the first bind that succeeds, on a free port of the range unless the kernel moved it. */
  ghost predicate RelayBound(used: Ports, begin: Port, end: Port, binds: seq<Bind>, port: Port, sock: Option<Sock>)
  {
    exists k ::
      && FirstBinds(binds, Attempts(used, begin, end), k)
      && sock == Some(BindAt(binds, k).sock)
      && (if BindAt(binds, k).moved.Some? then port == BindAt(binds, k).moved.value else port in FreePorts(used, begin, end))
  }

  /** The port and socket an allocation gets. */
  ghost predicate RelayFor(stream: bool, used: Ports, begin: Port, end: Port, binds: seq<Bind>, port: Port, sock: Option<Sock>)
  {
    if stream then port in FreePorts(used, begin, end) && sock.None? else RelayBound(used, begin, end, binds, port, sock)
  }

  lemma BoundSock(used: Ports, begin: Port, end: Port, binds: seq<Bind>, port: Port, sock: Option<Sock>)
    requires RelayBound(used, begin, end, binds, port, sock)
    ensures sock.Some? && exists b :: b in binds && b.Binds? && b.sock == sock.value
  {
    var k :| FirstBinds(binds, Attempts(used, begin, end), k) && sock == Some(BindAt(binds, k).sock);
    assert BindAt(binds, k) in binds;
  }

  lemma SubsetSize(a: set<Port>, b: set<Port>)
    requires a <= b
    ensures |a| <= |b|
  {
    assert b == a + (b - a);
  }

  /** A free port is enough for TCP, and for UDP if the first bind succeeds; without one nothing can be had. */
  lemma FreePortSuffices(used: Ports, begin: Port, end: Port, binds: seq<Bind>, p: Port)
    requires Lo(begin, end) <= p <= Hi(begin, end)
    ensures p !in used ==> CanReserve(true, used, begin, end, binds)
    ensures p !in used && binds != [] && binds[0].Binds? ==> CanReserve(false, used, begin, end, binds)
    ensures (forall q: Port :: Lo(begin, end) <= q <= Hi(begin, end) ==> q in used) ==>
              !CanReserve(true, used, begin, end, binds) && !CanReserve(false, used, begin, end, binds)
  {
    if p !in used {
      assert p in FreePorts(used, begin, end);
      SubsetSize({p}, FreePorts(used, begin, end));
      if binds != [] && binds[0].Binds? {
        assert 0 < Attempts(used, begin, end) && BindAt(binds, 0) == binds[0];
      }
    }
    if forall q: Port :: Lo(begin, end) <= q <= Hi(begin, end) ==> q in used {
      assert FreePorts(used, begin, end) == {};
    }
  }

  /** Every free port was tried in vain. */
  lemma Exhausted(failed: set<Port>, used: Ports, begin: Port, end: Port, binds: seq<Bind>)
    requires forall p: Port :: Lo(begin, end) <= p <= Hi(begin, end) ==> p in used || p in failed
    requires forall k :: 0 <= k < |failed| ==> BindAt(binds, k).Fails?
    ensures AllFail(binds, Attempts(used, begin, end))
  {
    SubsetSize(FreePorts(used, begin, end), failed);
  }

  /** A port beyond those that failed leaves room for one more attempt. */
  lemma OneMoreAttempt(failed: set<Port>, port: Port, used: Ports, begin: Port, end: Port)
    requires failed <= FreePorts(used, begin, end) && port in FreePorts(used, begin, end) && port !in failed
    ensures |failed| < |FreePorts(used, begin, end)|
  {
    SubsetSize(failed + {port}, FreePorts(used, begin, end));
  }

  /** What a CONNECTION-BIND does with the pending CONNECT it names. */
  datatype Bound = NoSuchId | BoundFirst(connector: Id) | Paired(connector: Id, first: Sock)

  datatype Reply = Success | Unauthenticated | BadRequest | Forbidden | Mismatch | Quota | NoCapacity

  /** The position of a pending CONNECT known to be there. */
  method FindPending(ps: seq<Pending>, connId: ConnId) returns (i: nat)
    requires connId in ConnIds(ps)
    ensures i < |ps| && ps[i].connId == connId && forall j :: 0 <= j < i ==> ps[j].connId != connId
  {
    ghost var k :| 0 <= k < |ps| && ps[k].connId == connId;
    i := 0;
    while ps[i].connId != connId
      invariant i <= k && forall j :: 0 <= j < i ==> ps[j].connId != connId
      decreases k - i
    {
      i := i + 1;
    }
  }

  /** The request is for a TCP allocation only on a TCP control connection, and the address is nobody else's. */
  predicate Apart(objs: Objs, src: Addr, control: Option<Sock>, proto: nat)
  {
    (proto == 6 ==> control.Some?) && forall y :: y in objs ==> objs[y].client != src
  }

  /** Between two attempts: all before failed, each on its own free port; port 0 means that none is left. */
  ghost predicate Tried(binds: seq<Bind>, used: Ports, begin: Port, end: Port, port: Port, bind: Bind, tries: nat, failed: set<Port>)
  {
    && tries <= BIND_RETRIES && failed <= FreePorts(used, begin, end)
    && (forall k :: 0 <= k < |failed| ==> BindAt(binds, k).Fails?)
    && (port == 0 ==> bind.Fails? && forall p: Port :: Lo(begin, end) <= p <= Hi(begin, end) ==> p in used || p in failed)
    && (port != 0 ==>
          && port in FreePorts(used, begin, end) && port !in failed && |failed| == tries && bind == BindAt(binds, tries))
  }

  lemma TriedEnough(binds: seq<Bind>, used: Ports, begin: Port, end: Port, port: Port, bind: Bind, tries: nat, failed: set<Port>)
    requires Tried(binds, used, begin, end, port, bind, tries, failed)
    requires !(bind.Fails? && tries < BIND_RETRIES && port != 0)
    ensures bind.Fails? ==> AllFail(binds, Attempts(used, begin, end))
    ensures bind.Binds? ==> FirstBinds(binds, Attempts(used, begin, end), tries)
  {
    if port == 0 {
      Exhausted(failed, used, begin, end, binds);
    } else {
      OneMoreAttempt(failed, port, used, begin, end);
    }
  }

  class Tables {
    var objs: Objs
    var allocations: map<AllocKey, Id>
    var byRelaySock: map<Sock, Id>
    var byRelayAddr: map<Port, Id>
    var byClient: map<Addr, Id>
    var byControl: map<Sock, Id>
    var byConnId: map<ConnId, Id>
    var used: Ports
    var atNoSocket: Option<Id>
    var nextConnId: ConnId
    var portBegin: Port
    var portEnd: Port
    var maxAllocations: nat

    ghost function Indexes(): Index
      reads this
    {
      Index(allocations, byRelaySock, byRelayAddr, byClient, byControl, byConnId, used, atNoSocket)
    }

    ghost predicate Valid()
      reads this
    {
      Coherent(objs, Indexes()) && 1 <= portBegin && 1 <= portEnd
    }

    constructor (begin: Port, end: Port, max: nat)
      requires 1 <= begin && 1 <= end
      ensures Valid() && objs == map[] && portBegin == begin && portEnd == end && maxAllocations == max
    {
      objs, allocations, byRelaySock, byRelayAddr := map[], map[], map[], map[];
      byClient, byControl, byConnId, used, atNoSocket := map[], map[], map[], map[], None;
      nextConnId, portBegin, portEnd, maxAllocations := 1, begin, end, max;
    }

    /**
     Reserve a relay port: 200 random picks, then a scan of the range.  It fails only when no
     port of the range is free and not to be avoided.
     */
    method AllocRelayPort(avoid: set<Port>, random: seq<nat>) returns (port: Port)
      requires 1 <= portBegin && 1 <= portEnd
      modifies this`used, this`portBegin, this`portEnd
      ensures portBegin == Lo(old(portBegin), old(portEnd)) && portEnd == Hi(old(portBegin), old(portEnd))
      ensures port != 0 ==> portBegin <= port <= portEnd && port !in old(used) && port !in avoid
      ensures port == 0 ==> forall p: Port :: portBegin <= p <= portEnd ==> p in old(used) || p in avoid
      ensures used == if port == 0 then old(used) else old(used)[port := None]
    {
      if portEnd < portBegin { portBegin, portEnd := portEnd, portBegin; }
      var span := portEnd - portBegin + 1;
      for tries := 0 to RANDOM_TRIES
        invariant used == old(used)
      {
        var r := if tries < |random| then random[tries] else 0;
        port := portBegin + r % span;
        if port !in used && port !in avoid {
          used := used[port := None];
          return;
        }
      }
      for p := portBegin as int to portEnd + 1
        invariant used == old(used)
        invariant forall q: Port :: portBegin <= q < p ==> q in used || q in avoid
      {
        if p !in used && p !in avoid {
          used := used[p := None];
          return p;
        }
      }
      port := 0;
    }

    /** Only the owner, or anyone before an owner is recorded, gives a port back. */
    method ReleaseRelayPort(port: Port, owner: Option<Id>)
      modifies this`used
      ensures used == Released(old(used), port, owner)
    {
      if port !in used { return; }
      if used[port] != None && used[port] != owner { return; }
      used := used - {port};
    }

    /**
     Bind a relay socket: one attempt and up to 50 retries, each on a free port not tried before.  It
     fails exactly if every attempt does, and then leaves no reservation behind.
     */
    method BindRelay(binds: seq<Bind>, random: seq<seq<nat>>)
      returns (port: Port, sock: Option<Sock>, failed: set<Port>)
      requires 1 <= portBegin && 1 <= portEnd
      requires forall b :: b in binds && b.Binds? && b.moved.Some? ==> b.moved.value !in used
      modifies this`used, this`portBegin, this`portEnd
      ensures portBegin == Lo(old(portBegin), old(portEnd)) && portEnd == Hi(old(portBegin), old(portEnd))
      ensures sock.None? <==> AllFail(binds, Attempts(old(used), old(portBegin), old(portEnd)))
      ensures sock.None? ==> used == old(used)
      ensures sock.Some? ==> port !in old(used) && used == old(used)[port := None]
      ensures sock.Some? ==> RelayBound(old(used), old(portBegin), old(portEnd), binds, port, sock)
    {
      ghost var before, lo, hi := used, portBegin, portEnd;
      var bind, tries;
      port, bind, tries, failed := TryBinds(binds, random);
      sock := None;
      if bind.Fails? {
        if port != 0 {
          ReleaseRelayPort(port, None);
          assert used == before;
        }
        return;
      }
      assert bind in binds;
      assert FirstBinds(binds, Attempts(before, lo, hi), tries);
      sock := Some(bind.sock);
      if bind.moved.Some? && bind.moved.value != port {
        ReleaseRelayPort(port, None);
        assert used == before;
        port := bind.moved.value;
        used := used[port := None];
      }
    }

    /** The attempts: `bind` is the outcome of the last one, on the port still reserved, if any. */
    method TryBinds(binds: seq<Bind>, random: seq<seq<nat>>) returns (port: Port, bind: Bind, tries: nat, failed: set<Port>)
      requires 1 <= portBegin && 1 <= portEnd
      modifies this`used, this`portBegin, this`portEnd
      ensures portBegin == Lo(old(portBegin), old(portEnd)) && portEnd == Hi(old(portBegin), old(portEnd))
      ensures port == 0 ==> used == old(used) && bind.Fails?
      ensures port != 0 ==> port in FreePorts(old(used), old(portBegin), old(portEnd)) && used == old(used)[port := None]
      ensures bind.Fails? ==> AllFail(binds, Attempts(old(used), old(portBegin), old(portEnd)))
      ensures bind.Binds? ==>
                bind == BindAt(binds, tries) && FirstBinds(binds, Attempts(old(used), old(portBegin), old(portEnd)), tries)
    {
      ghost var before, lo, hi := used, portBegin, portEnd;
      failed, tries, bind := {}, 0, Fails;
      port := AllocRelayPort(failed, if 0 < |random| then random[0] else []);
      if port != 0 { bind := BindAt(binds, 0); }
      while bind.Fails? && tries < BIND_RETRIES && port != 0
        invariant portBegin == Lo(lo, hi) && portEnd == Hi(lo, hi)
        invariant Tried(binds, before, lo, hi, port, bind, tries, failed)
        invariant used == if port == 0 then before else before[port := None]
        decreases BIND_RETRIES - tries, port != 0
      {
        failed := failed + {port};
        ReleaseRelayPort(port, None);
        assert used == before;
        port := AllocRelayPort(failed, if tries + 1 < |random| then random[tries + 1] else []);
        if port != 0 {
          bind := BindAt(binds, tries + 1);
          tries := tries + 1;
        }
      }
      TriedEnough(binds, before, lo, hi, port, bind, tries, failed);
    }

    /** Erase whatever is entered under the keys of `a`. */
    method EraseIndexes(id: Id, a: Alloc)
      requires a.relayPort in used && used[a.relayPort] == Some(id)
      modifies this`allocations, this`byRelaySock, this`byRelayAddr, this`byClient, this`byControl, this`byConnId, this`used
      ensures Indexes() == Removed(old(Indexes()), a)
    {
      if a.relaySock.Some? { byRelaySock := byRelaySock - {a.relaySock.value}; }
      byRelayAddr := byRelayAddr - {a.relayPort};
      byClient := byClient - {a.client};
      if a.control.Some? { byControl := byControl - {a.control.value}; }
      ErasePendings(a.pendings);
      ReleaseRelayPort(a.relayPort, Some(id));
      allocations := allocations - {KeyOf(a)};
    }

    /** Free an allocation and everything recorded for it. */
    method DestroyAllocation(id: Id)
      requires Valid() && id in objs
      modifies this
      ensures Valid() && objs == old(objs) - {id}
      ensures portBegin == old(portBegin) && portEnd == old(portEnd) && nextConnId == old(nextConnId)
      ensures maxAllocations == old(maxAllocations)
      ensures Indexes() == Removed(old(Indexes()), old(objs)[id])
    {
      ghost var x := Indexes();
      var a := objs[id];
      OwnsPort(objs, x, id);
      RemoveKeeps(objs, x, id);
      EraseIndexes(id, a);
      objs := objs - {id};
    }

    method ErasePendings(ps: seq<Pending>)
      modifies this`byConnId
      ensures byConnId == old(byConnId) - ConnIds(ps)
    {
      for i := 0 to |ps|
        invariant byConnId == old(byConnId) - ConnIds(ps[..i])
      {
        ConnIdsGrow(ps, i);
        byConnId := byConnId - {ps[i].connId};
      }
      assert ps[..|ps|] == ps;
    }

    /** Enter a new allocation in the maps its transport and control path call for. */
    method EnterIndexes(id: Id, a: Alloc)
      requires a.transport.Dgram? <==> a.relaySock.Some?
      modifies this`allocations, this`byRelaySock, this`byRelayAddr, this`byClient, this`byControl, this`used, this`atNoSocket
      ensures Indexes() == Added(old(Indexes()), id, a)
    {
      used := used[a.relayPort := Some(id)];
      if a.transport.Dgram? {
        byRelaySock := byRelaySock[a.relaySock.value := id];
        byRelayAddr := byRelayAddr[a.relayPort := id];
        byClient := byClient[a.client := id];
      } else if a.control.None? {
        atNoSocket := Some(id);
      } else {
        byControl := byControl[a.control.value := id];
      }
      if a.control.Some? { byControl := byControl[a.control.value := id]; }
      allocations := allocations[KeyOf(a) := id];
    }

    /** The allocation a request is about: by 5-tuple on UDP, by control socket on TCP. */
    function Current(src: Addr, control: Option<Sock>): (r: Option<Id>)
      reads this
      ensures r == CurrentIn(Indexes(), src, control)
    {
      if control.Some? then Get(byControl, control.value) else Get(allocations, AllocKey(Dgram, src))
    }

    /** Reserve the port of a TCP allocation, or bind the relay socket of a UDP one. */
    method Reserve(stream: bool, binds: seq<Bind>, random: seq<seq<nat>>) returns (port: Port, sock: Option<Sock>, ok: bool)
      requires 1 <= portBegin && 1 <= portEnd
      requires forall b :: b in binds && b.Binds? && b.moved.Some? ==> b.moved.value !in used
      modifies this`used, this`portBegin, this`portEnd
      ensures portBegin == Lo(old(portBegin), old(portEnd)) && portEnd == Hi(old(portBegin), old(portEnd))
      ensures ok <==> CanReserve(stream, old(used), old(portBegin), old(portEnd), binds)
      ensures !ok ==> used == old(used)
      ensures ok ==> port !in old(used) && used == old(used)[port := None]
      ensures ok ==> RelayFor(stream, old(used), old(portBegin), old(portEnd), binds, port, sock)
    {
      sock := None;
      if stream {
        port := AllocRelayPort({}, if 0 < |random| then random[0] else []);
        ok := port != 0;
        assert ok ==> port in FreePorts(old(used), old(portBegin), old(portEnd));
      } else {
        var failed;
        port, sock, failed := BindRelay(binds, random);
        ok := sock.Some?;
      }
    }

    /** Turn the reservation made on top of `x` into a live allocation; one under the same key is overwritten. */
    method Commit(id: Id, a: Alloc, ghost x: Index)
      requires Coherent(objs, x) && Indexes() == x.(used := x.used[a.relayPort := None])
      requires id !in objs && a.pendings == [] && a.relayPort !in x.used
      requires a.transport.Dgram? <==> a.relaySock.Some?
      requires a.relaySock.Some? ==> a.relaySock.value !in x.byRelaySock
      requires a.control.Some? ==> a.control.value !in x.byControl
      modifies this`objs, this`allocations, this`byRelaySock, this`byRelayAddr, this`byClient, this`byControl, this`used, this`atNoSocket
      ensures Coherent(objs, Indexes()) <==> Separate(old(objs), a)
      ensures objs == Replaced(old(objs), x, id, a)
      ensures Separate(old(objs), a) ==> objs == old(objs)[id := a]
    {
      CommitKeepsIff(objs, x, id, a);
      var rest := if KeyOf(a) in allocations then objs - {allocations[KeyOf(a)]} else objs;
      EnterIndexes(id, a);
      objs := rest[id := a];
    }

    /**
     Create an allocation.  The tables stay coherent exactly unless it is a TCP allocation asked for
     over UDP, or its client's address is already that of a live allocation.
     */
    method HandleAllocate(id: Id, src: Addr, control: Option<Sock>, proto: Option<nat>, binds: seq<Bind>,
                          random: seq<seq<nat>>, now: int, lifetime: nat)
      returns (r: Reply)
      requires Valid() && id !in objs
      requires control.Some? ==> control.value !in byControl
      requires forall b :: b in binds && b.Binds? ==> b.sock !in byRelaySock && (b.moved.Some? ==> b.moved.value !in used)
      modifies this
      ensures nextConnId == old(nextConnId) && maxAllocations == old(maxAllocations)
      ensures r == BadRequest <==> proto.None?
      ensures r == Quota <==> proto.Some? && |old(allocations)| >= maxAllocations
      ensures r == NoCapacity <==>
              && proto.Some? && |old(allocations)| < maxAllocations
              && !CanReserve(proto.value == 6, old(used), old(portBegin), old(portEnd), binds)
      ensures r in {Success, BadRequest, Quota, NoCapacity}
      ensures r != Success ==> Valid() && objs == old(objs)
      ensures r == Success ==> (Valid() <==> Apart(old(objs), src, control, proto.value))
      ensures r == Success ==>
                && id in objs && objs == Replaced(old(objs), old(Indexes()), id, objs[id])
                && objs[id].transport == (if proto.value == 6 then Stream else Dgram)
                && objs[id].client == src && objs[id].control == control && objs[id].pendings == []
                && objs[id].expiry == now + lifetime * 1000
                && objs[id].relayPort !in old(used)
                && RelayFor(proto.value == 6, old(used), old(portBegin), old(portEnd), binds, objs[id].relayPort, objs[id].relaySock)
      ensures r == Success && Apart(old(objs), src, control, proto.value) ==> objs == old(objs)[id := objs[id]]
    {
      if proto.None? { return BadRequest; }
      if |allocations| >= maxAllocations { return Quota; }
      ghost var x := Indexes();
      var stream := proto.value == 6;
      var port, sock, ok := Reserve(stream, binds, random);
      if !ok { return NoCapacity; }
      if !stream { BoundSock(old(used), old(portBegin), old(portEnd), binds, port, sock); }
      var a := Alloc(if stream then Stream else Dgram, src, control, sock, port, now + lifetime * 1000, []);
      Commit(id, a, x);
      r := Success;
    }

    /** Destroy the client's allocation if it has expired; afterwards the client has none or a live one. */
    method ReplaceExpired(src: Addr, control: Option<Sock>, now: int) returns (live: bool)
      requires Valid()
      modifies this
      ensures Valid() && nextConnId == old(nextConnId) && maxAllocations == old(maxAllocations)
      ensures var c := old(Current(src, control));
              && (live <==> c.Some? && c.value in old(objs) && old(objs)[c.value].expiry > now)
              && objs == (if c.Some? && !live then old(objs) - {c.value} else old(objs))
              && Indexes() == (if c.Some? && !live && c.value in old(objs) then Removed(old(Indexes()), old(objs)[c.value]) else old(Indexes()))
      ensures portBegin == old(portBegin) && portEnd == old(portEnd)
      ensures !live && control.Some? ==> control.value !in byControl
      ensures forall h :: h in byRelaySock ==> h in old(byRelaySock)
      ensures forall p :: p in used ==> p in old(used)
    {
      var c := Current(src, control);
      CurrentExists(objs, Indexes(), src, control);
      live := c.Some? && objs[c.value].expiry > now;
      if c.Some? && !live { DestroyAllocation(c.value); }
    }

    /**
     An Allocate request.  A live allocation of the same client is a mismatch; one that has
     expired but was not swept yet is replaced.
     */
    method OnAllocate(id: Id, src: Addr, control: Option<Sock>, proto: Option<nat>, authentic: bool, binds: seq<Bind>,
                      random: seq<seq<nat>>, now: int, lifetime: nat)
      returns (r: Reply)
      requires Valid() && id !in objs
      requires forall b :: b in binds && b.Binds? ==> b.sock !in byRelaySock && (b.moved.Some? ==> b.moved.value !in used)
      modifies this
      ensures nextConnId == old(nextConnId)
      ensures var c := old(Current(src, control));
              var live := c.Some? && c.value in old(objs) && old(objs)[c.value].expiry > now;
              var base := if c.Some? && !live then old(objs) - {c.value} else old(objs);
              var x := if c.Some? && !live && c.value in old(objs) then Removed(old(Indexes()), old(objs)[c.value]) else old(Indexes());
              && (r == Mismatch <==> live)
              && (r == Unauthenticated <==> !live && !authentic)
              && (r == BadRequest <==> !live && authentic && proto.None?)
              && (r == Quota <==> !live && authentic && proto.Some? && |x.allocations| >= old(maxAllocations))
              && (r == NoCapacity <==>
                    && !live && authentic && proto.Some? && |x.allocations| < old(maxAllocations)
                    && !CanReserve(proto.value == 6, x.used, old(portBegin), old(portEnd), binds))
              && r in {Success, Mismatch, Unauthenticated, BadRequest, Quota, NoCapacity}
              && (r != Success ==> Valid() && objs == base)
              && (r == Success ==>
                    && proto.Some? && (Valid() <==> Apart(base, src, control, proto.value))
                    && id in objs && (Apart(base, src, control, proto.value) ==> objs == base[id := objs[id]])
                    && objs[id].client == src && objs[id].control == control
                    && objs[id].expiry == now + lifetime * 1000
                    && RelayFor(proto.value == 6, x.used, old(portBegin), old(portEnd), binds, objs[id].relayPort, objs[id].relaySock))
    {
      var live := ReplaceExpired(src, control, now);
      if live { return Mismatch; }
      if !authentic { return Unauthenticated; }
      r := HandleAllocate(id, src, control, proto, binds, random, now, lifetime);
    }

    /** Extend an allocation, or delete it when the client asks for no lifetime. */
    method HandleRefresh(id: Id, requested: Option<nat>, maxLifetime: nat, now: int) returns (granted: nat)
      requires Valid() && id in objs
      modifies this
      ensures Valid()
      ensures granted == if requested.Some? && requested.value < maxLifetime then requested.value else maxLifetime
      ensures objs == if granted == 0 then old(objs) - {id}
                      else old(objs)[id := old(objs)[id].(expiry := now + granted * 1000)]
    {
      granted := maxLifetime;
      if requested.Some? {
        granted := requested.value;
        if granted > maxLifetime { granted := maxLifetime; }
      }
      if granted != 0 {
        RefreshKeeps(objs, Indexes(), id, now + granted * 1000);
        objs := objs[id := objs[id].(expiry := now + granted * 1000)];
      } else {
        DestroyAllocation(id);
      }
    }

    /** The TCP allocation at a relayed address, other than `self`; a scan of the table. */
    method FindTcpAllocByPeer(peer: Port, self: Id) returns (target: Option<Id>)
      requires Valid()
      ensures target.None? <==> forall y :: y in objs && y != self ==> !(objs[y].transport.Stream? && objs[y].relayPort == peer)
      ensures target.Some? ==>
                && target.value in objs && target.value != self
                && (forall y :: y in objs && objs[y].relayPort == peer ==> y == target.value)
                && objs[target.value].relayPort == peer && objs[target.value].transport.Stream?
    {
      var todo := objs.Keys;
      while todo != {}
        invariant todo <= objs.Keys
        invariant forall y :: y in objs && y !in todo && y != self ==> !(objs[y].transport.Stream? && objs[y].relayPort == peer)
        decreases |todo|
      {
        var y :| y in todo;
        if y != self && objs[y].transport.Stream? && objs[y].relayPort == peer {
          PortOwnerUnique(objs, Indexes(), y);
          return Some(y);
        }
        todo := todo - {y};
      }
      target := None;
    }

    /** A CONNECT request of TCP allocation `id`; `peer` is the port of its peer address, if that is on this server. */
    method HandleConnect(id: Id, hasPeer: bool, peer: Option<Port>, now: int) returns (r: Reply)
      requires Valid() && id in objs && nextConnId !in byConnId
      modifies this
      ensures Valid() && r in {Success, BadRequest, Forbidden}
      ensures r == BadRequest <==> !hasPeer
      ensures r == Success <==>
              hasPeer && exists y :: y in old(objs) && y != id && old(objs)[y].transport.Stream? && peer == Some(old(objs)[y].relayPort)
      ensures objs == if r == Success
                      then old(objs)[id := old(objs)[id].(pendings := old(objs)[id].pendings +
                                                          [Pending(old(nextConnId), None, now + PENDING_CONNECT_MS)])]
                      else old(objs)
    {
      if !hasPeer { return BadRequest; }
      var target := None;
      if peer.Some? { target := FindTcpAllocByPeer(peer.value, id); }
      if target.None? { return Forbidden; }
      var p := Pending(nextConnId, None, now + PENDING_CONNECT_MS);
      ConnectKeeps(objs, Indexes(), id, p);
      nextConnId := (nextConnId + 1) % CONN_ID_MODULUS;
      byConnId := byConnId[p.connId := id];
      objs := objs[id := objs[id].(pendings := objs[id].pendings + [p])];
      r := Success;
    }

    /**
     CONNECTION-BIND on `sock`: the first one records its socket in the pending CONNECT, the second
     retires it.  The search inside the connector's allocation always finds the entry.
     */
    method HandleConnectionBind(connId: ConnId, sock: Sock) returns (r: Bound)
      requires Valid()
      modifies this`objs, this`byConnId
      ensures Valid()
      ensures r.NoSuchId? <==> connId !in old(byConnId)
      ensures r.NoSuchId? ==> objs == old(objs)
      ensures !r.NoSuchId? ==> r.connector == old(byConnId)[connId] && r.connector in old(objs)
      ensures !r.NoSuchId? ==>
                exists i ::
                  var a := old(objs)[r.connector];
                  && 0 <= i < |a.pendings| && a.pendings[i].connId == connId
                  && (r.BoundFirst? ==>
                        && a.pendings[i].first.None?
                        && objs == old(objs)[r.connector := a.(pendings := a.pendings[i := a.pendings[i].(first := Some(sock))])])
                  && (r.Paired? ==>
                        && a.pendings[i].first == Some(r.first)
                        && objs == old(objs)[r.connector := a.(pendings := Filter(a.pendings, OtherThan(connId)))])
    {
      if connId !in byConnId { return NoSuchId; }
      var id := byConnId[connId];
      ConnIdFound(objs, Indexes(), connId);
      var a := objs[id];
      var i := FindPending(a.pendings, connId);
      var p := a.pendings[i];
      if p.first.None? {
        BindFirstKeeps(objs, Indexes(), id, i, sock);
        objs := objs[id := a.(pendings := a.pendings[i := p.(first := Some(sock))])];
        r := BoundFirst(id);
      } else {
        Retire(id, connId);
        r := Paired(id, p.first.value);
      }
    }

    method Retire(id: Id, connId: ConnId)
      requires Valid() && id in objs && connId in ConnIds(objs[id].pendings)
      modifies this`objs, this`byConnId
      ensures Valid()
      ensures objs == old(objs)[id := old(objs)[id].(pendings := Filter(old(objs)[id].pendings, OtherThan(connId)))]
    {
      FilterKeeps(objs, Indexes(), id, OtherThan(connId));
      RetireIs(byConnId, objs[id].pendings, connId);
      byConnId := byConnId - {connId};
      objs := objs[id := objs[id].(pendings := Filter(objs[id].pendings, OtherThan(connId)))];
    }

    /** A closed control connection takes its allocation with it. */
    method CloseControl(sock: Sock)
      requires Valid()
      modifies this
      ensures Valid()
      ensures objs == if sock in old(byControl) then old(objs) - {old(byControl)[sock]} else old(objs)
      ensures forall y :: y in objs ==> objs[y].control != Some(sock)
    {
      if sock in byControl {
        assert Live(objs, byControl[sock], ByControl(sock));
        DestroyAllocation(byControl[sock]);
      }
      ControlGone(objs, Indexes(), sock);
    }

    /** Drop the expired pending CONNECTs of one allocation. */
    method TrimPendings(id: Id, now: int)
      requires Valid() && id in objs
      modifies this`objs, this`byConnId
      ensures Valid() && objs == old(objs)[id := Kept(old(objs)[id], now)]
    {
      var ps := objs[id].pendings;
      FilterKeeps(objs, Indexes(), id, LaterThan(now));
      ErasePendings(Filter(ps, Not(LaterThan(now))));
      objs := objs[id := objs[id].(pendings := Filter(ps, LaterThan(now)))];
    }

    /** Trim or destroy one allocation. */
    method SweepOne(id: Id, now: int)
      requires Valid() && id in objs
      modifies this
      ensures Valid() && portBegin == old(portBegin) && portEnd == old(portEnd)
      ensures objs == SweptAt(old(objs), id, now)
    {
      TrimPendings(id, now);
      if objs[id].expiry <= now {
        DestroyAllocation(id);
        assert objs == old(objs) - {id};
      }
    }

    /**
     The expiry sweep: exactly the expired allocations and pending CONNECTs go.  The orphan sweep
     that follows finds no port whose owner is gone.
     */
    method ExpireStale(now: int) returns (orphans: set<Port>)
      requires Valid()
      modifies this
      ensures Valid() && objs == Swept(old(objs), now) && orphans == {}
    {
      SweepAll(now);
      orphans := SweepOrphans();
    }

    method SweepAll(now: int)
      requires Valid()
      modifies this
      ensures Valid() && objs == Swept(old(objs), now)
    {
      var todo := objs.Keys;
      while todo != {}
        invariant Valid() && PartlySwept(old(objs), objs, todo, now)
        decreases |todo|
      {
        var id :| id in todo;
        SweepStep(old(objs), objs, todo, id, now);
        SweepOne(id, now);
        todo := todo - {id};
      }
      FullySwept(old(objs), objs, now);
    }

    /** Force-release the ports whose owner no longer exists: there are none. */
    method SweepOrphans() returns (orphans: set<Port>)
      requires Valid()
      modifies this`used
      ensures used == old(used) && orphans == {}
    {
      orphans := FindOrphans();
      used := used - orphans;
    }

    method FindOrphans() returns (orphans: set<Port>)
      requires Valid()
      ensures orphans == {}
    {
      orphans := {};
      var todo := used.Keys;
      while todo != {}
        invariant todo <= used.Keys && orphans == {}
        decreases |todo|
      {
        var p :| p in todo;
        NoOrphan(objs, Indexes(), p);
        if used[p].Some? && KeyOf(objs[used[p].value]) !in allocations {
          orphans := orphans + {p};
        }
        todo := todo - {p};
      }
    }
  }
}
