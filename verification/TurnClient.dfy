/**
 Transactions of the TURN client against an arbitrary server: requests in flight, their
 retransmission timer, the guards that keep one CreatePermission and one ChannelBind per peer,
 and the bounded authentication retries.

 Transaction ids are fresh by counting.  An encoded request is the record of what went into it,
 so that two sends carry identical bytes exactly when the records are equal.  `sent` and
 `authRetries` are histories: every send of each transaction, and the retries granted since the
 last success.
 */
module TurnClient {
  import opened Options

  type Tid = nat
  type Peer = nat

  const RTO_MS := 200
  const MAX_RTX_INTERVAL_MS := 1600
  const MAX_RTX := 7
  const MAX_NONCE_RETRIES := 3
  const PERMISSION_REFRESH_MS := 120_000
  const CHANNEL_REFRESH_MS := 300_000
  const STALE_BINDING_MS := 300_000

  datatype AllocState = Idle | Allocating | Allocated | Deallocated | Failed

  datatype Kind = Allocate | Refresh | CreatePermission | ChannelBind | Connect

  /** An encoded request: `arg` is the lifetime or channel it carries, `nonce` the credentials used. */
  datatype Raw = Raw(tid: Tid, kind: Kind, peer: Peer, arg: int, nonce: int)

  datatype Tx = Tx(kind: Kind, peer: Peer, raw: Raw, nextAt: int, retries: nat)

  datatype Binding = Binding(
    channel: nat, permitted: bool, ready: bool, permissionRefreshAt: int, channelRefreshAt: int,
    permissionTid: Tid, permissionFresh: bool, channelTid: Tid, channelFresh: bool)

  const BLANK := Binding(0, false, false, 0, 0, 0, false, 0, false)

  /** `jitter` is the random part of the next refresh time, in seconds. */
  datatype Response = Success(hasRelayed: bool, hasLifetime: bool, lifetime: nat, jitter: nat) | Error(code: nat, nonce: int)

  /** A request as it is first sent. */
  function NewTx(t: Tid, kind: Kind, peer: Peer, arg: int, nonce: int, now: int): Tx
  {
    Tx(kind, peer, Raw(t, kind, peer, arg, nonce), now + RTO_MS, 0)
  }

  /** Whether a 401 or 438 is answered by another attempt. */
  predicate Retries(code: nat, hasCreds: bool, retryAuthed: bool, nonceRetries: nat)
  {
    nonceRetries < MAX_NONCE_RETRIES && ((code == 401 && (!hasCreds || retryAuthed)) || code == 438)
  }

  /** The lifetime a success grants; one that names none grants what was requested. */
  function Granted(r: Response, requested: nat): nat
    requires r.Success?
  {
    if r.hasLifetime then r.lifetime else requested
  }

  /** Half the lifetime, at least a second, and the jitter. */
  function RefreshDue(r: Response, requested: nat, now: int): int
    requires r.Success?
  {
    now + 1000 * ((if Granted(r, requested) / 2 > 1 then Granted(r, requested) / 2 else 1) + r.jitter)
  }

  /** Nine channel numbers drawn at random. */
  type Picks = s: seq<nat> | |s| == 9 && forall i :: 0 <= i < 9 ==> 0x4000 <= s[i] <= 0x7FFF witness seq(9, i => 0x4000)

  const TRIES := 8

  type Pending = map<Tid, Tx>
  type Bindings = map<Peer, Binding>
  type Sent = map<Tid, seq<Raw>>

  // ---- Invariant -----------------------------------------------------------------------

  /** A pending CreatePermission or ChannelBind is the one its peer's binding remembers as in flight. */
  predicate Guarded(bindings: Bindings, t: Tid, tx: Tx)
  {
    && (tx.kind.CreatePermission? ==>
          tx.peer in bindings && bindings[tx.peer].permissionFresh && bindings[tx.peer].permissionTid == t)
    && (tx.kind.ChannelBind? ==>
          tx.peer in bindings && bindings[tx.peer].channelFresh && bindings[tx.peer].channelTid == t)
  }

  predicate GuardInv(pending: Pending, bindings: Bindings)
  {
    forall t :: t in pending ==> Guarded(bindings, t, pending[t])
  }

  /** Exactly once on a reliable transport, at most eight times on UDP, always the same bytes. */
  predicate SentOk(reliable: bool, raws: seq<Raw>)
  {
    && 1 <= |raws| <= (if reliable then 1 else 1 + MAX_RTX)
    && forall i :: 0 <= i < |raws| ==> raws[i] == raws[0]
  }

  /** The history of a pending transaction agrees with its retry counter. */
  predicate TxSent(reliable: bool, sent: Sent, t: Tid, tx: Tx)
  {
    && t in sent && tx.retries <= MAX_RTX
    && |sent[t]| == (if reliable then 1 else 1 + tx.retries) && sent[t][0] == tx.raw
  }

  predicate SendInv(reliable: bool, pending: Pending, sent: Sent, nextTid: Tid)
  {
    && (forall t :: t in sent ==> t < nextTid && SentOk(reliable, sent[t]))
    && (forall t :: t in pending ==> TxSent(reliable, sent, t, pending[t]))
  }

  /**
   What every call may do to the histories: new transactions take new ids, a transaction that is
   no longer pending is never sent again, and nothing already sent is forgotten.
   */
  predicate Later(pending: Pending, sent: Sent, nextTid: Tid, pending': Pending, sent': Sent, nextTid': Tid)
  {
    && nextTid <= nextTid'
    && (forall t :: t in pending' ==> t in pending || nextTid <= t)
    && (forall t :: t in sent ==> t in sent' && sent[t] <= sent'[t] && (t !in pending ==> sent'[t] == sent[t]))
  }

  lemma LaterTrans(p: Pending, s: Sent, n: Tid, p1: Pending, s1: Sent, n1: Tid, p2: Pending, s2: Sent, n2: Tid)
    requires Later(p, s, n, p1, s1, n1) && Later(p1, s1, n1, p2, s2, n2)
    requires forall t :: t in s ==> t < n
    ensures Later(p, s, n, p2, s2, n2)
  {
  }

  /** Removing transactions never hurts. */
  lemma FewerPending(reliable: bool, pending: Pending, fewer: Pending, sent: Sent, nextTid: Tid, bindings: Bindings)
    requires SendInv(reliable, pending, sent, nextTid) && GuardInv(pending, bindings)
    requires forall t :: t in fewer ==> t in pending && fewer[t] == pending[t]
    ensures SendInv(reliable, fewer, sent, nextTid) && GuardInv(fewer, bindings)
  {
  }

  /** A new transaction and its first send. */
  lemma RegisterKeeps(reliable: bool, pending: Pending, sent: Sent, nextTid: Tid, tx: Tx)
    requires SendInv(reliable, pending, sent, nextTid) && tx.retries == 0
    ensures SendInv(reliable, pending[nextTid := tx], sent[nextTid := [tx.raw]], nextTid + 1)
  {
  }

  /** One more send of a pending transaction, or on a reliable transport only its timer. */
  lemma RetransmitKeeps(reliable: bool, pending: Pending, sent: Sent, nextTid: Tid, t: Tid, nextAt: int)
    requires SendInv(reliable, pending, sent, nextTid) && t in pending && pending[t].retries < MAX_RTX
    ensures t in sent
    ensures SendInv(reliable, pending[t := pending[t].(retries := pending[t].retries + 1, nextAt := nextAt)],
                    if reliable then sent else sent[t := sent[t] + [pending[t].raw]], nextTid)
  {
  }

  /** No transaction of the given kind is pending for the peer. */
  predicate NonePending(pending: Pending, kind: Kind, peer: Peer)
  {
    forall t :: t in pending ==> !(pending[t].kind == kind && pending[t].peer == peer)
  }

  /** Two CreatePermissions, or two ChannelBinds, for one peer. */
  predicate SamePeerRequest(a: Tx, b: Tx)
  {
    a.kind == b.kind && a.peer == b.peer && (a.kind.CreatePermission? || a.kind.ChannelBind?)
  }

  /** At most one CreatePermission and one ChannelBind per peer. */
  lemma AtMostOnePending(pending: Pending, bindings: Bindings, t: Tid, u: Tid)
    requires GuardInv(pending, bindings) && t in pending && u in pending
    requires SamePeerRequest(pending[t], pending[u])
    ensures t == u
  {
  }

  lemma NotFreshNonePending(pending: Pending, bindings: Bindings, peer: Peer)
    requires GuardInv(pending, bindings)
    ensures peer in bindings && !bindings[peer].permissionFresh ==> NonePending(pending, CreatePermission, peer)
    ensures peer in bindings && !bindings[peer].channelFresh ==> NonePending(pending, ChannelBind, peer)
    ensures peer !in bindings ==> NonePending(pending, CreatePermission, peer) && NonePending(pending, ChannelBind, peer)
  {
  }

  /** Changing a binding is safe if the guards of what is pending stay. */
  lemma BindingKeeps(pending: Pending, bindings: Bindings, peer: Peer, b: Binding)
    requires GuardInv(pending, bindings)
    requires NonePending(pending, CreatePermission, peer) ||
             (peer in bindings && b.permissionFresh == bindings[peer].permissionFresh && b.permissionTid == bindings[peer].permissionTid)
    requires NonePending(pending, ChannelBind, peer) ||
             (peer in bindings && b.channelFresh == bindings[peer].channelFresh && b.channelTid == bindings[peer].channelTid)
    ensures GuardInv(pending, bindings[peer := b])
  {
  }

  function Get(bindings: Bindings, peer: Peer): Binding { if peer in bindings then bindings[peer] else BLANK }

  function Doubled(retries: nat): nat { if retries == 0 then RTO_MS else 2 * Doubled(retries - 1) }

  /** Intervals double from the base up to the ceiling. */
  function Interval(retries: nat): (ms: nat)
    ensures ms <= MAX_RTX_INTERVAL_MS
  {
    if Doubled(retries) < MAX_RTX_INTERVAL_MS then Doubled(retries) else MAX_RTX_INTERVAL_MS
  }

  /** 200, 400 and 800 ms, and 1600 ms from then on. */
  lemma {:induction false} IntervalIs(retries: nat)
    ensures Interval(retries) == if retries == 0 then 200 else if retries == 1 then 400 else if retries == 2 then 800 else 1600
  {
    if retries >= 3 { DoubledGrows(retries); }
    assert Doubled(1) == 400 && Doubled(2) == 2 * Doubled(1);
  }

  lemma {:induction false} DoubledGrows(retries: nat)
    requires retries >= 3
    ensures Doubled(retries) >= 1600
  {
    if retries > 3 {
      DoubledGrows(retries - 1);
    } else {
      assert Doubled(1) == 400 && Doubled(2) == 2 * Doubled(1) && Doubled(3) == 2 * Doubled(2);
    }
  }

  /** The jitter the client draws: none for short lifetimes, else up to a tenth. */
  predicate JitterOk(r: Response, requested: nat)
    requires r.Success?
  {
    r.jitter <= if Granted(r, requested) > 10 then Granted(r, requested) / 10 else 0
  }

  /**
   A refresh is due a second at least after the grant, and at half the lifetime (in whole seconds)
   plus the jitter if that is more; that is before the allocation expires exactly if two seconds or more were granted.
   */
  lemma RefreshInTime(r: Response, requested: nat, now: int)
    requires r.Success? && JitterOk(r, requested)
    ensures var due, life := RefreshDue(r, requested, now), if r.hasLifetime then r.lifetime else requested;
            && due >= now + 1000
            && (life >= 2 ==> 1000 * (life - 1) <= 2 * (due - now - 1000 * r.jitter) <= 1000 * life)
            && (due < now + 1000 * life <==> life >= 2)
  {
  }

  /** A pending request after one more send. */
  function Resent(tx: Tx, now: int): Tx
  {
    tx.(retries := tx.retries + 1, nextAt := now + Interval(tx.retries + 1))
  }

  /** A request is first due again after 200 ms, and after each further send as `IntervalIs` says; nothing else of it changes. */
  lemma TimerIs(t: Tid, kind: Kind, peer: Peer, arg: int, nonce: int, tx: Tx, now: int)
    ensures NewTx(t, kind, peer, arg, nonce, now).nextAt == now + 200 && NewTx(t, kind, peer, arg, nonce, now).retries == 0
    ensures var again := Resent(tx, now);
            && again.kind == tx.kind && again.peer == tx.peer && again.raw == tx.raw && again.retries == tx.retries + 1
            && again.nextAt == now + if tx.retries == 0 then 400 else if tx.retries == 1 then 800 else 1600
  {
    IntervalIs(tx.retries + 1);
  }

  /** The bindings once a transaction's guard is lifted. */
  function Lifted(bindings: Bindings, tx: Tx): Bindings
  {
    if tx.peer in bindings && tx.kind.CreatePermission? then bindings[tx.peer := bindings[tx.peer].(permissionFresh := false)]
    else if tx.peer in bindings && tx.kind.ChannelBind? then bindings[tx.peer := bindings[tx.peer].(channelFresh := false)]
    else bindings
  }

  /** Only the peer's own guard of that kind is lifted; the other guard and everything else stays. */
  lemma LiftedIs(bindings: Bindings, tx: Tx, p: Peer)
    ensures Lifted(bindings, tx).Keys == bindings.Keys
    ensures p in bindings && p != tx.peer ==> Lifted(bindings, tx)[p] == bindings[p]
    ensures tx.peer in bindings ==>
              var b, a := bindings[tx.peer], Lifted(bindings, tx)[tx.peer];
              && (tx.kind.CreatePermission? ==> !a.permissionFresh) && (tx.kind.ChannelBind? ==> !a.channelFresh)
              && (!tx.kind.CreatePermission? ==> a.permissionFresh == b.permissionFresh)
              && (!tx.kind.ChannelBind? ==> a.channelFresh == b.channelFresh)
              && a.(permissionFresh := b.permissionFresh, channelFresh := b.channelFresh) == b
  {
  }

  /** What is due for a peer has a request in flight. */
  predicate DueServed(b: Binding, now: int)
  {
    && (b.permitted && now >= b.permissionRefreshAt ==> b.permissionFresh)
    && (b.ready && now >= b.channelRefreshAt ==> b.channelFresh)
  }

  predicate Exhausted(tx: Tx, now: int) { now >= tx.nextAt && tx.retries >= MAX_RTX }

  /** What one pass of the timers does with a transaction. */
  predicate Timed(tx: Tx, now: int, pending: Pending, t: Tid)
  {
    if now < tx.nextAt then t in pending && pending[t] == tx
    else if tx.retries < MAX_RTX then t in pending && pending[t] == Resent(tx, now)
    else t !in pending
  }

  /** Out of retransmissions, and the allocation goes with it. */
  predicate Fatal(tx: Tx, now: int) { Exhausted(tx, now) && (tx.kind.Allocate? || tx.kind.Refresh?) }

  function AfterTimer(pending: Pending, t: Tid, now: int): Pending
    requires t in pending
  {
    var tx := pending[t];
    if now < tx.nextAt then pending else if tx.retries < MAX_RTX then pending[t := Resent(tx, now)] else pending - {t}
  }

  /** Every transaction was timed once, but those in `todo` not yet. */
  predicate TimedExcept(before: Pending, pending: Pending, todo: set<Tid>, now: int)
  {
    && (forall t :: t in todo ==> t in before && t in pending && pending[t] == before[t])
    && (forall t :: t in before && t !in todo ==> Timed(before[t], now, pending, t))
    && (forall t :: t in pending ==> t in before)
  }

  lemma StillPending(before: Pending, pending: Pending, todo: set<Tid>, t: Tid, now: int)
    requires TimedExcept(before, pending, todo, now) && t in todo
    ensures t in before && t in pending && pending[t] == before[t]
  {
  }

  lemma TimedStep(before: Pending, pending: Pending, todo: set<Tid>, t: Tid, now: int)
    requires TimedExcept(before, pending, todo, now) && t in todo && t in pending
    ensures TimedExcept(before, AfterTimer(pending, t, now), todo - {t}, now)
  {
  }

  // ---- Channel numbers -----------------------------------------------------------------

  /** Another peer has this number. */
  predicate Taken(bindings: Bindings, peer: Peer, c: nat) { exists p :: p in bindings && p != peer && bindings[p].channel == c }

  /** The first of the first eight picks that is free, else the ninth. */
  function Picked(bindings: Bindings, peer: Peer, picks: Picks, i: nat): (c: nat)
    requires i <= TRIES
    ensures exists k :: i <= k < 9 && c == picks[k]
    ensures Taken(bindings, peer, c) ==> forall k :: i <= k < TRIES ==> Taken(bindings, peer, picks[k])
    decreases TRIES - i
  {
    if i == TRIES || !Taken(bindings, peer, picks[i]) then picks[i] else Picked(bindings, peer, picks, i + 1)
  }

  /** The number is another peer's exactly if all nine picks were. */
  lemma {:induction false} PickedTakenIff(bindings: Bindings, peer: Peer, picks: Picks, i: nat)
    requires i <= TRIES
    ensures Taken(bindings, peer, Picked(bindings, peer, picks, i)) <==> forall k :: i <= k < 9 ==> Taken(bindings, peer, picks[k])
    decreases TRIES - i
  {
    if i < TRIES && Taken(bindings, peer, picks[i]) { PickedTakenIff(bindings, peer, picks, i + 1); }
  }

  method IsTaken(bindings: Bindings, peer: Peer, c: nat) returns (r: bool)
    ensures r == Taken(bindings, peer, c)
  {
    var todo := bindings.Keys;
    while todo != {}
      invariant todo <= bindings.Keys
      invariant forall p :: p in bindings && p !in todo && p != peer ==> bindings[p].channel != c
      decreases |todo|
    {
      var p :| p in todo;
      if p != peer && bindings[p].channel == c { return true; }
      todo := todo - {p};
    }
    r := false;
  }

  /** Draw up to eight numbers for one that no other peer has, then take the ninth as it is. */
  method PickChannel(bindings: Bindings, peer: Peer, picks: Picks) returns (c: nat)
    ensures c == Picked(bindings, peer, picks, 0)
    ensures Taken(bindings, peer, c) <==> forall k :: 0 <= k < 9 ==> Taken(bindings, peer, picks[k])
  {
    PickedTakenIff(bindings, peer, picks, 0);
    for i := 0 to TRIES
      invariant Picked(bindings, peer, picks, 0) == Picked(bindings, peer, picks, i)
    {
      var taken := IsTaken(bindings, peer, picks[i]);
      if !taken { return picks[i]; }
    }
    c := picks[TRIES];
  }

  // ---- The next wake-up ----------------------------------------------------------------

  /** A time at which something is due. */
  predicate Deadline(pending: Pending, bindings: Bindings, active: bool, refreshAt: int, d: int)
  {
    || (exists t :: t in pending && pending[t].nextAt == d)
    || (exists p :: p in bindings && DueAt(bindings[p], d))
    || (active && refreshAt == d)
  }

  predicate DueAt(b: Binding, d: int) { (b.permitted && b.permissionRefreshAt == d) || (b.ready && b.channelRefreshAt == d) }

  /** The earliest of them, if there is any. */
  ghost predicate Earliest(pending: Pending, bindings: Bindings, active: bool, refreshAt: int, next: Option<int>)
  {
    && (next.Some? ==> Deadline(pending, bindings, active, refreshAt, next.value))
    && (forall d | Deadline(pending, bindings, active, refreshAt, d) :: next.Some? && next.value <= d)
  }

  function Earlier(a: Option<int>, d: int): Option<int> { if a.Some? && a.value <= d then a else Some(d) }

  method FirstTimer(pending: Pending) returns (next: Option<int>)
    ensures Earliest(pending, map[], false, 0, next)
  {
    next := None;
    var todo := pending.Keys;
    while todo != {}
      invariant todo <= pending.Keys
      invariant next.Some? ==> exists t :: t in pending && pending[t].nextAt == next.value
      invariant forall t :: t in pending && t !in todo ==> next.Some? && next.value <= pending[t].nextAt
      decreases |todo|
    {
      var t :| t in todo;
      next := Earlier(next, pending[t].nextAt);
      todo := todo - {t};
    }
  }

  method FirstRefresh(bindings: Bindings) returns (next: Option<int>)
    ensures Earliest(map[], bindings, false, 0, next)
  {
    next := None;
    var todo := bindings.Keys;
    while todo != {}
      invariant todo <= bindings.Keys
      invariant next.Some? ==> exists p :: p in bindings && DueAt(bindings[p], next.value)
      invariant forall p, d :: p in bindings && p !in todo && DueAt(bindings[p], d) ==> next.Some? && next.value <= d
      decreases |todo|
    {
      var p :| p in todo;
      var b := bindings[p];
      ghost var before := next;
      if b.permitted { next := Earlier(next, b.permissionRefreshAt); }
      if b.ready { next := Earlier(next, b.channelRefreshAt); }
      assert next != before ==> DueAt(bindings[p], next.value);
      todo := todo - {p};
    }
  }

  /** The end of `tick`: the earliest time at which anything is due. */
  method NextTick(pending: Pending, bindings: Bindings, active: bool, refreshAt: int) returns (next: Option<int>)
    ensures Earliest(pending, bindings, active, refreshAt, next)
  {
    next := FirstTimer(pending);
    ghost var timer := next;
    var refresh := FirstRefresh(bindings);
    if refresh.Some? { next := Earlier(next, refresh.value); }
    if active { next := Earlier(next, refreshAt); }
    forall d | Deadline(pending, bindings, active, refreshAt, d) ensures next.Some? && next.value <= d {
      assert Deadline(pending, map[], false, 0, d) || Deadline(map[], bindings, false, 0, d) || (active && refreshAt == d);
    }
    assert timer.Some? ==> Deadline(pending, map[], false, 0, timer.value);
    assert refresh.Some? ==> Deadline(map[], bindings, false, 0, refresh.value);
  }

  // ---- The client ----------------------------------------------------------------------

  class Client {
    const reliable: bool
    const requestedLifetime: nat
    var state: AllocState
    var pending: Pending
    var bindings: Bindings
    var hasCreds: bool
    var nonce: int
    var nonceRetries: nat
    var failedEmitted: bool
    var lifetime: nat
    var refreshAt: int
    var refreshFresh: bool
    var nextTid: Tid
    ghost var sent: Sent
    ghost var authRetries: nat

    ghost predicate Valid()
      reads this
    {
      && GuardInv(pending, bindings)
      && SendInv(reliable, pending, sent, nextTid)
      && authRetries <= MAX_NONCE_RETRIES && authRetries <= nonceRetries
    }

    constructor (reliable: bool, lifetime: nat)
      ensures Valid() && pending == map[] && bindings == map[] && state.Idle? && this.reliable == reliable
    {
      this.reliable, requestedLifetime, this.lifetime := reliable, lifetime, 0;
      state, pending, bindings, hasCreds, nonce, nonceRetries := Idle, map[], map[], false, 0, 0;
      failedEmitted, refreshAt, refreshFresh, nextTid, sent, authRetries := false, 0, false, 0, map[], 0;
    }

    /** Encode with the current credentials, record the transaction, then send it. */
    method Register(kind: Kind, peer: Peer, arg: int, now: int) returns (t: Tid)
      requires SendInv(reliable, pending, sent, nextTid)
      modifies this`pending, this`sent, this`nextTid
      ensures SendInv(reliable, pending, sent, nextTid) && t == old(nextTid) && nextTid == t + 1
      ensures pending == old(pending)[t := NewTx(t, kind, peer, arg, nonce, now)]
      ensures t !in old(sent) && sent == old(sent)[t := [pending[t].raw]]
      ensures Later(old(pending), old(sent), old(nextTid), pending, sent, nextTid)
    {
      t := nextTid;
      var tx := NewTx(t, kind, peer, arg, nonce, now);
      RegisterKeeps(reliable, pending, sent, nextTid, tx);
      pending, sent, nextTid := pending[t := tx], sent[t := [tx.raw]], nextTid + 1;
    }

    /** Terminal failure: nothing stays pending, and the sink hears of it once. */
    method FailAllocation() returns (emitted: bool)
      requires Valid()
      modifies this`failedEmitted, this`state, this`pending
      ensures Valid() && emitted == !old(failedEmitted) && failedEmitted
      ensures emitted ==> pending == map[] && state.Failed?
      ensures !emitted ==> pending == old(pending) && state == old(state)
      ensures Later(old(pending), old(sent), old(nextTid), pending, sent, nextTid)
    {
      if failedEmitted { return false; }
      failedEmitted, state, pending := true, Failed, map[];
      emitted := true;
    }

    method StartAllocate(now: int)
      requires Valid()
      modifies this`state, this`pending, this`sent, this`nextTid
      ensures Valid()
      ensures state == if old(state).Idle? then Allocating else old(state)
      ensures pending == if old(state).Idle? then old(pending)[old(nextTid) := NewTx(old(nextTid), Allocate, 0, 0, nonce, now)]
                         else old(pending)
      ensures Later(old(pending), old(sent), old(nextTid), pending, sent, nextTid)
    {
      if !state.Idle? { return; }
      state := Allocating;
      var t := Register(Allocate, 0, 0, now);
    }

    method SendRefresh(lifetime: int, now: int)
      requires Valid()
      modifies this`pending, this`sent, this`nextTid, this`refreshFresh, this`refreshAt
      ensures Valid()
      ensures refreshFresh
      ensures pending == if old(refreshFresh) then old(pending)
                         else old(pending)[old(nextTid) := NewTx(old(nextTid), Refresh, 0, lifetime, nonce, now)]
      ensures refreshAt == if old(refreshFresh) then old(refreshAt) else now + RTO_MS
      ensures Later(old(pending), old(sent), old(nextTid), pending, sent, nextTid)
    {
      if refreshFresh { return; }
      var t := Register(Refresh, 0, lifetime, now);
      refreshFresh, refreshAt := true, now + RTO_MS;
    }

    method Deallocate(now: int)
      requires Valid()
      modifies this`pending, this`sent, this`nextTid, this`refreshFresh, this`refreshAt, this`state
      ensures Valid()
      ensures state == if old(state).Allocated? then Deallocated else old(state)
      ensures pending == if old(state).Allocated? then old(pending)[old(nextTid) := NewTx(old(nextTid), Refresh, 0, 0, nonce, now)]
                         else old(pending)
      ensures Later(old(pending), old(sent), old(nextTid), pending, sent, nextTid)
    {
      if !state.Allocated? { return; }
      refreshFresh := false;
      SendRefresh(0, now);
      state := Deallocated;
    }

    /** One CreatePermission per peer: nothing is sent while one is in flight. */
    method SendCreatePermission(peer: Peer, now: int)
      requires Valid()
      modifies this`pending, this`sent, this`nextTid, this`bindings
      ensures Valid() && peer in bindings && bindings[peer].permissionFresh
      ensures var b := old(Get(bindings, peer));
              if b.permissionFresh then pending == old(pending) && bindings == old(bindings)
              else
                && pending == old(pending)[old(nextTid) := NewTx(old(nextTid), CreatePermission, peer, 0, nonce, now)]
                && bindings == old(bindings)[peer := b.(permissionTid := old(nextTid), permissionFresh := true)]
      ensures forall p :: p in old(bindings) ==> p in bindings
      ensures Later(old(pending), old(sent), old(nextTid), pending, sent, nextTid)
    {
      var b := Get(bindings, peer);
      if b.permissionFresh { return; }
      NotFreshNonePending(pending, bindings, peer);
      b := b.(permissionTid := nextTid, permissionFresh := true);
      BindingKeeps(pending, bindings, peer, b);
      bindings := bindings[peer := b];
      var t := Register(CreatePermission, peer, 0, now);
    }

    /** One ChannelBind per peer; a peer without a channel number gets one. */
    method SendChannelBind(peer: Peer, picks: Picks, now: int)
      requires Valid()
      modifies this`pending, this`sent, this`nextTid, this`bindings
      ensures Valid() && peer in bindings && bindings[peer].channelFresh
      ensures var b := old(Get(bindings, peer));
              var number := if b.channel == 0 then Picked(old(bindings), peer, picks, 0) else b.channel;
              if b.channelFresh then pending == old(pending) && bindings == old(bindings)
              else
                && pending == old(pending)[old(nextTid) := NewTx(old(nextTid), ChannelBind, peer, number, nonce, now)]
                && bindings == old(bindings)[peer := b.(channel := number, channelTid := old(nextTid), channelFresh := true)]
      ensures forall p :: p in old(bindings) ==> p in bindings
      ensures Later(old(pending), old(sent), old(nextTid), pending, sent, nextTid)
    {
      var b := Get(bindings, peer);
      if b.channelFresh { return; }
      var number := b.channel;
      if number == 0 { number := PickChannel(bindings, peer, picks); }
      BindNumber(peer, number, now);
    }

    /** Send a ChannelBind for a number. */
    method BindNumber(peer: Peer, number: nat, now: int)
      requires Valid() && !Get(bindings, peer).channelFresh
      modifies this`pending, this`sent, this`nextTid, this`bindings
      ensures Valid()
      ensures pending == old(pending)[old(nextTid) := NewTx(old(nextTid), ChannelBind, peer, number, nonce, now)]
      ensures bindings == old(bindings)[peer := old(Get(bindings, peer)).(channel := number, channelTid := old(nextTid), channelFresh := true)]
      ensures Later(old(pending), old(sent), old(nextTid), pending, sent, nextTid)
    {
      NotFreshNonePending(pending, bindings, peer);
      var b := Get(bindings, peer).(channel := number, channelTid := nextTid, channelFresh := true);
      BindingKeeps(pending, bindings, peer, b);
      bindings := bindings[peer := b];
      var t := Register(ChannelBind, peer, b.channel, now);
    }

    method SendConnect(peer: Peer, now: int)
      requires Valid()
      modifies this`pending, this`sent, this`nextTid
      ensures Valid()
      ensures pending == if state.Allocated? then old(pending)[old(nextTid) := NewTx(old(nextTid), Connect, peer, 0, nonce, now)]
                         else old(pending)
      ensures Later(old(pending), old(sent), old(nextTid), pending, sent, nextTid)
    {
      if !state.Allocated? { return; }
      var t := Register(Connect, peer, 0, now);
    }

    // ---- Responses ---------------------------------------------------------------------

    /** 401 and 438: whether to send the request again, at most three times between successes. */
    method HandleAuthError(code: nat, newNonce: int, retryAuthed: bool) returns (retry: bool)
      requires authRetries <= MAX_NONCE_RETRIES && authRetries <= nonceRetries
      modifies this`hasCreds, this`nonce, this`nonceRetries, this`authRetries
      ensures authRetries <= MAX_NONCE_RETRIES && authRetries <= nonceRetries
      ensures authRetries == old(authRetries) + if retry then 1 else 0
      ensures retry == Retries(code, old(hasCreds), retryAuthed, old(nonceRetries))
      ensures retry ==> nonceRetries == old(nonceRetries) + 1 && (code == 401 || old(hasCreds) ==> nonce == newNonce)
    {
      if code == 401 {
        if hasCreds && !retryAuthed { return false; }
        nonceRetries := nonceRetries + 1;
        if nonceRetries > MAX_NONCE_RETRIES { return false; }
        hasCreds, nonce := true, newNonce;
        authRetries := authRetries + 1;
        return true;
      }
      if code == 438 {
        nonceRetries := nonceRetries + 1;
        if nonceRetries > MAX_NONCE_RETRIES { return false; }
        if hasCreds { nonce := newNonce; }
        authRetries := authRetries + 1;
        return true;
      }
      retry := false;
    }

    /** A success of any authenticated request starts a new budget of retries. */
    method Proven()
      modifies this`nonceRetries, this`authRetries
      ensures nonceRetries == 0 && authRetries == 0
    {
      nonceRetries, authRetries := 0, 0;
    }

    method HandleAllocateResponse(r: Response, now: int)
      requires Valid()
      modifies this
      ensures Valid() && bindings == old(bindings)
      ensures r.Success? ==> nonceRetries == 0
      ensures r.Success? && r.hasRelayed ==>
                && state.Allocated? && lifetime == Granted(r, requestedLifetime) && pending == old(pending)
                && refreshAt == RefreshDue(r, requestedLifetime, now)
      ensures r.Error? && Retries(r.code, old(hasCreds), false, old(nonceRetries)) ==>
                && state.Allocating?
                && pending == old(pending)[old(nextTid) := NewTx(old(nextTid), Allocate, 0, 0, nonce, now)]
      ensures (r.Success? && !r.hasRelayed) || (r.Error? && !Retries(r.code, old(hasCreds), false, old(nonceRetries))) ==>
                failedEmitted && (!old(failedEmitted) ==> pending == map[] && state.Failed?)
      ensures Later(old(pending), old(sent), old(nextTid), pending, sent, nextTid)
    {
      match r
      case Error(code, newNonce) =>
        var retry := false;
        if code == 401 || code == 438 { retry := HandleAuthError(code, newNonce, false); }
        if retry {
          state := Idle;
          StartAllocate(now);
        } else {
          var emitted := FailAllocation();
        }
      case Success(hasRelayed, _, _, _) =>
        Proven();
        if !hasRelayed {
          var emitted := FailAllocation();
          return;
        }
        lifetime, state, refreshAt := Granted(r, requestedLifetime), Allocated, RefreshDue(r, requestedLifetime, now);
    }

    method HandleRefreshResponse(r: Response, now: int)
      requires Valid()
      modifies this
      ensures Valid() && bindings == old(bindings)
      ensures r.Success? ==> nonceRetries == 0 && pending == old(pending) && state == old(state) && refreshFresh == old(refreshFresh)
      ensures r.Success? && !state.Deallocated? ==>
                lifetime == Granted(r, requestedLifetime) && refreshAt == RefreshDue(r, requestedLifetime, now)
      ensures r.Success? && state.Deallocated? ==> lifetime == old(lifetime) && refreshAt == old(refreshAt)
      ensures r.Error? && Retries(r.code, old(hasCreds), true, old(nonceRetries)) && !old(refreshFresh) ==>
                pending == old(pending)[old(nextTid) := NewTx(old(nextTid), Refresh, 0, lifetime, nonce, now)]
      ensures r.Error? && !Retries(r.code, old(hasCreds), true, old(nonceRetries)) ==>
                failedEmitted && (!old(failedEmitted) ==> pending == map[] && state.Failed?)
      ensures Later(old(pending), old(sent), old(nextTid), pending, sent, nextTid)
    {
      match r
      case Error(code, newNonce) =>
        var retry := HandleAuthError(code, newNonce, true);
        if retry {
          SendRefresh(lifetime, now);
        } else {
          var emitted := FailAllocation();
        }
      case Success(_, _, _, _) =>
        Proven();
        if state.Deallocated? { return; }
        lifetime, refreshAt := Granted(r, requestedLifetime), RefreshDue(r, requestedLifetime, now);
    }

    /** Update the binding of a peer without touching its guards. */
    method Note(peer: Peer, b: Binding)
      requires Valid() && peer in bindings
      requires b.permissionFresh == bindings[peer].permissionFresh && b.permissionTid == bindings[peer].permissionTid
      requires b.channelFresh == bindings[peer].channelFresh && b.channelTid == bindings[peer].channelTid
      modifies this`bindings
      ensures Valid() && bindings == old(bindings)[peer := b]
    {
      BindingKeeps(pending, bindings, peer, b);
      bindings := bindings[peer := b];
    }

    method HandleCreatePermissionResponse(r: Response, peer: Peer, picks: Picks, dataWaits: bool, now: int)
      requires Valid() && peer in bindings
      modifies this
      ensures Valid() && peer in bindings && state == old(state)
      ensures r.Success? ==>
                && nonceRetries == 0 && bindings[peer].permitted
                && bindings[peer].permissionRefreshAt == now + PERMISSION_REFRESH_MS
                && (dataWaits && old(bindings)[peer].channel == 0 ==> bindings[peer].channelFresh)
                && (!dataWaits || old(bindings)[peer].channel != 0 ==> pending == old(pending))
      ensures r.Error? && Retries(r.code, old(hasCreds), true, old(nonceRetries)) ==> bindings[peer].permissionFresh
      ensures r.Error? && !Retries(r.code, old(hasCreds), true, old(nonceRetries)) ==>
                pending == old(pending) && bindings == old(bindings)
      ensures Later(old(pending), old(sent), old(nextTid), pending, sent, nextTid)
    {
      match r
      case Success(_, _, _, _) =>
        Proven();
        Note(peer, bindings[peer].(permitted := true, permissionRefreshAt := now + PERMISSION_REFRESH_MS));
        if dataWaits && bindings[peer].channel == 0 { SendChannelBind(peer, picks, now); }
      case Error(code, newNonce) =>
        var retry := HandleAuthError(code, newNonce, true);
        if retry { SendCreatePermission(peer, now); }
    }

    method HandleChannelBindResponse(r: Response, peer: Peer, picks: Picks, now: int)
      requires Valid() && peer in bindings
      modifies this
      ensures Valid() && peer in bindings
      ensures r.Success? ==>
                && nonceRetries == 0 && pending == old(pending) && state == old(state)
                && bindings == old(bindings)[peer := old(bindings)[peer].(ready := true, channelRefreshAt := now + CHANNEL_REFRESH_MS)]
      ensures r.Error? && Retries(r.code, old(hasCreds), true, old(nonceRetries)) ==> bindings[peer].channelFresh
      ensures r.Error? && !Retries(r.code, old(hasCreds), true, old(nonceRetries)) ==>
                && pending == old(pending)
                && state == (if r.code == 400 && !old(bindings)[peer].ready then Failed else old(state))
                && bindings == (if r.code == 400 && old(bindings)[peer].ready
                                then old(bindings)[peer := old(bindings)[peer].(channelRefreshAt := now + CHANNEL_REFRESH_MS)]
                                else old(bindings))
      ensures Later(old(pending), old(sent), old(nextTid), pending, sent, nextTid)
    {
      match r
      case Success(_, _, _, _) =>
        Proven();
        Note(peer, bindings[peer].(ready := true, channelRefreshAt := now + CHANNEL_REFRESH_MS));
      case Error(code, newNonce) =>
        var retry := HandleAuthError(code, newNonce, true);
        if retry {
          SendChannelBind(peer, picks, now);
        } else if code == 400 {
          if bindings[peer].ready {
            Note(peer, bindings[peer].(channelRefreshAt := now + CHANNEL_REFRESH_MS));
          } else {
            state := Failed;
          }
        }
    }

    /** Take a transaction out of flight and lift its guard. */
    method Retire(t: Tid)
      requires Valid() && t in pending
      modifies this`pending, this`bindings, this`refreshFresh
      ensures Valid() && pending == old(pending) - {t} && bindings == Lifted(old(bindings), old(pending)[t])
      ensures refreshFresh == (old(refreshFresh) && !old(pending)[t].kind.Refresh?)
      ensures var tx := old(pending)[t];
              && (tx.kind.CreatePermission? ==> tx.peer in bindings && !bindings[tx.peer].permissionFresh)
              && (tx.kind.ChannelBind? ==> tx.peer in bindings && !bindings[tx.peer].channelFresh)
      ensures Later(old(pending), old(sent), old(nextTid), pending, sent, nextTid)
    {
      var tx := pending[t];
      assert Guarded(bindings, t, tx);
      ghost var before := pending;
      FewerPending(reliable, pending, pending - {t}, sent, nextTid, bindings);
      pending := pending - {t};
      if tx.kind.Refresh? {
        refreshFresh := false;
      } else if tx.kind.CreatePermission? {
        assert forall u :: u in pending ==> Guarded(bindings, u, before[u]);
        BindingKeeps(pending, bindings, tx.peer, bindings[tx.peer].(permissionFresh := false));
        bindings := bindings[tx.peer := bindings[tx.peer].(permissionFresh := false)];
      } else if tx.kind.ChannelBind? {
        assert forall u :: u in pending ==> Guarded(bindings, u, before[u]);
        BindingKeeps(pending, bindings, tx.peer, bindings[tx.peer].(channelFresh := false));
        bindings := bindings[tx.peer := bindings[tx.peer].(channelFresh := false)];
      }
    }

    /** Any response from any server; one that matches no pending transaction is ignored. */
    method HandleStunResponse(t: Tid, r: Response, picks: Picks, dataWaits: bool, now: int)
      requires Valid()
      modifies this
      ensures Valid()
      ensures t !in old(pending) ==> pending == old(pending) && sent == old(sent) && bindings == old(bindings)
      ensures t !in pending
      ensures t in old(pending) && r.Success? ==>
                var tx := old(pending)[t];
                match tx.kind
                case Allocate => r.hasRelayed ==> state.Allocated? && lifetime == Granted(r, requestedLifetime)
                case Refresh => state == old(state) && pending == old(pending) - {t} && !refreshFresh
                case CreatePermission => tx.peer in bindings && bindings[tx.peer].permitted && state == old(state)
                case ChannelBind => tx.peer in bindings && bindings[tx.peer].ready && !bindings[tx.peer].channelFresh
                case Connect => bindings == old(bindings) && pending == old(pending) - {t}
      ensures t in old(pending) && r.Error? && !Retries(r.code, old(hasCreds), !old(pending)[t].kind.Allocate?, old(nonceRetries)) ==>
                var tx := old(pending)[t];
                match tx.kind
                case Allocate => failedEmitted
                case Refresh => failedEmitted
                case CreatePermission => pending == old(pending) - {t} && bindings == Lifted(old(bindings), tx) && state == old(state)
                case ChannelBind => pending == old(pending) - {t} && tx.peer in bindings && !bindings[tx.peer].channelFresh
                case Connect => bindings == old(bindings) && pending == old(pending) - {t} && state == old(state)
      ensures Later(old(pending), old(sent), old(nextTid), pending, sent, nextTid)
    {
      if t !in pending { return; }
      var tx := pending[t];
      Retire(t);
      match tx.kind
      case Allocate => HandleAllocateResponse(r, now);
      case Refresh => HandleRefreshResponse(r, now);
      case CreatePermission => HandleCreatePermissionResponse(r, tx.peer, picks, dataWaits, now);
      case ChannelBind => HandleChannelBindResponse(r, tx.peer, picks, now);
      case Connect =>
    }

    // ---- Timers ------------------------------------------------------------------------

    /** Seven retransmissions went unanswered: the transaction, or the whole allocation, fails. */
    method TimeOut(t: Tid) returns (aborted: bool)
      requires Valid() && t in pending
      modifies this`pending, this`bindings, this`refreshFresh, this`failedEmitted, this`state
      ensures Valid() && Later(old(pending), old(sent), old(nextTid), pending, sent, nextTid)
      ensures t !in pending && (!aborted ==> pending == old(pending) - {t})
      ensures aborted <==> old(pending)[t].kind.Allocate? || old(pending)[t].kind.Refresh?
      ensures bindings == Lifted(old(bindings), old(pending)[t])
      ensures if aborted then failedEmitted && (!old(failedEmitted) ==> pending == map[] && state.Failed?) else state == old(state)
    {
      var kind := pending[t].kind;
      Retire(t);
      aborted := kind.Allocate? || kind.Refresh?;
      if aborted { var emitted := FailAllocation(); }
    }

    /** Send a pending request again, unchanged; a reliable transport only counts. */
    method Retransmit(t: Tid, now: int)
      requires Valid() && t in pending && pending[t].retries < MAX_RTX
      modifies this`pending, this`sent
      ensures Valid()
      ensures pending == old(pending)[t := Resent(old(pending)[t], now)]
      ensures Later(old(pending), old(sent), old(nextTid), pending, sent, nextTid)
      ensures t in old(sent) && t in sent
      ensures sent[t] == if reliable then old(sent)[t] else old(sent)[t] + [old(pending)[t].raw]
    {
      var tx := pending[t];
      RetransmitKeeps(reliable, pending, sent, nextTid, t, Resent(tx, now).nextAt);
      assert Guarded(bindings, t, tx);
      if !reliable { sent := sent[t := sent[t] + [tx.raw]]; }
      pending := pending[t := Resent(tx, now)];
    }

    /** The timer of one transaction. */
    method CheckTimer(t: Tid, now: int) returns (aborted: bool)
      requires Valid() && t in pending
      modifies this`pending, this`bindings, this`refreshFresh, this`failedEmitted, this`state, this`sent
      ensures Valid() && Later(old(pending), old(sent), old(nextTid), pending, sent, nextTid)
      ensures !aborted ==> pending == AfterTimer(old(pending), t, now)
      ensures aborted <==> Fatal(old(pending)[t], now)
    {
      aborted := false;
      if now >= pending[t].nextAt {
        if pending[t].retries >= MAX_RTX {
          aborted := TimeOut(t);
        } else {
          Retransmit(t, now);
        }
      }
    }

    /** One pass over every pending transaction; it stops where the allocation fails. */
    method RunTimers(now: int) returns (aborted: bool)
      requires Valid()
      modifies this`pending, this`bindings, this`refreshFresh, this`failedEmitted, this`state, this`sent
      ensures Valid() && Later(old(pending), old(sent), old(nextTid), pending, sent, nextTid)
      ensures !aborted ==> TimedExcept(old(pending), pending, {}, now)
      ensures aborted ==> exists t :: t in old(pending) && Fatal(old(pending)[t], now)
    {
      ghost var p0, s0, n0 := pending, sent, nextTid;
      var todo := pending.Keys;
      aborted := false;
      while todo != {} && !aborted
        invariant Valid() && Later(p0, s0, n0, pending, sent, nextTid) && nextTid == n0
        invariant !aborted ==> TimedExcept(p0, pending, todo, now)
        invariant aborted ==> exists t :: t in p0 && Fatal(p0[t], now)
        decreases |todo|
      {
        var t :| t in todo;
        ghost var p1, s1 := pending, sent;
        StillPending(p0, p1, todo, t, now);
        aborted := CheckTimer(t, now);
        LaterTrans(p0, s0, n0, p1, s1, n0, pending, sent, nextTid);
        if !aborted { TimedStep(p0, p1, todo, t, now); }
        todo := todo - {t};
      }
    }

    /** Refresh what is due for one peer. */
    method RefreshPeer(peer: Peer, picks: Picks, now: int)
      requires Valid() && peer in bindings
      modifies this`pending, this`sent, this`nextTid, this`bindings
      ensures Valid() && Later(old(pending), old(sent), old(nextTid), pending, sent, nextTid)
      ensures bindings.Keys == old(bindings).Keys && DueServed(bindings[peer], now)
      ensures forall p :: p in bindings && p != peer ==> bindings[p] == old(bindings)[p]
    {
      if bindings[peer].permitted && now >= bindings[peer].permissionRefreshAt { SendCreatePermission(peer, now); }
      ghost var p1, s1, n1 := pending, sent, nextTid;
      if bindings[peer].ready && now >= bindings[peer].channelRefreshAt { SendChannelBind(peer, picks, now); }
      LaterTrans(old(pending), old(sent), old(nextTid), p1, s1, n1, pending, sent, nextTid);
    }

    method RefreshPeers(picks: Picks, now: int)
      requires Valid()
      modifies this`pending, this`sent, this`nextTid, this`bindings
      ensures Valid() && Later(old(pending), old(sent), old(nextTid), pending, sent, nextTid)
      ensures bindings.Keys == old(bindings).Keys && forall p :: p in bindings ==> DueServed(bindings[p], now)
    {
      var todo := bindings.Keys;
      while todo != {}
        invariant Valid() && Later(old(pending), old(sent), old(nextTid), pending, sent, nextTid)
        invariant todo <= bindings.Keys == old(bindings).Keys
        invariant forall p :: p in bindings && p !in todo ==> DueServed(bindings[p], now)
        decreases |todo|
      {
        var p :| p in todo;
        todo := todo - {p};
        ghost var p1, s1, n1 := pending, sent, nextTid;
        RefreshPeer(p, picks, now);
        LaterTrans(old(pending), old(sent), old(nextTid), p1, s1, n1, pending, sent, nextTid);
      }
    }

    /** Forget peers that have no permission, no channel and nothing in flight for long enough. */
    method Collect(now: int)
      requires Valid()
      modifies this`bindings
      ensures Valid()
      ensures forall p :: p in bindings ==> p in old(bindings)
      ensures forall p :: p in old(bindings) && (old(bindings)[p].permitted || old(bindings)[p].ready) ==> p in bindings
      ensures forall p :: p in old(bindings) ==>
                (p in bindings <==> !Stale(old(bindings)[p], now)) && (p in bindings ==> bindings[p] == old(bindings)[p])
    {
      ghost var before := bindings;
      bindings := map p | p in bindings && !Stale(bindings[p], now) :: bindings[p];
      CollectKeeps(pending, before, bindings, now);
    }

    /** `tick`: unless the allocation failed, all that is due is in flight afterwards, and no stale peer is left. */
    method Tick(picks: Picks, now: int) returns (aborted: bool, next: Option<int>)
      requires Valid()
      modifies this
      ensures Valid() && Later(old(pending), old(sent), old(nextTid), pending, sent, nextTid)
      ensures aborted ==> exists t :: t in old(pending) && Fatal(old(pending)[t], now)
      ensures !aborted ==>
                && (state.Allocated? && now >= refreshAt ==> refreshFresh)
                && (forall p :: p in bindings ==> DueServed(bindings[p], now) && !Stale(bindings[p], now))
                && Earliest(pending, bindings, state.Allocated?, refreshAt, next)
    {
      next := None;
      aborted := RunTimers(now);
      if aborted { return; }
      ghost var p1, s1, n1 := pending, sent, nextTid;
      if state.Allocated? && now >= refreshAt { SendRefresh(lifetime, now); }
      LaterTrans(old(pending), old(sent), old(nextTid), p1, s1, n1, pending, sent, nextTid);
      p1, s1, n1 := pending, sent, nextTid;
      RefreshPeers(picks, now);
      LaterTrans(old(pending), old(sent), old(nextTid), p1, s1, n1, pending, sent, nextTid);
      Collect(now);
      next := NextTick(pending, bindings, state.Allocated?, refreshAt);
    }
  }

  predicate Stale(b: Binding, now: int)
  {
    !b.permitted && !b.ready && !b.permissionFresh && !b.channelFresh && now > b.permissionRefreshAt + STALE_BINDING_MS
  }

  /** A peer with a permission, a ready channel or a request in flight is never forgotten; any other exactly five minutes after its refresh time. */
  lemma StaleIff(b: Binding, now: int)
    ensures b.permitted || b.ready || b.permissionFresh || b.channelFresh ==> !Stale(b, now)
    ensures !b.permitted && !b.ready && !b.permissionFresh && !b.channelFresh ==>
              (Stale(b, now) <==> now - b.permissionRefreshAt > 5 * 60 * 1000)
  {
  }

  lemma CollectKeeps(pending: Pending, before: Bindings, after: Bindings, now: int)
    requires GuardInv(pending, before)
    requires forall p :: p in before && !Stale(before[p], now) ==> p in after && after[p] == before[p]
    ensures GuardInv(pending, after)
  {
    forall t | t in pending ensures Guarded(after, t, pending[t]) {
      assert Guarded(before, t, pending[t]);
    }
  }

  // ---- Whole sessions ------------------------------------------------------------------

  /** Anything the agent, the clock or the server can do. */
  datatype Event =
    | Start(now: int)
    | Receive(t: Tid, r: Response, picks: Picks, dataWaits: bool, now: int)
    | Permit(peer: Peer, now: int)
    | Bind(peer: Peer, picks: Picks, now: int)
    | ConnectTo(peer: Peer, now: int)
    | Teardown(now: int)
    | TickAt(picks: Picks, now: int)
    | TransportLost

  method Handle(c: Client, e: Event)
    requires c.Valid()
    modifies c
    ensures c.Valid() && Later(old(c.pending), old(c.sent), old(c.nextTid), c.pending, c.sent, c.nextTid)
  {
    match e
    case Start(now) => c.StartAllocate(now);
    case Receive(t, r, picks, dataWaits, now) => c.HandleStunResponse(t, r, picks, dataWaits, now);
    case Permit(peer, now) => c.SendCreatePermission(peer, now);
    case Bind(peer, picks, now) => c.SendChannelBind(peer, picks, now);
    case ConnectTo(peer, now) => c.SendConnect(peer, now);
    case Teardown(now) => c.Deallocate(now);
    case TickAt(picks, now) => var aborted, next := c.Tick(picks, now);
    case TransportLost => if !c.state.Failed? { var emitted := c.FailAllocation(); }
  }

  /**
   After any sequence of calls, responses, timeouts and losses: at most one CreatePermission and
   one ChannelBind is pending per peer; every transaction was sent exactly once on a reliable
   transport and at most eight times, byte for byte the same, on UDP; and at most three
   authentication retries were granted since the last success.
   */
  method Session(reliable: bool, lifetime: nat, events: seq<Event>) returns (pending: Pending, ghost sent: Sent, ghost retries: nat)
    ensures forall t, u | t in pending && u in pending && SamePeerRequest(pending[t], pending[u]) :: t == u
    ensures forall t :: t in sent ==> SentOk(reliable, sent[t])
    ensures forall t :: t in pending ==> t in sent && |sent[t]| > 0 && sent[t][0] == pending[t].raw
    ensures retries <= MAX_NONCE_RETRIES
  {
    var c := new Client(reliable, lifetime);
    for i := 0 to |events|
      invariant c.Valid() && fresh(c) && c.reliable == reliable
    {
      Handle(c, events[i]);
    }
    pending, sent, retries := c.pending, c.sent, c.authRetries;
  }
}
