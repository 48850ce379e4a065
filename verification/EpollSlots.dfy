/**
 The persistent epoll registration of the poll registry: a slot table that never shrinks, the
 map from sockets to slots, and the kernel's own registrations.  One `epollSync` reconciles all
 three with the sockets the participants want polled.  The kernel forgets a registration when a
 socket is closed behind the table's back, and socket numbers are reused.
 */
module EpollSlots {
  type Fd = int
  type P = nat

  const NO_FD: Fd := -1
  const INTERRUPT := 0

  /** `kind` 0 is the interrupt socket; `idx` tells the transports of one participant apart. */
  datatype Slot = Slot(fd: Fd, who: P, kind: nat, idx: int, events: nat, active: bool, seen: bool)

  /** One socket a participant wants polled. */
  datatype Desired = Desired(fd: Fd, who: P, kind: nat, idx: int, events: nat)

  /** A kernel registration: the events asked for and the slot index reported with them. */
  datatype Reg = Reg(events: nat, slot: nat)

  datatype Table = Table(slots: seq<Slot>, fdToSlot: map<Fd, nat>, kernel: map<Fd, Reg>)

  // ---- Reconciling one socket ----------------------------------------------------------

  function SlotFor(d: Desired): Slot { Slot(d.fd, d.who, d.kind, d.idx, d.events, true, true) }

  predicate Changed(s: Slot, d: Desired)
  {
    s.events != d.events || s.who != d.who || s.kind != d.kind || s.idx != d.idx
  }

  /** MOD, and DEL plus ADD when the kernel knows no such registration. */
  function Reassert(kernel: map<Fd, Reg>, accepts: set<Fd>, fd: Fd, r: Reg): map<Fd, Reg>
  {
    if fd in kernel || fd in accepts then kernel[fd := r] else kernel
  }

  /** One desired socket; `accepts` is what the kernel can register. */
  function SyncOne(t: Table, d: Desired, force: bool, accepts: set<Fd>): Table
    requires d.fd in t.fdToSlot ==> t.fdToSlot[d.fd] < |t.slots|
  {
    if d.fd !in t.fdToSlot then
      if d.fd in t.kernel || d.fd !in accepts then t
      else Table(t.slots + [SlotFor(d)], t.fdToSlot[d.fd := |t.slots|], t.kernel[d.fd := Reg(d.events, |t.slots|)])
    else
      var i := t.fdToSlot[d.fd];
      t.(slots := t.slots[i := SlotFor(d)],
         kernel := if force || Changed(t.slots[i], d) then Reassert(t.kernel, accepts, d.fd, Reg(d.events, i)) else t.kernel)
  }

  /** Drop slot `i` if its socket left the desired set. */
  function SweepOne(t: Table, i: nat): Table
    requires i < |t.slots|
  {
    var s := t.slots[i];
    if s.kind == INTERRUPT || !s.active || s.seen then t
    else Table(t.slots[i := s.(active := false, fd := NO_FD)], t.fdToSlot - {s.fd}, t.kernel - {s.fd})
  }

  function Unsee(s: Slot): Slot { if s.kind == INTERRUPT then s else s.(seen := false) }

  function UnseeAll(t: Table): Table
  {
    t.(slots := seq(|t.slots|, i requires 0 <= i < |t.slots| => Unsee(t.slots[i])))
  }

  // ---- Invariant -----------------------------------------------------------------------

  /** `fdToSlot` and the active slots are mutually inverse. */
  predicate Inverse(slots: seq<Slot>, fdToSlot: map<Fd, nat>)
  {
    && (forall fd :: fd in fdToSlot ==> fdToSlot[fd] < |slots| && slots[fdToSlot[fd]].active && slots[fdToSlot[fd]].fd == fd)
    && (forall i :: 0 <= i < |slots| && slots[i].active ==> slots[i].fd in fdToSlot && fdToSlot[slots[i].fd] == i)
  }

  /** What the kernel reports names the slot of that socket, with the events last asked for. */
  predicate KernelOk(slots: seq<Slot>, fdToSlot: map<Fd, nat>, kernel: map<Fd, Reg>)
    requires Inverse(slots, fdToSlot)
  {
    forall fd :: fd in kernel ==> fd in fdToSlot && kernel[fd] == Reg(slots[fdToSlot[fd]].events, fdToSlot[fd])
  }

  predicate Inv(t: Table) { Inverse(t.slots, t.fdToSlot) && KernelOk(t.slots, t.fdToSlot, t.kernel) }

  /** Everything the table and the kernel say about one socket. */
  datatype Entry = Unknown | Known(slot: Slot, registered: bool)

  function EntryOf(t: Table, fd: Fd): Entry
    requires Inverse(t.slots, t.fdToSlot)
  {
    if fd in t.fdToSlot then Known(t.slots[t.fdToSlot[fd]], fd in t.kernel) else Unknown
  }

  /** A silent close: the kernel drops the registration, the table does not know. */
  function SilentClose(t: Table, fd: Fd): Table { t.(kernel := t.kernel - {fd}) }

  lemma SilentCloseKeeps(t: Table, fd: Fd)
    requires Inv(t)
    ensures Inv(SilentClose(t, fd))
  {
  }

  lemma UnseeKeeps(t: Table)
    requires Inv(t)
    ensures Inv(UnseeAll(t))
  {
  }

  lemma SyncOneKeeps(t: Table, d: Desired, force: bool, accepts: set<Fd>)
    requires Inv(t)
    ensures Inv(SyncOne(t, d, force, accepts))
  {
  }

  lemma SweepOneKeeps(t: Table, i: nat)
    requires Inv(t) && i < |t.slots|
    ensures Inv(SweepOne(t, i))
  {
  }

  // ---- A whole sync --------------------------------------------------------------------

  predicate DistinctFds(ds: seq<Desired>)
  {
    forall i, j :: 0 <= i < j < |ds| ==> ds[i].fd != ds[j].fd
  }

  ghost function SyncAll(t: Table, ds: seq<Desired>, force: bool, accepts: set<Fd>): (r: Table)
    requires Inv(t)
    ensures Inv(r)
  {
    if ds == [] then t
    else
      var last := |ds| - 1;
      var m := SyncAll(t, ds[..last], force, accepts);
      SyncOneKeeps(m, ds[last], force, accepts);
      SyncOne(m, ds[last], force, accepts)
  }

  ghost function SweepTo(t: Table, n: nat): (r: Table)
    requires Inv(t) && n <= |t.slots|
    ensures Inv(r) && |r.slots| == |t.slots|
  {
    if n == 0 then t
    else
      var m := SweepTo(t, n - 1);
      SweepOneKeeps(m, n - 1);
      SweepOne(m, n - 1)
  }

  /** `epollSync`. */
  ghost function Sync(t: Table, ds: seq<Desired>, force: bool, accepts: set<Fd>): (r: Table)
    requires Inv(t)
    ensures Inv(r)
  {
    UnseeKeeps(t);
    var m := SyncAll(UnseeAll(t), ds, force, accepts);
    SweepTo(m, |m.slots|)
  }

  /** What reconciling with `d` makes of its entry. */
  function Result(e: Entry, d: Desired, force: bool, accepts: set<Fd>): Entry
  {
    match e
    case Unknown => if d.fd in accepts then Known(SlotFor(d), true) else Unknown
    case Known(s, registered) =>
      Known(SlotFor(d), registered || (d.fd in accepts && (force || Changed(s, d))))
  }

  lemma EntryOwn(t: Table, d: Desired, force: bool, accepts: set<Fd>)
    requires Inv(t)
    ensures Inv(SyncOne(t, d, force, accepts))
    ensures EntryOf(SyncOne(t, d, force, accepts), d.fd) == Result(EntryOf(t, d.fd), d, force, accepts)
  {
    SyncOneKeeps(t, d, force, accepts);
  }

  lemma EntryOther(t: Table, d: Desired, force: bool, accepts: set<Fd>, fd: Fd)
    requires Inv(t) && fd != d.fd
    ensures Inv(SyncOne(t, d, force, accepts))
    ensures EntryOf(SyncOne(t, d, force, accepts), fd) == EntryOf(t, fd)
  {
    SyncOneKeeps(t, d, force, accepts);
  }

  lemma {:induction false} SyncAllMiss(t: Table, ds: seq<Desired>, force: bool, accepts: set<Fd>, fd: Fd)
    requires Inv(t) && forall i :: 0 <= i < |ds| ==> ds[i].fd != fd
    ensures EntryOf(SyncAll(t, ds, force, accepts), fd) == EntryOf(t, fd)
  {
    if ds != [] {
      var last := |ds| - 1;
      SyncAllMiss(t, ds[..last], force, accepts, fd);
      EntryOther(SyncAll(t, ds[..last], force, accepts), ds[last], force, accepts, fd);
    }
  }

  lemma {:induction false} SyncAllHit(t: Table, ds: seq<Desired>, force: bool, accepts: set<Fd>, k: nat)
    requires Inv(t) && DistinctFds(ds) && k < |ds|
    ensures EntryOf(SyncAll(t, ds, force, accepts), ds[k].fd) == Result(EntryOf(t, ds[k].fd), ds[k], force, accepts)
    decreases |ds|
  {
    var last := |ds| - 1;
    var m := SyncAll(t, ds[..last], force, accepts);
    if k == last {
      SyncAllMiss(t, ds[..last], force, accepts, ds[k].fd);
      EntryOwn(m, ds[last], force, accepts);
    } else {
      assert ds[..last][k] == ds[k];
      SyncAllHit(t, ds[..last], force, accepts, k);
      EntryOther(m, ds[last], force, accepts, ds[k].fd);
    }
  }

  predicate Gone(e: Entry) { e.Known? && e.slot.kind != INTERRUPT && !e.slot.seen }

  lemma SweepOneEntry(t: Table, i: nat, fd: Fd)
    requires Inv(t) && i < |t.slots|
    ensures Inv(SweepOne(t, i))
    ensures EntryOf(SweepOne(t, i), fd) ==
            if fd in t.fdToSlot && t.fdToSlot[fd] == i && Gone(EntryOf(t, fd)) then Unknown else EntryOf(t, fd)
    ensures fd in SweepOne(t, i).fdToSlot ==> fd in t.fdToSlot && SweepOne(t, i).fdToSlot[fd] == t.fdToSlot[fd]
  {
    SweepOneKeeps(t, i);
  }

  lemma {:induction false} SweepEntry(t: Table, n: nat, fd: Fd)
    requires Inv(t) && n <= |t.slots|
    ensures EntryOf(SweepTo(t, n), fd) ==
            if fd in t.fdToSlot && t.fdToSlot[fd] < n && Gone(EntryOf(t, fd)) then Unknown else EntryOf(t, fd)
    ensures fd in SweepTo(t, n).fdToSlot ==> fd in t.fdToSlot && SweepTo(t, n).fdToSlot[fd] == t.fdToSlot[fd]
    decreases n
  {
    if n > 0 {
      SweepEntry(t, n - 1, fd);
      SweepOneEntry(SweepTo(t, n - 1), n - 1, fd);
    }
  }

  lemma UnseeEntry(t: Table, fd: Fd)
    requires Inv(t)
    ensures Inv(UnseeAll(t))
    ensures EntryOf(UnseeAll(t), fd) == match EntryOf(t, fd) case Unknown => Unknown case Known(s, r) => Known(Unsee(s), r)
  {
    UnseeKeeps(t);
  }

  // ---- Main results --------------------------------------------------------------------

  /** After a sync a desired socket has its own participant, transport and events in its slot. */
  lemma DesiredEntry(t: Table, ds: seq<Desired>, force: bool, accepts: set<Fd>, k: nat)
    requires Inv(t) && DistinctFds(ds) && k < |ds|
    ensures EntryOf(Sync(t, ds, force, accepts), ds[k].fd) == Result(EntryOf(t, ds[k].fd), ds[k], force, accepts)
  {
    UnseeEntry(t, ds[k].fd);
    var m := SyncAll(UnseeAll(t), ds, force, accepts);
    SyncAllHit(UnseeAll(t), ds, force, accepts, k);
    SweepEntry(m, |m.slots|, ds[k].fd);
  }

  /** Any other socket is gone from the table and from the kernel, except the interrupt socket. */
  lemma OtherEntry(t: Table, ds: seq<Desired>, force: bool, accepts: set<Fd>, fd: Fd)
    requires Inv(t) && forall i :: 0 <= i < |ds| ==> ds[i].fd != fd
    ensures EntryOf(Sync(t, ds, force, accepts), fd) ==
            if EntryOf(t, fd).Known? && EntryOf(t, fd).slot.kind == INTERRUPT then EntryOf(t, fd) else Unknown
  {
    UnseeEntry(t, fd);
    var m := SyncAll(UnseeAll(t), ds, force, accepts);
    SyncAllMiss(UnseeAll(t), ds, force, accepts, fd);
    SweepEntry(m, |m.slots|, fd);
  }

  /**
   After a forced sync every desired socket the kernel accepts is registered with its own events
   and a slot index that names its current participant, whatever was closed or reused before.
   */
  lemma ForcedSyncRegisters(t: Table, ds: seq<Desired>, accepts: set<Fd>, k: nat)
    requires Inv(t) && DistinctFds(ds) && k < |ds| && ds[k].fd in accepts
    ensures var r := Sync(t, ds, true, accepts);
            && ds[k].fd in r.kernel && r.kernel[ds[k].fd].events == ds[k].events
            && r.kernel[ds[k].fd].slot < |r.slots| && r.slots[r.kernel[ds[k].fd].slot] == SlotFor(ds[k])
  {
    DesiredEntry(t, ds, true, accepts, k);
  }

  /**
   Exactly when an unforced sync leaves a desired socket registered: the kernel still had it, or
   the table saw that it is new or has other events or another owner.
   */
  lemma UnforcedSyncRegisters(t: Table, ds: seq<Desired>, accepts: set<Fd>, k: nat)
    requires Inv(t) && DistinctFds(ds) && k < |ds| && ds[k].fd in accepts
    ensures ds[k].fd in Sync(t, ds, false, accepts).kernel <==>
            || ds[k].fd in t.kernel
            || ds[k].fd !in t.fdToSlot
            || Changed(t.slots[t.fdToSlot[ds[k].fd]], ds[k])
  {
    DesiredEntry(t, ds, false, accepts, k);
    var r := Sync(t, ds, false, accepts);
    assert ds[k].fd in r.kernel ==> ds[k].fd in r.fdToSlot;
  }

  /**
   A socket that is new to the table, or that it has under another participant, transport, index or
   with other events, is registered by any sync with its own events and a slot that is its own.
   */
  lemma ChangeRegisters(t: Table, ds: seq<Desired>, force: bool, accepts: set<Fd>, k: nat)
    requires Inv(t) && DistinctFds(ds) && k < |ds| && ds[k].fd in accepts
    requires ds[k].fd in t.fdToSlot ==>
               var s := t.slots[t.fdToSlot[ds[k].fd]];
               s.who != ds[k].who || s.kind != ds[k].kind || s.idx != ds[k].idx || s.events != ds[k].events
    ensures var r := Sync(t, ds, force, accepts);
            && ds[k].fd in r.kernel && r.kernel[ds[k].fd].events == ds[k].events
            && r.kernel[ds[k].fd].slot < |r.slots|
            && var s := r.slots[r.kernel[ds[k].fd].slot];
               s.fd == ds[k].fd && s.who == ds[k].who && s.kind == ds[k].kind && s.idx == ds[k].idx && s.events == ds[k].events && s.active
  {
    DesiredEntry(t, ds, force, accepts, k);
  }

  /**
   It can miss one: any accepted socket that was synced, silently closed and is desired again by the
   same owner with the same events stays unregistered without force, and is registered with it.
   */
  lemma ReusedSocketMissed(t: Table, ds: seq<Desired>, force: bool, accepts: set<Fd>, k: nat)
    requires Inv(t) && DistinctFds(ds) && k < |ds| && ds[k].fd in accepts
    ensures var closed := SilentClose(Sync(t, ds, force, accepts), ds[k].fd);
            && Inv(closed)
            && ds[k].fd !in Sync(closed, ds, false, accepts).kernel
            && ds[k].fd in Sync(closed, ds, true, accepts).kernel
  {
    var synced := Sync(t, ds, force, accepts);
    DesiredEntry(t, ds, force, accepts, k);
    SilentCloseKeeps(synced, ds[k].fd);
    var closed := SilentClose(synced, ds[k].fd);
    UnforcedSyncRegisters(closed, ds, accepts, k);
    ForcedSyncRegisters(closed, ds, accepts, k);
  }

  /** Active slots point only to participants of this sync. */
  lemma SlotsComeFromDesired(t: Table, ds: seq<Desired>, force: bool, accepts: set<Fd>, i: nat)
    requires Inv(t) && DistinctFds(ds)
    requires i < |Sync(t, ds, force, accepts).slots|
    ensures var s := Sync(t, ds, force, accepts).slots[i];
            s.active && s.kind != INTERRUPT ==> exists k :: 0 <= k < |ds| && s == SlotFor(ds[k])
  {
    var r := Sync(t, ds, force, accepts);
    var s := r.slots[i];
    if s.active && s.kind != INTERRUPT {
      assert EntryOf(r, s.fd) == Known(s, s.fd in r.kernel);
      if k :| 0 <= k < |ds| && ds[k].fd == s.fd {
        DesiredEntry(t, ds, force, accepts, k);
      } else {
        OtherEntry(t, ds, force, accepts, s.fd);
      }
    }
  }

  // ---- What the participants want polled -----------------------------------------------

  const POLLIN := 1
  const FULL_RESYNC_MS := 1000

  /** A socket and the events wanted on it; an absent transport has no socket. */
  datatype Wish = Wish(fd: Fd, events: nat)

  /** A participant's transports as its getters report them; `slots` are its numbered TURN control connections. */
  datatype Participant = Participant(who: P, udp: Fd, tcp: Wish, turn: Wish, slots: seq<Wish>, listener: Fd, data: Wish)

  function One(p: Participant, kind: nat, idx: int, w: Wish): seq<Desired>
  {
    if w.fd == NO_FD then [] else [Desired(w.fd, p.who, kind, idx, w.events)]
  }

  /** The numbered connections from `i` on, without the one already listed as the TURN connection. */
  function SlotWishes(p: Participant, i: nat): seq<Desired>
    requires i <= |p.slots|
    decreases |p.slots| - i
  {
    if i == |p.slots| then []
    else (if p.slots[i].fd == p.turn.fd then [] else One(p, 6, i, p.slots[i])) + SlotWishes(p, i + 1)
  }

  function WantedBy(p: Participant): seq<Desired>
  {
    One(p, 1, -1, Wish(p.udp, POLLIN)) + One(p, 2, -1, p.tcp) + One(p, 3, -1, p.turn) + SlotWishes(p, 0)
    + One(p, 4, -1, Wish(p.listener, POLLIN)) + One(p, 5, -1, p.data)
  }

  function Wanted(ps: seq<Participant>): seq<Desired>
  {
    if ps == [] then [] else Wanted(ps[..|ps| - 1]) + WantedBy(ps[|ps| - 1])
  }

  /** The participant has this socket open on the transport named by kind and index. */
  predicate Offers(p: Participant, d: Desired)
  {
    && d.who == p.who && d.fd != NO_FD
    && (d.kind != 6 ==> d.idx == -1)
    && match d.kind
       case 1 => d.fd == p.udp && d.events == POLLIN
       case 2 => Wish(d.fd, d.events) == p.tcp
       case 3 => Wish(d.fd, d.events) == p.turn
       case 4 => d.fd == p.listener && d.events == POLLIN
       case 5 => Wish(d.fd, d.events) == p.data
       case 6 => 0 <= d.idx < |p.slots| && Wish(d.fd, d.events) == p.slots[d.idx] && d.fd != p.turn.fd
       case _ => false
  }

  lemma {:induction false} SlotWishesIff(p: Participant, i: nat, d: Desired)
    requires i <= |p.slots|
    ensures d in SlotWishes(p, i) <==> d.kind == 6 && i <= d.idx && Offers(p, d)
    decreases |p.slots| - i
  {
    if i < |p.slots| { SlotWishesIff(p, i + 1, d); }
  }

  lemma WantedByIff(p: Participant, d: Desired)
    ensures d in WantedBy(p) <==> Offers(p, d)
  {
    SlotWishesIff(p, 0, d);
  }

  predicate OfferedBy(ps: seq<Participant>, d: Desired) { exists i :: 0 <= i < |ps| && Offers(ps[i], d) }

  lemma OfferedLast(ps: seq<Participant>, d: Desired)
    requires ps != []
    ensures OfferedBy(ps, d) <==> OfferedBy(ps[..|ps| - 1], d) || Offers(ps[|ps| - 1], d)
  {
    var front := ps[..|ps| - 1];
    if i :| 0 <= i < |front| && Offers(front[i], d) {
      assert Offers(ps[i], d);
    }
    if i :| 0 <= i < |ps| && Offers(ps[i], d) {
      assert i < |front| ==> front[i] == ps[i];
    }
  }

  /** Exactly the open sockets of the participants are desired, each on its own transport. */
  lemma {:induction false} WantedIff(ps: seq<Participant>, d: Desired)
    ensures d in Wanted(ps) <==> OfferedBy(ps, d)
  {
    if ps != [] {
      WantedIff(ps[..|ps| - 1], d);
      WantedByIff(ps[|ps| - 1], d);
      OfferedLast(ps, d);
    }
  }

  method CollectSlots(p: Participant) returns (ds: seq<Desired>)
    ensures ds == SlotWishes(p, 0)
  {
    ds := [];
    for i := 0 to |p.slots|
      invariant SlotWishes(p, 0) == ds + SlotWishes(p, i)
    {
      var w := p.slots[i];
      ghost var before := ds;
      if w.fd != NO_FD && w.fd != p.turn.fd { ds := ds + [Desired(w.fd, p.who, 6, i, w.events)]; }
      assert before + ((if w.fd == p.turn.fd then [] else One(p, 6, i, w)) + SlotWishes(p, i + 1)) == ds + SlotWishes(p, i + 1);
    }
  }

  /** List a transport's socket, if it has one. */
  method Push(ds: seq<Desired>, p: Participant, kind: nat, w: Wish) returns (r: seq<Desired>)
    ensures r == ds + One(p, kind, -1, w)
  {
    r := ds;
    if w.fd != NO_FD { r := r + [Desired(w.fd, p.who, kind, -1, w.events)]; }
  }

  method CollectFrom(p: Participant) returns (ds: seq<Desired>)
    ensures ds == WantedBy(p)
  {
    ds := Push([], p, 1, Wish(p.udp, POLLIN));
    ds := Push(ds, p, 2, p.tcp);
    ds := Push(ds, p, 3, p.turn);
    var slots := CollectSlots(p);
    ds := Push(ds + slots, p, 4, Wish(p.listener, POLLIN));
    ds := Push(ds, p, 5, p.data);
  }

  /** The sockets every participant wants polled. */
  method Collect(ps: seq<Participant>) returns (ds: seq<Desired>)
    ensures ds == Wanted(ps)
  {
    ds := [];
    for i := 0 to |ps|
      invariant ds == Wanted(ps[..i])
    {
      assert ps[..i + 1][..i] == ps[..i];
      var own := CollectFrom(ps[i]);
      ds := ds + own;
    }
    assert ps[..|ps|] == ps;
  }

  // ---- The registry --------------------------------------------------------------------

  /** The registry and, as the kernel's side of it, the registrations that `epoll_ctl` changes. */
  class Registry {
    var slots: seq<Slot>
    var fdToSlot: map<Fd, nat>
    var kernel: map<Fd, Reg>
    var lastFullSync: int

    ghost function Value(): Table
      reads this
    {
      Table(slots, fdToSlot, kernel)
    }

    /** `epollSetup`: slot 0 is the interrupt socket for good. */
    constructor (interrupt: Fd, accepts: set<Fd>)
      ensures Inv(Value()) && EntryOf(Value(), interrupt).Known?
      ensures slots == [Slot(interrupt, 0, INTERRUPT, -1, 1, true, true)]
      ensures interrupt in kernel <==> interrupt in accepts
    {
      slots := [Slot(interrupt, 0, INTERRUPT, -1, 1, true, true)];
      fdToSlot := map[interrupt := 0];
      kernel := if interrupt in accepts then map[interrupt := Reg(1, 0)] else map[];
      lastFullSync := 0;
    }

    method CtlAdd(fd: Fd, r: Reg, accepts: set<Fd>) returns (ok: bool)
      modifies this`kernel
      ensures ok <==> fd !in old(kernel) && fd in accepts
      ensures kernel == if ok then old(kernel)[fd := r] else old(kernel)
    {
      ok := fd !in kernel && fd in accepts;
      if ok { kernel := kernel[fd := r]; }
    }

    method CtlMod(fd: Fd, r: Reg) returns (ok: bool)
      modifies this`kernel
      ensures ok <==> fd in old(kernel)
      ensures kernel == if ok then old(kernel)[fd := r] else old(kernel)
    {
      ok := fd in kernel;
      if ok { kernel := kernel[fd := r]; }
    }

    method CtlDel(fd: Fd)
      modifies this`kernel
      ensures kernel == old(kernel) - {fd}
    {
      kernel := kernel - {fd};
    }

    /** Reconcile one desired socket. */
    method Reconcile(d: Desired, force: bool, accepts: set<Fd>)
      requires d.fd in fdToSlot ==> fdToSlot[d.fd] < |slots|
      modifies this`slots, this`fdToSlot, this`kernel
      ensures Value() == SyncOne(old(Value()), d, force, accepts)
    {
      if d.fd !in fdToSlot {
        var i := |slots|;
        var ok := CtlAdd(d.fd, Reg(d.events, i), accepts);
        if !ok { return; }
        slots := slots + [SlotFor(d)];
        fdToSlot := fdToSlot[d.fd := i];
      } else {
        var i := fdToSlot[d.fd];
        var s := slots[i];
        if force || Changed(s, d) {
          var ok := CtlMod(d.fd, Reg(d.events, i));
          if !ok {
            CtlDel(d.fd);
            ok := CtlAdd(d.fd, Reg(d.events, i), accepts);
            assert old(kernel) - {d.fd} == old(kernel);
          }
        }
        slots := slots[i := SlotFor(d)];
      }
    }

    method Sweep(i: nat)
      requires i < |slots|
      modifies this`slots, this`fdToSlot, this`kernel
      ensures Value() == SweepOne(old(Value()), i)
    {
      var s := slots[i];
      if s.kind != INTERRUPT && s.active && !s.seen {
        CtlDel(s.fd);
        fdToSlot := fdToSlot - {s.fd};
        slots := slots[i := s.(active := false, fd := NO_FD)];
      }
    }

    /** `epollSync` on a snapshot of the participants; a full one is due after a second at the latest. */
    method EpollSync(ps: seq<Participant>, forceResync: bool, now: int, accepts: set<Fd>)
      requires Inv(Value())
      modifies this
      ensures var force := forceResync || now - old(lastFullSync) >= FULL_RESYNC_MS;
              && Value() == Sync(old(Value()), Wanted(ps), force, accepts)
              && lastFullSync == if force then now else old(lastFullSync)
    {
      var ds := Collect(ps);
      var force := forceResync || now - lastFullSync >= FULL_RESYNC_MS;
      Pass(ds, force, accepts);
      if force { lastFullSync := now; }
    }

    /** The three passes over the table. */
    method Pass(ds: seq<Desired>, force: bool, accepts: set<Fd>)
      requires Inv(Value())
      modifies this`slots, this`fdToSlot, this`kernel
      ensures Value() == Sync(old(Value()), ds, force, accepts)
    {
      ghost var t := Value();
      UnseeKeeps(t);
      slots := seq(|slots|, i requires 0 <= i < |slots| reads this => Unsee(slots[i]));
      assert Value() == UnseeAll(t);
      ReconcileAll(ds, force, accepts);
      SweepAll();
    }

    method ReconcileAll(ds: seq<Desired>, force: bool, accepts: set<Fd>)
      requires Inv(Value())
      modifies this`slots, this`fdToSlot, this`kernel
      ensures Value() == SyncAll(old(Value()), ds, force, accepts)
    {
      ghost var t := Value();
      for k := 0 to |ds|
        invariant Value() == SyncAll(t, ds[..k], force, accepts)
      {
        assert ds[..k + 1][..k] == ds[..k];
        Reconcile(ds[k], force, accepts);
      }
      assert ds[..|ds|] == ds;
    }

    method SweepAll()
      requires Inv(Value())
      modifies this`slots, this`fdToSlot, this`kernel
      ensures Value() == SweepTo(old(Value()), |old(slots)|)
    {
      ghost var t := Value();
      var n := |slots|;
      for i := 0 to n
        invariant |slots| == n && Value() == SweepTo(t, i)
      {
        Sweep(i);
      }
    }
  }
}
