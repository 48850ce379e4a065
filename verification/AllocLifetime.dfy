/**
 The lifetime of a TURN server allocation across IO threads, as a state machine.

 IO threads reach an allocation only through four lookup maps.  A lookup holds its map's lock
 shared while it finds the entry, reads `dying_` and takes a reference; the reference is used and
 dropped without any lock.  A second, nested reference is taken through the relayed address
 (hairpin delivery).  The control thread owns the state lock: it creates and publishes
 allocations, and destroys one by marking it dying, erasing its entries under the exclusive map
 locks, and freeing it once its reference count is zero.  Each step is one atomic action or one
 exclusive critical section.

 The tables of an allocation have a mutex of their own.  A thread that holds a reference waits for
 it, holds it and releases it before it looks further or drops the reference; the control thread
 takes it in the expiry sweep and releases it before it destroys anything.
 */
module AllocLifetime {
  import opened Options

  type Id = nat
  type Tid = nat
  type Key = nat

  datatype Lookup = ByClient | ByRelaySock | ByRelayAddr | ByControlSock

  /** The keys of an allocation; `control` is absent on a UDP control path. */
  datatype Keys = Keys(client: Key, relaySock: Key, relayAddr: Key, control: Key, hasControl: bool)

  datatype Entry = Entry(lookup: Lookup, key: Key)

  /** A thread may hold one reference and one nested reference. */
  datatype Slot = Slot(t: Tid, nested: bool)

  /** A lookup in progress: the map it holds locked and the pointer it read there. */
  datatype Look = Look(lookup: Lookup, a: Id)

  /** The control thread: how far the destruction of one allocation has come. */
  datatype Owner =
    | NoDestroy
    | Marked(a: Id)
    | RelayErased(a: Id)
    | ClientErased(a: Id)
    | Draining(a: Id)

  /** The mutexes of the allocations: who waits, who holds one, and the one the sweep holds. */
  datatype Mutexes = Mutexes(wants: set<Slot>, held: map<Id, Slot>, sweeping: Option<Id>)

  datatype State = State(
    keys: map<Id, Keys>,
    entries: map<Entry, Id>,
    dying: set<Id>,
    freed: set<Id>,
    users: map<Id, nat>,
    refs: map<Slot, Id>,
    found: map<Tid, Look>,
    checked: map<Tid, Look>,
    owner: Owner,
    mx: Mutexes)

  function Users(users: map<Id, nat>, a: Id): nat { if a in users then users[a] else 0 }

  function KeyIn(k: Keys, lookup: Lookup): Key
  {
    match lookup
    case ByClient => k.client
    case ByRelaySock => k.relaySock
    case ByRelayAddr => k.relayAddr
    case ByControlSock => k.control
  }

  /** The two relay maps share one lock. */
  predicate SameLock(x: Lookup, y: Lookup)
  {
    x == y || (x.ByRelaySock? && y.ByRelayAddr?) || (x.ByRelayAddr? && y.ByRelaySock?)
  }

  /** Nobody holds the lock of this map shared. */
  predicate Unlocked(found: map<Tid, Look>, checked: map<Tid, Look>, lookup: Lookup)
  {
    && (forall t :: t in found ==> !SameLock(found[t].lookup, lookup))
    && (forall t :: t in checked ==> !SameLock(checked[t].lookup, lookup))
  }

  // ---- Steps ---------------------------------------------------------------------------

  datatype Step =
    | Create(a: Id, k: Keys)
    | Publish(a: Id, lookup: Lookup)
    | MarkFound(e: Entry)
    | MarkSwept(a: Id)
    | EraseRelay
    | EraseClient
    | EraseControl
    | Free
    | Find(t: Tid, e: Entry)
    | ReadDying(t: Tid)
    | TakeRef(t: Tid)
    | Use(t: Tid, nested: bool)
    | Unref(t: Tid, nested: bool)
    | WantMutex(t: Tid, nested: bool)
    | Lock(slot: Slot)
    | Unlock(a: Id)
    | SweepLock(a: Id)
    | SweepUnlock

  predicate NotLooking(s: State, t: Tid) { t !in s.found && t !in s.checked }

  /** The reference a thread took last. */
  predicate Top(refs: map<Slot, Id>, x: Slot) { x.nested || Slot(x.t, true) !in refs }

  /** The thread neither waits for nor holds the mutex of an allocation. */
  predicate Lockless(s: State, t: Tid)
  {
    (forall x :: x in s.mx.wants ==> x.t != t) && (forall a :: a in s.mx.held ==> s.mx.held[a].t != t)
  }

  /** The control thread is not inside the sweep's critical section and not destroying anything. */
  predicate AtRest(s: State) { s.owner.NoDestroy? && s.mx.sweeping.None? }

  /** A nested lookup goes through the relayed address and only while one reference is held. */
  predicate CanFind(s: State, t: Tid, e: Entry)
  {
    && NotLooking(s, t) && Slot(t, true) !in s.refs && Lockless(s, t)
    && (Slot(t, false) in s.refs ==> e.lookup.ByRelayAddr?)
  }

  predicate Enabled(s: State, step: Step)
  {
    match step
    case Create(a, k) => AtRest(s) && a !in s.keys
    case Publish(a, lookup) =>
      && AtRest(s) && a in s.keys && a !in s.freed && a !in s.dying
      && (lookup.ByControlSock? ==> s.keys[a].hasControl)
      && Unlocked(s.found, s.checked, lookup)
    case MarkFound(e) => AtRest(s) && e in s.entries
    case MarkSwept(a) => AtRest(s) && a in s.keys && a !in s.freed
    case EraseRelay => s.owner.Marked? && s.owner.a in s.keys && Unlocked(s.found, s.checked, ByRelaySock)
    case EraseClient => s.owner.RelayErased? && s.owner.a in s.keys && Unlocked(s.found, s.checked, ByClient)
    case EraseControl =>
      && s.owner.ClientErased? && s.owner.a in s.keys
      && (s.keys[s.owner.a].hasControl ==> Unlocked(s.found, s.checked, ByControlSock))
    case Free => s.owner.Draining? && Users(s.users, s.owner.a) == 0
    case Find(t, e) => CanFind(s, t, e)
    case ReadDying(t) => t in s.found
    case TakeRef(t) => t in s.checked
    case Use(t, nested) => Slot(t, nested) in s.refs
    case Unref(t, nested) =>
      && NotLooking(s, t) && Slot(t, nested) in s.refs && Users(s.users, s.refs[Slot(t, nested)]) > 0
      && (!nested ==> Slot(t, true) !in s.refs) && Lockless(s, t)
    case WantMutex(t, nested) =>
      NotLooking(s, t) && Slot(t, nested) in s.refs && Top(s.refs, Slot(t, nested)) && Lockless(s, t)
    case Lock(slot) => slot in s.mx.wants && slot in s.refs && s.refs[slot] !in s.mx.held && s.mx.sweeping != Some(s.refs[slot])
    case Unlock(a) => a in s.mx.held
    case SweepLock(a) => AtRest(s) && a in s.keys && a !in s.freed && a !in s.mx.held
    case SweepUnlock => s.mx.sweeping.Some?
  }

  function EraseKey(entries: map<Entry, Id>, k: Keys, lookup: Lookup): map<Entry, Id>
  {
    entries - {Entry(lookup, KeyIn(k, lookup))}
  }

  function DoFind(s: State, t: Tid, e: Entry): State
  {
    if e in s.entries then s.(found := s.found[t := Look(e.lookup, s.entries[e])]) else s
  }

  function DoReadDying(s: State, t: Tid): State
    requires t in s.found
  {
    if s.found[t].a in s.dying then s.(found := s.found - {t})
    else s.(found := s.found - {t}, checked := s.checked[t := s.found[t]])
  }

  /** The slot a thread's next reference goes to. */
  function NextSlot(s: State, t: Tid): Slot { Slot(t, Slot(t, false) in s.refs) }

  function DoTakeRef(s: State, t: Tid): State
    requires t in s.checked
  {
    var a := s.checked[t].a;
    s.(users := s.users[a := Users(s.users, a) + 1],
       refs := s.refs[NextSlot(s, t) := a],
       checked := s.checked - {t})
  }

  function DoUnref(s: State, slot: Slot): State
    requires slot in s.refs && Users(s.users, s.refs[slot]) > 0
  {
    var a := s.refs[slot];
    s.(users := s.users[a := Users(s.users, a) - 1], refs := s.refs - {slot})
  }

  function Apply(s: State, step: Step): State
    requires Enabled(s, step)
  {
    match step
    case Create(a, k) => s.(keys := s.keys[a := k])
    case Publish(a, lookup) => s.(entries := s.entries[Entry(lookup, KeyIn(s.keys[a], lookup)) := a])
    case MarkFound(e) => s.(dying := s.dying + {s.entries[e]}, owner := Marked(s.entries[e]))
    case MarkSwept(a) => s.(dying := s.dying + {a}, owner := Marked(a))
    case EraseRelay =>
      s.(entries := EraseKey(EraseKey(s.entries, s.keys[s.owner.a], ByRelaySock), s.keys[s.owner.a], ByRelayAddr),
         owner := RelayErased(s.owner.a))
    case EraseClient =>
      s.(entries := EraseKey(s.entries, s.keys[s.owner.a], ByClient), owner := ClientErased(s.owner.a))
    case EraseControl =>
      s.(entries := if s.keys[s.owner.a].hasControl then EraseKey(s.entries, s.keys[s.owner.a], ByControlSock)
                    else s.entries,
         owner := Draining(s.owner.a))
    case Free => s.(freed := s.freed + {s.owner.a}, owner := NoDestroy)
    case Find(t, e) => DoFind(s, t, e)
    case ReadDying(t) => DoReadDying(s, t)
    case TakeRef(t) => DoTakeRef(s, t)
    case Use(t, nested) => s
    case Unref(t, nested) => DoUnref(s, Slot(t, nested))
    case WantMutex(t, nested) => s.(mx := s.mx.(wants := s.mx.wants + {Slot(t, nested)}))
    case Lock(slot) => s.(mx := s.mx.(wants := s.mx.wants - {slot}, held := s.mx.held[s.refs[slot] := slot]))
    case Unlock(a) => s.(mx := s.mx.(held := s.mx.held - {a}))
    case SweepLock(a) => s.(mx := s.mx.(sweeping := Some(a)))
    case SweepUnlock => s.(mx := s.mx.(sweeping := None))
  }

  /** The allocation whose memory a step reads or writes, if any. */
  predicate Touches(s: State, step: Step, a: Id)
    requires Enabled(s, step)
  {
    match step
    case Create(x, k) => a == x
    case Publish(x, lookup) => a == x
    case MarkFound(e) => a == s.entries[e]
    case MarkSwept(x) => a == x
    case EraseRelay => a == s.owner.a
    case EraseClient => a == s.owner.a
    case EraseControl => a == s.owner.a
    case Free => a == s.owner.a
    case Find(t, e) => false
    case ReadDying(t) => a == s.found[t].a
    case TakeRef(t) => a == s.checked[t].a
    case Use(t, nested) => a == s.refs[Slot(t, nested)]
    case Unref(t, nested) => a == s.refs[Slot(t, nested)]
    case WantMutex(t, nested) => a == s.refs[Slot(t, nested)]
    case Lock(slot) => a == s.refs[slot]
    case Unlock(x) => a == x
    case SweepLock(x) => a == x
    case SweepUnlock => a == s.mx.sweeping.value
  }

  predicate Init(s: State)
  {
    && s.keys == map[] && s.entries == map[] && s.dying == {} && s.freed == {} && s.users == map[]
    && s.refs == map[] && s.found == map[] && s.checked == map[] && s.owner.NoDestroy?
    && s.mx.wants == {} && s.mx.held == map[] && s.mx.sweeping.None?
  }

  ghost predicate Reaches(s0: State, steps: seq<Step>, s: State)
    decreases |steps|
  {
    if steps == [] then s == s0
    else
      var last := |steps| - 1;
      exists m :: Reaches(s0, steps[..last], m) && Enabled(m, steps[last]) && s == Apply(m, steps[last])
  }

  // ---- Invariant -----------------------------------------------------------------------

  /** The destroyer of `a` is past the lock of this map. */
  predicate Erased(owner: Owner, a: Id, lookup: Lookup)
  {
    match owner
    case NoDestroy => false
    case Marked(x) => false
    case RelayErased(x) => x == a && (lookup.ByRelaySock? || lookup.ByRelayAddr?)
    case ClientErased(x) => x == a && !lookup.ByControlSock?
    case Draining(x) => x == a
  }

  /** `a` may still be found through this map. */
  predicate Findable(keys: map<Id, Keys>, freed: set<Id>, owner: Owner, a: Id, lookup: Lookup)
  {
    a in keys && a !in freed && !Erased(owner, a, lookup) && (lookup.ByControlSock? ==> keys[a].hasControl)
  }

  predicate EntriesInv(keys: map<Id, Keys>, entries: map<Entry, Id>, freed: set<Id>, owner: Owner)
  {
    forall e :: e in entries ==>
      && Findable(keys, freed, owner, entries[e], e.lookup)
      && e.key == KeyIn(keys[entries[e]], e.lookup)
  }

  predicate LooksInv(keys: map<Id, Keys>, looks: map<Tid, Look>, freed: set<Id>, owner: Owner)
  {
    forall t :: t in looks ==> Findable(keys, freed, owner, looks[t].a, looks[t].lookup)
  }

  predicate OwnerInv(keys: map<Id, Keys>, dying: set<Id>, freed: set<Id>, owner: Owner)
  {
    && (!owner.NoDestroy? ==> owner.a in keys && owner.a in dying && owner.a !in freed)
    && forall a :: a in freed ==> a in keys
  }

  function Holders(refs: map<Slot, Id>, a: Id): set<Slot>
  {
    set x | x in refs && refs[x] == a
  }

  ghost predicate CountInv(users: map<Id, nat>, refs: map<Slot, Id>)
  {
    forall a :: Users(users, a) == |Holders(refs, a)|
  }

  predicate RefsInv(keys: map<Id, Keys>, refs: map<Slot, Id>, freed: set<Id>)
  {
    forall x :: x in refs ==> refs[x] in keys && refs[x] !in freed
  }

  /** A thread that is looking has a slot left, and looks once at a time. */
  predicate SlotsInv(refs: map<Slot, Id>, found: map<Tid, Look>, checked: map<Tid, Look>)
  {
    && (forall t :: t in found ==> Slot(t, true) !in refs && t !in checked)
    && (forall t :: t in checked ==> Slot(t, true) !in refs)
  }

  /** A thread waits for or holds one mutex at a time: that of the reference it took last, and without looking. */
  predicate LocksInv(refs: map<Slot, Id>, found: map<Tid, Look>, checked: map<Tid, Look>, mx: Mutexes)
  {
    && (forall x :: x in mx.wants ==> x in refs && Top(refs, x) && x.t !in found && x.t !in checked)
    && (forall a :: a in mx.held ==>
          var x := mx.held[a];
          x in refs && refs[x] == a && Top(refs, x) && x.t !in found && x.t !in checked)
    && (forall x, a :: x in mx.wants && a in mx.held ==> mx.held[a].t != x.t)
  }

  /** The sweep holds a live allocation's mutex, and never while something is being destroyed. */
  predicate SweepInv(keys: map<Id, Keys>, freed: set<Id>, owner: Owner, sweeping: Option<Id>)
  {
    sweeping.Some? ==> owner.NoDestroy? && sweeping.value in keys && sweeping.value !in freed
  }

  ghost predicate Inv(s: State)
  {
    && LocksInv(s.refs, s.found, s.checked, s.mx)
    && SweepInv(s.keys, s.freed, s.owner, s.mx.sweeping)
    && EntriesInv(s.keys, s.entries, s.freed, s.owner)
    && LooksInv(s.keys, s.found, s.freed, s.owner)
    && LooksInv(s.keys, s.checked, s.freed, s.owner)
    && OwnerInv(s.keys, s.dying, s.freed, s.owner)
    && CountInv(s.users, s.refs)
    && RefsInv(s.keys, s.refs, s.freed)
    && SlotsInv(s.refs, s.found, s.checked)
  }

  lemma InitInv(s: State)
    requires Init(s)
    ensures Inv(s)
  {
    forall a ensures Users(s.users, a) == |Holders(s.refs, a)| {
      assert Holders(s.refs, a) == {};
    }
  }

  lemma HoldersAdd(refs: map<Slot, Id>, slot: Slot, a: Id, b: Id)
    requires slot !in refs
    ensures |Holders(refs[slot := a], b)| == |Holders(refs, b)| + (if a == b then 1 else 0)
  {
    if a == b {
      assert Holders(refs[slot := a], b) == Holders(refs, b) + {slot};
    } else {
      assert Holders(refs[slot := a], b) == Holders(refs, b);
    }
  }

  lemma HoldersDrop(refs: map<Slot, Id>, slot: Slot, b: Id)
    requires slot in refs
    ensures |Holders(refs - {slot}, b)| == |Holders(refs, b)| - (if refs[slot] == b then 1 else 0)
  {
    if refs[slot] == b {
      assert Holders(refs - {slot}, b) == Holders(refs, b) - {slot};
    } else {
      assert Holders(refs - {slot}, b) == Holders(refs, b);
    }
  }

  lemma CountAdd(users: map<Id, nat>, refs: map<Slot, Id>, slot: Slot, a: Id)
    requires CountInv(users, refs) && slot !in refs
    ensures CountInv(users[a := Users(users, a) + 1], refs[slot := a])
  {
    var users', refs' := users[a := Users(users, a) + 1], refs[slot := a];
    forall b ensures Users(users', b) == |Holders(refs', b)| {
      HoldersAdd(refs, slot, a, b);
    }
  }

  lemma CountDrop(users: map<Id, nat>, refs: map<Slot, Id>, slot: Slot)
    requires CountInv(users, refs) && slot in refs
    ensures Users(users, refs[slot]) > 0
    ensures CountInv(users[refs[slot] := Users(users, refs[slot]) - 1], refs - {slot})
  {
    var a := refs[slot];
    assert slot in Holders(refs, a);
    var users', refs' := users[a := Users(users, a) - 1], refs - {slot};
    forall b ensures Users(users', b) == |Holders(refs', b)| {
      HoldersDrop(refs, slot, b);
    }
  }

  lemma NoHolders(users: map<Id, nat>, refs: map<Slot, Id>, a: Id)
    requires CountInv(users, refs) && Users(users, a) == 0
    ensures forall x :: x in refs ==> refs[x] != a
  {
    forall x | x in refs ensures refs[x] != a {
      assert x in Holders(refs, refs[x]);
    }
  }

  lemma FreeKeeps(s: State)
    requires Inv(s) && Enabled(s, Free)
    ensures Inv(Apply(s, Free))
  {
    var a := s.owner.a;
    NoHolders(s.users, s.refs, a);
    assert forall lookup :: Erased(s.owner, a, lookup);
  }

  lemma EraseKeeps(s: State, step: Step)
    requires Inv(s) && Enabled(s, step) && (step.EraseRelay? || step.EraseClient? || step.EraseControl?)
    ensures Inv(Apply(s, step))
  {
  }

  lemma PublishKeeps(s: State, step: Step)
    requires Inv(s) && Enabled(s, step) && (step.Create? || step.Publish?)
    ensures Inv(Apply(s, step))
  {
  }

  lemma MarkKeeps(s: State, step: Step)
    requires Inv(s) && Enabled(s, step) && (step.MarkFound? || step.MarkSwept?)
    ensures Inv(Apply(s, step))
  {
  }

  lemma FindLocks(s: State, t: Tid, l: Look)
    requires LocksInv(s.refs, s.found, s.checked, s.mx) && Lockless(s, t)
    ensures LocksInv(s.refs, s.found[t := l], s.checked, s.mx)
  {
  }

  lemma FindKeeps(s: State, t: Tid, e: Entry)
    requires Inv(s) && CanFind(s, t, e)
    ensures Inv(DoFind(s, t, e))
  {
    if e in s.entries { FindLocks(s, t, Look(e.lookup, s.entries[e])); }
  }

  lemma PassLocks(s: State, t: Tid)
    requires LocksInv(s.refs, s.found, s.checked, s.mx) && t in s.found
    ensures LocksInv(s.refs, s.found - {t}, s.checked, s.mx)
    ensures LocksInv(s.refs, s.found - {t}, s.checked[t := s.found[t]], s.mx)
  {
  }

  lemma PassLooks(s: State, t: Tid)
    requires LooksInv(s.keys, s.found, s.freed, s.owner) && LooksInv(s.keys, s.checked, s.freed, s.owner) && t in s.found
    ensures LooksInv(s.keys, s.found - {t}, s.freed, s.owner) && LooksInv(s.keys, s.checked[t := s.found[t]], s.freed, s.owner)
  {
  }

  lemma ReadDyingKeeps(s: State, t: Tid)
    requires Inv(s) && t in s.found
    ensures Inv(DoReadDying(s, t))
  {
    PassLocks(s, t);
    PassLooks(s, t);
  }

  lemma TakeRefKeeps(s: State, t: Tid)
    requires Inv(s) && t in s.checked
    ensures Inv(DoTakeRef(s, t))
  {
    CountAdd(s.users, s.refs, NextSlot(s, t), s.checked[t].a);
  }

  lemma WantLocks(s: State, x: Slot)
    requires LocksInv(s.refs, s.found, s.checked, s.mx) && Lockless(s, x.t)
    requires x in s.refs && Top(s.refs, x) && NotLooking(s, x.t)
    ensures LocksInv(s.refs, s.found, s.checked, s.mx.(wants := s.mx.wants + {x}))
  {
  }

  lemma TakeLocks(s: State, x: Slot)
    requires LocksInv(s.refs, s.found, s.checked, s.mx) && x in s.mx.wants && x in s.refs
    ensures LocksInv(s.refs, s.found, s.checked, s.mx.(wants := s.mx.wants - {x}, held := s.mx.held[s.refs[x] := x]))
  {
    assert forall y :: y in s.mx.wants && y.t == x.t ==> y == x;
  }

  lemma DropLocks(s: State, a: Id)
    requires LocksInv(s.refs, s.found, s.checked, s.mx)
    ensures LocksInv(s.refs, s.found, s.checked, s.mx.(held := s.mx.held - {a}))
  {
  }

  lemma LockKeeps(s: State, step: Step)
    requires Inv(s) && Enabled(s, step) && (step.WantMutex? || step.Lock? || step.Unlock?)
    ensures Inv(Apply(s, step))
  {
    match step
    case WantMutex(t, nested) => WantLocks(s, Slot(t, nested));
    case Lock(slot) => TakeLocks(s, slot);
    case Unlock(a) => DropLocks(s, a);
  }

  lemma UnrefKeeps(s: State, slot: Slot)
    requires Inv(s) && slot in s.refs && Lockless(s, slot.t) && Top(s.refs, slot)
    ensures Users(s.users, s.refs[slot]) > 0 && Inv(DoUnref(s, slot))
  {
    CountDrop(s.users, s.refs, slot);
  }

  lemma StepKeeps(s: State, step: Step)
    requires Inv(s) && Enabled(s, step)
    ensures Inv(Apply(s, step))
  {
    match step
    case Create(a, k) => PublishKeeps(s, step);
    case Publish(a, lookup) => PublishKeeps(s, step);
    case MarkFound(e) => MarkKeeps(s, step);
    case MarkSwept(a) => MarkKeeps(s, step);
    case EraseRelay => EraseKeeps(s, step);
    case EraseClient => EraseKeeps(s, step);
    case EraseControl => EraseKeeps(s, step);
    case Free => FreeKeeps(s);
    case Find(t, e) => FindKeeps(s, t, e);
    case ReadDying(t) => ReadDyingKeeps(s, t);
    case TakeRef(t) => TakeRefKeeps(s, t);
    case Use(t, nested) =>
    case Unref(t, nested) => UnrefKeeps(s, Slot(t, nested));
    case WantMutex(t, nested) => LockKeeps(s, step);
    case Lock(slot) => LockKeeps(s, step);
    case Unlock(a) => LockKeeps(s, step);
    case SweepLock(a) =>
    case SweepUnlock =>
  }

  lemma {:induction false} RunKeeps(s0: State, steps: seq<Step>, s: State)
    requires Inv(s0) && Reaches(s0, steps, s)
    ensures Inv(s)
    decreases |steps|
  {
    if steps != [] {
      var last := |steps| - 1;
      var m :| Reaches(s0, steps[..last], m) && Enabled(m, steps[last]) && s == Apply(m, steps[last]);
      RunKeeps(s0, steps[..last], m);
      StepKeeps(m, steps[last]);
    }
  }

  // ---- Main results --------------------------------------------------------------------

  /** No thread ever uses a freed allocation, in any interleaving. */
  lemma NoUseAfterFree(s0: State, steps: seq<Step>, s: State, step: Step, a: Id)
    requires Init(s0) && Reaches(s0, steps, s) && Enabled(s, step) && Touches(s, step, a)
    ensures a !in s.freed
  {
    InitInv(s0);
    RunKeeps(s0, steps, s);
  }

  /** `ioUsers_` counts exactly the references held, and every pointer still around is to live memory. */
  lemma CountIsExact(s0: State, steps: seq<Step>, s: State, a: Id)
    requires Init(s0) && Reaches(s0, steps, s)
    ensures Users(s.users, a) == |Holders(s.refs, a)|
    ensures a in s.freed ==>
              && Users(s.users, a) == 0 && a !in s.mx.held && s.mx.sweeping != Some(a)
              && (forall e :: e in s.entries ==> s.entries[e] != a)
              && (forall t :: t in s.found ==> s.found[t].a != a)
              && (forall t :: t in s.checked ==> s.checked[t].a != a)
  {
    InitInv(s0);
    RunKeeps(s0, steps, s);
    if a in s.freed { assert Holders(s.refs, a) == {}; }
  }

  /** Once the entries of `a` are erased nobody can find it, so its count never rises again. */
  lemma CountOnlyFalls(s0: State, steps: seq<Step>, s: State, step: Step)
    requires Init(s0) && Reaches(s0, steps, s) && s.owner.Draining? && Enabled(s, step)
    ensures Users(Apply(s, step).users, s.owner.a) <= Users(s.users, s.owner.a)
    ensures !step.Free? ==> Apply(s, step).owner == s.owner
  {
    InitInv(s0);
    RunKeeps(s0, steps, s);
    assert forall lookup :: Erased(s.owner, s.owner.a, lookup);
  }

  /**
   In every reachable state a lookup by a key that is entered runs through without waiting: it ends
   with one more reference, to the allocation entered there, or with none if that is being
   destroyed; a lookup by any other key changes nothing.
   */
  lemma LookupEnds(s0: State, run: seq<Step>, s: State, t: Tid, e: Entry)
    requires Init(s0) && Reaches(s0, run, s) && Enabled(s, Find(t, e))
    ensures e !in s.entries ==> Apply(s, Find(t, e)) == s
    ensures e in s.entries ==>
              var s1 := Apply(s, Find(t, e));
              && Enabled(s1, ReadDying(t))
              && var s2 := Apply(s1, ReadDying(t));
                 if s.entries[e] in s.dying then s2.refs == s.refs && s2.users == s.users && NotLooking(s2, t)
                 else
                   && Enabled(s2, TakeRef(t))
                   && var s3 := Apply(s2, TakeRef(t));
                      && s3.refs == s.refs[Slot(t, Slot(t, false) in s.refs) := s.entries[e]] && NotLooking(s3, t)
                      && Users(s3.users, s.entries[e]) == Users(s.users, s.entries[e]) + 1
                      && Slot(t, Slot(t, false) in s.refs) !in s.refs && s.entries[e] !in s.freed
  {
    InitInv(s0);
    RunKeeps(s0, run, s);
  }

  lemma DyingStep(s: State, step: Step)
    requires EntriesInv(s.keys, s.entries, s.freed, s.owner) && Enabled(s, step) && (forall a :: a in s.dying ==> a in s.keys)
    ensures forall a :: a in Apply(s, step).dying ==> a in Apply(s, step).keys
  {
  }

  lemma {:induction false} DyingAreKnown(s0: State, run: seq<Step>, s: State)
    requires Init(s0) && Reaches(s0, run, s)
    ensures Inv(s) && forall a :: a in s.dying ==> a in s.keys
    decreases |run|
  {
    if run == [] {
      InitInv(s0);
    } else {
      var last := |run| - 1;
      var m :| Reaches(s0, run[..last], m) && Enabled(m, run[last]) && s == Apply(m, run[last]);
      DyingAreKnown(s0, run[..last], m);
      StepKeeps(m, run[last]);
      DyingStep(m, run[last]);
    }
  }

  /** An entry names an allocation with these keys. */
  predicate Names(e: Entry, k: Keys)
  {
    match e.lookup
    case ByClient => e.key == k.client
    case ByRelaySock => e.key == k.relaySock
    case ByRelayAddr => e.key == k.relayAddr
    case ByControlSock => k.hasControl && e.key == k.control
  }

  /**
   In every reachable state a new allocation can be entered under each of its keys as soon as
   nobody looks in that map, which touches no other entry, and is then what a lookup finds.
   */
  lemma CreatedIsFound(s0: State, run: seq<Step>, s: State, a: Id, k: Keys, t: Tid, e: Entry)
    requires Init(s0) && Reaches(s0, run, s) && Enabled(s, Create(a, k)) && Names(e, k)
    requires Unlocked(s.found, s.checked, e.lookup) && CanFind(s, t, e)
    ensures var s1 := Apply(s, Create(a, k));
            && Enabled(s1, Publish(a, e.lookup))
            && var s2 := Apply(s1, Publish(a, e.lookup));
               && s2.entries == s.entries[e := a] && Enabled(s2, Find(t, e))
               && Apply(s2, Find(t, e)).found == s.found[t := Look(e.lookup, a)]
  {
    NewIsClean(s0, run, s, a);
    EnteredIsFound(s, a, k, t, e);
  }

  lemma NewIsClean(s0: State, run: seq<Step>, s: State, a: Id)
    requires Init(s0) && Reaches(s0, run, s) && a !in s.keys
    ensures a !in s.dying && a !in s.freed
  {
    DyingAreKnown(s0, run, s);
    assert OwnerInv(s.keys, s.dying, s.freed, s.owner);
  }

  lemma PublishEnters(s: State, a: Id, e: Entry)
    requires AtRest(s) && a in s.keys && a !in s.freed && a !in s.dying && Names(e, s.keys[a])
    requires Unlocked(s.found, s.checked, e.lookup)
    ensures Enabled(s, Publish(a, e.lookup)) && Apply(s, Publish(a, e.lookup)) == s.(entries := s.entries[e := a])
  {
  }

  lemma FindGets(s: State, t: Tid, e: Entry)
    requires CanFind(s, t, e) && e in s.entries
    ensures Enabled(s, Find(t, e)) && Apply(s, Find(t, e)).found == s.found[t := Look(e.lookup, s.entries[e])]
  {
  }

  lemma EnteredIsFound(s: State, a: Id, k: Keys, t: Tid, e: Entry)
    requires Enabled(s, Create(a, k)) && Names(e, k) && a !in s.dying && a !in s.freed
    requires Unlocked(s.found, s.checked, e.lookup) && CanFind(s, t, e)
    ensures var s1 := Apply(s, Create(a, k));
            && Enabled(s1, Publish(a, e.lookup))
            && var s2 := Apply(s1, Publish(a, e.lookup));
               && s2.entries == s.entries[e := a] && Enabled(s2, Find(t, e))
               && Apply(s2, Find(t, e)).found == s.found[t := Look(e.lookup, a)]
  {
    var s1 := Apply(s, Create(a, k));
    assert s1 == s.(keys := s.keys[a := k]);
    PublishEnters(s1, a, e);
    FindGets(s1.(entries := s1.entries[e := a]), t, e);
  }

  // ---- The mutex of an allocation --------------------------------------------------------

  lemma HeldStays(s: State, step: Step, a: Id)
    requires Enabled(s, step) && a in s.mx.held && step != Unlock(a)
    ensures a in Apply(s, step).mx.held && Apply(s, step).mx.held[a] == s.mx.held[a]
  {
  }

  lemma {:induction false} HeldThroughout(s: State, steps: seq<Step>, s': State, a: Id)
    requires Reaches(s, steps, s') && a in s.mx.held && Unlock(a) !in steps
    ensures a in s'.mx.held && s'.mx.held[a] == s.mx.held[a]
    decreases |steps|
  {
    if steps != [] {
      var last := |steps| - 1;
      var m :| Reaches(s, steps[..last], m) && Enabled(m, steps[last]) && s' == Apply(m, steps[last]);
      HeldThroughout(s, steps[..last], m, a);
      HeldStays(m, steps[last], a);
    }
  }

  /** From its lock to its unlock a thread is alone with an allocation's mutex, whatever the others and the sweep do. */
  lemma MutexExclusive(s: State, slot: Slot, steps: seq<Step>, s': State)
    requires Enabled(s, Lock(slot)) && Reaches(Apply(s, Lock(slot)), steps, s') && Unlock(s.refs[slot]) !in steps
    ensures var a := s.refs[slot];
            && a in s'.mx.held && s'.mx.held[a] == slot && !Enabled(s', SweepLock(a))
            && forall x :: x in s'.refs && s'.refs[x] == a ==> !Enabled(s', Lock(x))
  {
    HeldThroughout(Apply(s, Lock(slot)), steps, s', s.refs[slot]);
  }

  /** A thread that asks for a free mutex gets it, and gives it back as it was. */
  lemma MutexServed(s: State, t: Tid, nested: bool)
    requires Enabled(s, WantMutex(t, nested))
    requires var a := s.refs[Slot(t, nested)]; a !in s.mx.held && s.mx.sweeping != Some(a)
    ensures var s1 := Apply(s, WantMutex(t, nested));
            && Enabled(s1, Lock(Slot(t, nested)))
            && var s2 := Apply(s1, Lock(Slot(t, nested)));
               Enabled(s2, Unlock(s.refs[Slot(t, nested)])) && Apply(s2, Unlock(s.refs[Slot(t, nested)])) == s
  {
    var s1 := Apply(s, WantMutex(t, nested));
    var s2 := Apply(s1, Lock(Slot(t, nested)));
    assert s2.mx.wants == s.mx.wants;
    assert Apply(s2, Unlock(s.refs[Slot(t, nested)])).mx.held == s.mx.held;
  }

  lemma SweepingStays(s: State, step: Step)
    requires Enabled(s, step) && s.mx.sweeping.Some? && s.owner.NoDestroy? && step != SweepUnlock
    ensures Apply(s, step).mx.sweeping == s.mx.sweeping && Apply(s, step).owner.NoDestroy?
  {
  }

  lemma {:induction false} SweepingThroughout(s: State, steps: seq<Step>, s': State, a: Id)
    requires Reaches(s, steps, s') && s.mx.sweeping == Some(a) && s.owner.NoDestroy? && SweepUnlock !in steps
    ensures s'.mx.sweeping == Some(a) && s'.owner.NoDestroy?
    decreases |steps|
  {
    if steps != [] {
      var last := |steps| - 1;
      var m :| Reaches(s, steps[..last], m) && Enabled(m, steps[last]) && s' == Apply(m, steps[last]);
      SweepingThroughout(s, steps[..last], m, a);
      SweepingStays(m, steps[last]);
    }
  }

  /** Neither does anyone else have it while the sweep does, and nothing is destroyed then; it too gives it back as it was. */
  lemma SweepExclusive(s: State, a: Id, steps: seq<Step>, s': State)
    requires Enabled(s, SweepLock(a)) && Reaches(Apply(s, SweepLock(a)), steps, s') && SweepUnlock !in steps
    ensures s'.owner.NoDestroy? && (forall x :: !Enabled(s', MarkSwept(x))) && (forall e :: !Enabled(s', MarkFound(e)))
    ensures forall x :: x in s'.refs && s'.refs[x] == a ==> !Enabled(s', Lock(x))
    ensures Enabled(s', SweepUnlock) && Apply(s', SweepUnlock) == s'.(mx := s'.mx.(sweeping := s.mx.sweeping))
  {
    SweepingThroughout(Apply(s, SweepLock(a)), steps, s', a);
    assert !AtRest(s');
  }

  // ---- The destroyer's wait always ends ------------------------------------------------

  /** Steps of IO threads that finish what they began; none needs the state lock. */
  predicate Finishing(step: Step)
  {
    step.ReadDying? || step.TakeRef? || step.Unref? || step.Lock? || step.Unlock?
  }

  function Weigh(refs: nat, found: nat, checked: nat, wants: nat, held: nat): nat
  {
    3 * refs + 5 * found + 4 * checked + 2 * wants + held
  }

  function Work(s: State): nat { Weigh(|s.refs|, |s.found|, |s.checked|, |s.mx.wants|, |s.mx.held|) }

  predicate Busy(s: State, t: Tid)
  {
    !NotLooking(s, t) || Slot(t, true) in s.refs || Slot(t, false) in s.refs
  }

  lemma DropSize<K, V>(m: map<K, V>, k: K)
    requires k in m
    ensures |m - {k}| == |m| - 1
  {
    assert (m - {k}).Keys == m.Keys - {k};
  }

  lemma AddSize<K, V>(m: map<K, V>, k: K, v: V)
    ensures |m[k := v]| <= |m| + 1
  {
    assert m[k := v].Keys == m.Keys + {k};
  }

  /** Less to do, with the destroyer and the sweep where they were. */
  predicate Nearer(s: State, s': State) { Work(s') < Work(s) && s'.owner == s.owner && s'.mx.sweeping == s.mx.sweeping }

  lemma ReadDyingWorks(s: State, t: Tid)
    requires t in s.found
    ensures Nearer(s, DoReadDying(s, t))
  {
    DropSize(s.found, t);
    AddSize(s.checked, t, s.found[t]);
    var s' := DoReadDying(s, t);
    assert |s'.found| == |s.found| - 1 && |s'.checked| <= |s.checked| + 1;
  }

  lemma TakeRefWorks(s: State, t: Tid)
    requires t in s.checked
    ensures Nearer(s, DoTakeRef(s, t))
  {
    DropSize(s.checked, t);
    AddSize(s.refs, NextSlot(s, t), s.checked[t].a);
  }

  lemma UnrefWorks(s: State, slot: Slot)
    requires slot in s.refs && Users(s.users, s.refs[slot]) > 0
    ensures Nearer(s, DoUnref(s, slot))
  {
    DropSize(s.refs, slot);
  }

  /** A step that finishes something, leaves the destroyer where it is and brings the end nearer. */
  predicate Progress(s: State, step: Step)
  {
    Enabled(s, step) && Finishing(step) && Nearer(s, Apply(s, step))
  }

  lemma LookerCanMove(s: State, t: Tid) returns (step: Step)
    requires Inv(s) && !NotLooking(s, t)
    ensures Progress(s, step)
  {
    if t in s.found {
      step := ReadDying(t);
      ReadDyingWorks(s, t);
      assert Apply(s, step) == DoReadDying(s, t);
    } else {
      step := TakeRef(t);
      TakeRefWorks(s, t);
      assert Apply(s, step) == DoTakeRef(s, t);
    }
  }

  lemma UnlockProgresses(s: State, a: Id)
    requires a in s.mx.held
    ensures Progress(s, Unlock(a))
  {
    DropSize(s.mx.held, a);
  }

  /** A thread that waits for a mutex gets it, or whoever holds it releases it. */
  lemma WaiterCanMove(s: State, x: Slot) returns (step: Step)
    requires Inv(s) && s.mx.sweeping.None? && x in s.mx.wants
    ensures Progress(s, step)
  {
    if s.refs[x] in s.mx.held {
      step := Unlock(s.refs[x]);
      UnlockProgresses(s, s.refs[x]);
    } else {
      step := Lock(x);
      AddSize(s.mx.held, s.refs[x], x);
      assert |s.mx.wants - {x}| == |s.mx.wants| - 1;
    }
  }

  lemma HolderCanMove(s: State, t: Tid) returns (step: Step)
    requires Inv(s) && NotLooking(s, t) && Busy(s, t) && Lockless(s, t)
    ensures Progress(s, step)
  {
    var slot := Slot(t, Slot(t, true) in s.refs);
    CountDrop(s.users, s.refs, slot);
    UnrefWorks(s, slot);
    step := Unref(t, slot.nested);
  }

  /** While a thread looks or holds a reference, some thread can move, unless the sweep holds a mutex. */
  lemma BusyCanMove(s: State, t: Tid) returns (step: Step)
    requires Inv(s) && s.mx.sweeping.None? && Busy(s, t)
    ensures Progress(s, step)
  {
    if !NotLooking(s, t) {
      step := LookerCanMove(s, t);
    } else if x :| x in s.mx.wants && x.t == t {
      step := WaiterCanMove(s, x);
    } else if a :| a in s.mx.held && s.mx.held[a].t == t {
      step := Unlock(a);
      UnlockProgresses(s, a);
    } else {
      step := HolderCanMove(s, t);
    }
  }

  function Stage(owner: Owner): nat
  {
    match owner
    case NoDestroy => 0
    case Draining(a) => 1
    case ClientErased(a) => 2
    case RelayErased(a) => 3
    case Marked(a) => 4
  }

  /** What the destroyer does next. */
  function DestroyerStep(owner: Owner): Step
    requires !owner.NoDestroy?
  {
    match owner
    case Draining(a) => Free
    case ClientErased(a) => EraseControl
    case RelayErased(a) => EraseClient
    case Marked(a) => EraseRelay
  }

  predicate IsDestroyerStep(step: Step)
  {
    step.EraseRelay? || step.EraseClient? || step.EraseControl? || step.Free?
  }

  lemma LockedByLooker(s: State, lookup: Lookup) returns (t: Tid)
    requires !Unlocked(s.found, s.checked, lookup)
    ensures Busy(s, t)
  {
    if x :| x in s.found && SameLock(s.found[x].lookup, lookup) {
      t := x;
    } else {
      t :| t in s.checked && SameLock(s.checked[t].lookup, lookup);
    }
  }

  lemma WaitsForHolder(s: State) returns (t: Tid)
    requires Inv(s) && s.owner.Draining? && Users(s.users, s.owner.a) > 0
    ensures Busy(s, t)
  {
    var slot :| slot in Holders(s.refs, s.owner.a);
    assert slot == Slot(slot.t, slot.nested);
    t := slot.t;
  }

  /** If the destroyer has to wait, it waits for a thread that can move. */
  lemma BlockedByBusy(s: State) returns (t: Tid)
    requires Inv(s) && !s.owner.NoDestroy? && !Enabled(s, DestroyerStep(s.owner))
    ensures Busy(s, t)
  {
    match s.owner
    case Draining(a) => t := WaitsForHolder(s);
    case ClientErased(a) => t := LockedByLooker(s, ByControlSock);
    case RelayErased(a) => t := LockedByLooker(s, ByClient);
    case Marked(a) => t := LockedByLooker(s, ByRelaySock);
  }

  lemma DestroyerMoves(s: State)
    requires !s.owner.NoDestroy? && Enabled(s, DestroyerStep(s.owner))
    ensures IsDestroyerStep(DestroyerStep(s.owner))
    ensures var s' := Apply(s, DestroyerStep(s.owner));
            && Stage(s'.owner) < Stage(s.owner)
            && (if s'.owner.NoDestroy? then s.owner.a in s'.freed else s'.owner.a == s.owner.a)
  {
  }

  lemma Extend(s0: State, steps: seq<Step>, s: State, step: Step)
    requires Reaches(s0, steps, s) && Enabled(s, step)
    ensures Reaches(s0, steps + [step], Apply(s, step))
  {
    assert (steps + [step])[..|steps|] == steps;
  }

  /**
   Destruction cannot deadlock: from every reachable state in which it is under way, the threads
   that look, hold references or use an allocation's mutex can finish on their own, while the
   destroyer keeps the state lock, and the allocation is freed.  Only finishing steps and destroyer
   steps are needed.
   */
  lemma DestroyCompletes(s0: State, run: seq<Step>, s: State) returns (steps: seq<Step>, s': State)
    requires Init(s0) && Reaches(s0, run, s) && !s.owner.NoDestroy?
    ensures Reaches(s, steps, s') && s'.owner.NoDestroy? && s.owner.a in s'.freed
    ensures forall step :: step in steps ==> Finishing(step) || IsDestroyerStep(step)
  {
    InitInv(s0);
    RunKeeps(s0, run, s);
    steps, s' := [], s;
    while !s'.owner.NoDestroy?
      invariant Inv(s') && Reaches(s, steps, s')
      invariant if s'.owner.NoDestroy? then s.owner.a in s'.freed else s'.owner.a == s.owner.a
      invariant forall step :: step in steps ==> Finishing(step) || IsDestroyerStep(step)
      decreases Stage(s'.owner), Work(s')
    {
      var step := DestroyerStep(s'.owner);
      if Enabled(s', step) {
        DestroyerMoves(s');
      } else {
        var t := BlockedByBusy(s');
        step := BusyCanMove(s', t);
      }
      StepKeeps(s', step);
      Extend(s, steps, s', step);
      steps, s' := steps + [step], Apply(s', step);
    }
  }

  /** An allocation that the control thread finds or sweeps up at rest can be freed, and then no map leads to it. */
  lemma DestroyFrees(s0: State, run: seq<Step>, s: State, a: Id, mark: Step) returns (steps: seq<Step>, s': State)
    requires Init(s0) && Reaches(s0, run, s) && AtRest(s) && a in s.keys && a !in s.freed
    requires mark == MarkSwept(a) || (mark.MarkFound? && mark.e in s.entries && s.entries[mark.e] == a)
    ensures Enabled(s, mark) && Reaches(Apply(s, mark), steps, s')
    ensures a in s'.freed && s'.owner.NoDestroy? && forall e :: e in s'.entries ==> s'.entries[e] != a
  {
    Extend(s0, run, s, mark);
    steps, s' := DestroyCompletes(s0, run + [mark], Apply(s, mark));
    InitInv(s0);
    RunKeeps(s0, run + [mark], Apply(s, mark));
    RunKeeps(Apply(s, mark), steps, s');
  }

  /** The destroyer waits for a reference whose holder waits for the mutex that the sweep still holds. */
  predicate Stuck(s: State, a: Id, x: Slot)
  {
    && s.owner == Draining(a) && s.mx.sweeping == Some(a)
    && x in s.mx.wants && x in s.refs && s.refs[x] == a && Top(s.refs, x) && x.t !in s.checked && x.t !in s.found
  }

  /** Why the sweep releases the mutex before it destroys: otherwise no finishing or destroyer step gets out of this. */
  lemma SweepMustRelease(s: State, a: Id, x: Slot, step: Step)
    requires Stuck(s, a, x) && CountInv(s.users, s.refs)
    requires Enabled(s, step) && (Finishing(step) || IsDestroyerStep(step))
    ensures Stuck(Apply(s, step), a, x) && !step.Free?
  {
    assert x in Holders(s.refs, a);
  }
}
