/**
 Order of the chunks of one TCP connection through the server: any number of epoll workers read
 the socket, each read and its hand-over to a shard queue happen under the socket's drain lock,
 and the shard that owns the socket processes its queue in batches.  Each step is one critical
 section or one atomic action of one thread.

 A drain lock is named by its socket and a serial number: dropping the lock and asking again
 makes a new one.  `handed` and `done` are histories: what the kernel gave out for each socket,
 and what the shard processed.
 */
module ConnOrder {
  type Sock = nat
  type Wid = nat
  type Shard = nat
  type Chunk = nat

  datatype Item = Item(sock: Sock, chunk: Chunk)

  datatype Lock = Lock(sock: Sock, serial: nat)

  /** What a lock holder has read and not yet queued. */
  datatype Hand = Empty | Chunk(chunk: Chunk)

  datatype Worker =
    | Idle
    | Has(lock: Lock)
    | Inside(lock: Lock)
    | Closing(sock: Sock)

  datatype State = State(
    shardOf: Sock -> Shard,
    locks: map<Sock, nat>,
    serial: nat,
    workers: map<Wid, Worker>,
    held: map<Lock, Hand>,
    queues: map<Shard, seq<Item>>,
    batches: map<Shard, seq<Item>>,
    handed: map<Sock, seq<Chunk>>,
    done: map<Sock, seq<Chunk>>,
    dropped: set<Sock>)

  function W(ws: map<Wid, Worker>, w: Wid): Worker { if w in ws then ws[w] else Idle }

  function Q(qs: map<Shard, seq<Item>>, sh: Shard): seq<Item> { if sh in qs then qs[sh] else [] }

  function Log(m: map<Sock, seq<Chunk>>, s: Sock): seq<Chunk> { if s in m then m[s] else [] }

  /** The chunks of one socket in a queue. */
  function Of(q: seq<Item>, s: Sock): seq<Chunk>
  {
    if q == [] then [] else (if q[0].sock == s then [q[0].chunk] else []) + Of(q[1..], s)
  }

  // ---- Steps ---------------------------------------------------------------------------

  datatype Step =
    | GetLock(w: Wid, s: Sock)
    | Acquire(w: Wid)
    | Recv(w: Wid, chunk: Chunk)
    | Enqueue(w: Wid)
    | WouldBlock(w: Wid)
    | RecvClosed(w: Wid)
    | DropLock(w: Wid)
    | Remove(s: Sock)
    | Reuse(s: Sock)
    | Swap(sh: Shard)
    | Process(sh: Shard)

  predicate Reading(s: State, w: Wid)
  {
    W(s.workers, w).Inside? && W(s.workers, w).lock in s.held
  }

  /** The lock is that of another socket, or the one `c` has now. */
  predicate NotStale(locks: map<Sock, nat>, c: Sock, lock: Lock)
  {
    lock.sock == c ==> c in locks && locks[c] == lock.serial
  }

  predicate Holds(w: Worker) { w.Has? || w.Inside? }

  /** No chunk of `c` is queued or in a hand. */
  predicate NoChunks(s: State, c: Sock)
  {
    && Of(Q(s.batches, s.shardOf(c)), c) == [] && Of(Q(s.queues, s.shardOf(c)), c) == []
    && forall lock :: lock in s.held && lock.sock == c ==> s.held[lock].Empty?
  }

  /** Nothing of the connection that had the handle `c` is left: no chunk on its way, and no worker with a stale drain lock. */
  ghost predicate Quiet(s: State, c: Sock)
  {
    && NoChunks(s, c)
    && (forall w :: Holds(W(s.workers, w)) ==> NotStale(s.locks, c, W(s.workers, w).lock))
    && (forall lock :: lock in s.held ==> NotStale(s.locks, c, lock))
  }

  ghost predicate Enabled(s: State, step: Step)
  {
    match step
    case GetLock(w, c) => W(s.workers, w).Idle?
    case Acquire(w) => W(s.workers, w).Has? && W(s.workers, w).lock !in s.held
    case Recv(w, chunk) => Reading(s, w) && s.held[W(s.workers, w).lock].Empty?
    case Enqueue(w) => Reading(s, w) && s.held[W(s.workers, w).lock].Chunk?
    case WouldBlock(w) => Reading(s, w) && s.held[W(s.workers, w).lock].Empty?
    case RecvClosed(w) => Reading(s, w) && s.held[W(s.workers, w).lock].Empty?
    case DropLock(w) => W(s.workers, w).Closing?
    case Remove(c) => true
    case Reuse(c) => c in s.dropped && Quiet(s, c)
    case Swap(sh) => Q(s.batches, sh) == []
    case Process(sh) => Q(s.batches, sh) != []
  }

  function DoGetLock(s: State, w: Wid, c: Sock): State
  {
    if c in s.locks then s.(workers := s.workers[w := Has(Lock(c, s.locks[c]))])
    else s.(locks := s.locks[c := s.serial], serial := s.serial + 1, workers := s.workers[w := Has(Lock(c, s.serial))])
  }

  function DoRecv(s: State, w: Wid, chunk: Chunk): State
    requires W(s.workers, w).Inside?
  {
    var lock := W(s.workers, w).lock;
    s.(held := s.held[lock := Chunk(chunk)], handed := s.handed[lock.sock := Log(s.handed, lock.sock) + [chunk]])
  }

  /** `ioOnTcpConnData`, then the drain lock is released. */
  function DoEnqueue(s: State, w: Wid): State
    requires W(s.workers, w).Inside? && W(s.workers, w).lock in s.held && s.held[W(s.workers, w).lock].Chunk?
  {
    var lock := W(s.workers, w).lock;
    var sh := s.shardOf(lock.sock);
    s.(queues := s.queues[sh := Q(s.queues, sh) + [Item(lock.sock, s.held[lock].chunk)]],
       held := s.held - {lock},
       workers := s.workers[w := Has(lock)])
  }

  function Leave(s: State, w: Wid, next: Worker): State
    requires W(s.workers, w).Inside?
  {
    s.(held := s.held - {W(s.workers, w).lock}, workers := s.workers[w := next])
  }

  function Drop(s: State, c: Sock): State { s.(locks := s.locks - {c}, dropped := s.dropped + {c}) }

  /** A new connection under the handle of a closed one. */
  function Reopen(s: State, c: Sock): State
  {
    s.(dropped := s.dropped - {c}, handed := s.handed[c := []], done := s.done[c := []])
  }

  function DoProcess(s: State, sh: Shard): State
    requires Q(s.batches, sh) != []
  {
    var x := Q(s.batches, sh)[0];
    s.(batches := s.batches[sh := Q(s.batches, sh)[1..]], done := s.done[x.sock := Log(s.done, x.sock) + [x.chunk]])
  }

  ghost function Apply(s: State, step: Step): State
    requires Enabled(s, step)
  {
    match step
    case GetLock(w, c) => DoGetLock(s, w, c)
    case Acquire(w) => s.(held := s.held[W(s.workers, w).lock := Empty], workers := s.workers[w := Inside(W(s.workers, w).lock)])
    case Recv(w, chunk) => DoRecv(s, w, chunk)
    case Enqueue(w) => DoEnqueue(s, w)
    case WouldBlock(w) => Leave(s, w, Idle)
    case RecvClosed(w) => Leave(s, w, Closing(W(s.workers, w).lock.sock))
    case DropLock(w) => Drop(s.(workers := s.workers[w := Idle]), W(s.workers, w).sock)
    case Remove(c) => Drop(s, c)
    case Reuse(c) => Reopen(s, c)
    case Swap(sh) => s.(batches := s.batches[sh := Q(s.queues, sh)], queues := s.queues[sh := []])
    case Process(sh) => DoProcess(s, sh)
  }

  predicate Init(s: State)
  {
    && s.locks == map[] && s.workers == map[] && s.held == map[] && s.queues == map[] && s.batches == map[]
    && s.handed == map[] && s.done == map[] && s.dropped == {}
  }

  ghost predicate Reaches(s0: State, steps: seq<Step>, s: State)
    decreases |steps|
  {
    if steps == [] then s == s0
    else
      var last := |steps| - 1;
      exists m :: Reaches(s0, steps[..last], m) && Enabled(m, steps[last]) && s == Apply(m, steps[last])
  }

  // ---- Invariant -----------------------------------------------------------------------

  /** `lock` is the one its socket has, or the socket was closed or removed. */
  predicate Current(locks: map<Sock, nat>, dropped: set<Sock>, lock: Lock)
  {
    lock.sock in dropped || (lock.sock in locks && locks[lock.sock] == lock.serial)
  }

  predicate WorkerOk(locks: map<Sock, nat>, dropped: set<Sock>, w: Worker)
  {
    w.Has? || w.Inside? ==> Current(locks, dropped, w.lock)
  }

  ghost predicate WorkersInv(locks: map<Sock, nat>, dropped: set<Sock>, ws: map<Wid, Worker>)
  {
    forall w :: WorkerOk(locks, dropped, W(ws, w))
  }

  predicate HeldInv(locks: map<Sock, nat>, dropped: set<Sock>, held: map<Lock, Hand>)
  {
    forall lock :: lock in held ==> Current(locks, dropped, lock)
  }

  predicate Routed(shardOf: Sock -> Shard, q: seq<Item>, sh: Shard)
  {
    forall i :: 0 <= i < |q| ==> shardOf(q[i].sock) == sh
  }

  ghost predicate RoutedInv(shardOf: Sock -> Shard, qs: map<Shard, seq<Item>>)
  {
    forall sh: Shard :: Routed(shardOf, Q(qs, sh), sh)
  }

  /** What a worker read from `c` and has not queued yet. */
  function InHand(locks: map<Sock, nat>, held: map<Lock, Hand>, c: Sock): seq<Chunk>
  {
    if c in locks && Lock(c, locks[c]) in held && held[Lock(c, locks[c])].Chunk?
    then [held[Lock(c, locks[c])].chunk] else []
  }

  /** The chunks of `c` that its shard has finished, has in its batch and has in its queue. */
  function Through(done: map<Sock, seq<Chunk>>, batch: seq<Item>, queue: seq<Item>, c: Sock): seq<Chunk>
  {
    Log(done, c) + Of(batch, c) + Of(queue, c)
  }

  ghost predicate OrderInv(shardOf: Sock -> Shard, done: map<Sock, seq<Chunk>>, batches: map<Shard, seq<Item>>,
                           queues: map<Shard, seq<Item>>, locks: map<Sock, nat>, held: map<Lock, Hand>,
                           handed: map<Sock, seq<Chunk>>, dropped: set<Sock>)
  {
    forall c: Sock :: c !in dropped ==>
      Log(handed, c) == Through(done, Q(batches, shardOf(c)), Q(queues, shardOf(c)), c) + InHand(locks, held, c)
  }

  ghost predicate LocksInv(s: State)
  {
    WorkersInv(s.locks, s.dropped, s.workers) && HeldInv(s.locks, s.dropped, s.held)
  }

  ghost predicate RoutesInv(s: State)
  {
    RoutedInv(s.shardOf, s.queues) && RoutedInv(s.shardOf, s.batches)
  }

  ghost predicate Ordered(s: State)
  {
    OrderInv(s.shardOf, s.done, s.batches, s.queues, s.locks, s.held, s.handed, s.dropped)
  }

  ghost predicate Inv(s: State)
  {
    LocksInv(s) && RoutesInv(s) && Ordered(s)
  }

  lemma {:induction false} OfAppend(q: seq<Item>, x: Item, s: Sock)
    ensures Of(q + [x], s) == Of(q, s) + if x.sock == s then [x.chunk] else []
  {
    if q == [] {
      assert q + [x] == [x];
    } else {
      OfAppend(q[1..], x, s);
      assert (q + [x])[1..] == q[1..] + [x];
    }
  }

  lemma InitInv(s: State)
    requires Init(s)
    ensures Inv(s)
  {
  }

  // ---- Locks ---------------------------------------------------------------------------

  lemma WorkerMoves(s: State, w: Wid, next: Worker, held: map<Lock, Hand>)
    requires LocksInv(s) && WorkerOk(s.locks, s.dropped, next) && HeldInv(s.locks, s.dropped, held)
    ensures LocksInv(s.(workers := s.workers[w := next], held := held))
  {
    var ws := s.workers[w := next];
    forall x ensures WorkerOk(s.locks, s.dropped, W(ws, x)) {
      assert WorkerOk(s.locks, s.dropped, W(s.workers, x));
    }
  }

  lemma NewLock(s: State, c: Sock)
    requires LocksInv(s) && c !in s.locks
    ensures LocksInv(s.(locks := s.locks[c := s.serial], serial := s.serial + 1))
  {
    var locks := s.locks[c := s.serial];
    forall x ensures WorkerOk(locks, s.dropped, W(s.workers, x)) {
      assert WorkerOk(s.locks, s.dropped, W(s.workers, x));
    }
    forall lock | lock in s.held ensures Current(locks, s.dropped, lock) {
      assert Current(s.locks, s.dropped, lock);
    }
  }

  lemma GetLockLocks(s: State, w: Wid, c: Sock)
    requires LocksInv(s)
    ensures LocksInv(DoGetLock(s, w, c))
  {
    if c in s.locks {
      WorkerMoves(s, w, Has(Lock(c, s.locks[c])), s.held);
    } else {
      NewLock(s, c);
      var s1 := s.(locks := s.locks[c := s.serial], serial := s.serial + 1);
      WorkerMoves(s1, w, Has(Lock(c, s.serial)), s1.held);
    }
  }

  lemma DropLocks(s: State, c: Sock)
    requires LocksInv(s)
    ensures LocksInv(Drop(s, c))
  {
    var s' := Drop(s, c);
    forall x ensures WorkerOk(s'.locks, s'.dropped, W(s'.workers, x)) {
      assert WorkerOk(s.locks, s.dropped, W(s.workers, x));
    }
  }

  lemma ReopenLocks(s: State, c: Sock)
    requires LocksInv(s) && Quiet(s, c)
    ensures LocksInv(Reopen(s, c))
  {
    var s' := Reopen(s, c);
    forall x ensures WorkerOk(s'.locks, s'.dropped, W(s'.workers, x)) {
      assert WorkerOk(s.locks, s.dropped, W(s.workers, x));
      assert Holds(W(s.workers, x)) ==> NotStale(s.locks, c, W(s.workers, x).lock);
    }
  }

  lemma StepKeepsLocks(s: State, step: Step)
    requires LocksInv(s) && Enabled(s, step)
    ensures LocksInv(Apply(s, step))
  {
    match step
    case GetLock(w, c) => GetLockLocks(s, w, c);
    case Acquire(w) =>
      assert WorkerOk(s.locks, s.dropped, W(s.workers, w));
      WorkerMoves(s, w, Inside(W(s.workers, w).lock), s.held[W(s.workers, w).lock := Empty]);
    case Recv(w, chunk) =>
    case Enqueue(w) =>
      assert WorkerOk(s.locks, s.dropped, W(s.workers, w));
      WorkerMoves(s, w, Has(W(s.workers, w).lock), s.held - {W(s.workers, w).lock});
    case WouldBlock(w) => WorkerMoves(s, w, Idle, s.held - {W(s.workers, w).lock});
    case RecvClosed(w) => WorkerMoves(s, w, Closing(W(s.workers, w).lock.sock), s.held - {W(s.workers, w).lock});
    case DropLock(w) =>
      WorkerMoves(s, w, Idle, s.held);
      DropLocks(s.(workers := s.workers[w := Idle]), W(s.workers, w).sock);
    case Remove(c) => DropLocks(s, c);
    case Reuse(c) => ReopenLocks(s, c);
    case Swap(sh) =>
    case Process(sh) =>
  }

  // ---- Routing -------------------------------------------------------------------------

  lemma RoutedUpdate(shardOf: Sock -> Shard, qs: map<Shard, seq<Item>>, sh: Shard, q: seq<Item>)
    requires RoutedInv(shardOf, qs) && Routed(shardOf, q, sh)
    ensures RoutedInv(shardOf, qs[sh := q])
  {
    var qs' := qs[sh := q];
    forall x: Shard ensures Routed(shardOf, Q(qs', x), x) {
      assert Routed(shardOf, Q(qs, x), x);
    }
  }

  lemma StepKeepsRoutes(s: State, step: Step)
    requires RoutesInv(s) && Enabled(s, step)
    ensures RoutesInv(Apply(s, step)) && Apply(s, step).shardOf == s.shardOf
  {
    match step
    case GetLock(w, c) =>
    case Acquire(w) =>
    case Recv(w, chunk) =>
    case Enqueue(w) =>
      var lock := W(s.workers, w).lock;
      var sh := s.shardOf(lock.sock);
      assert Routed(s.shardOf, Q(s.queues, sh), sh);
      RoutedUpdate(s.shardOf, s.queues, sh, Q(s.queues, sh) + [Item(lock.sock, s.held[lock].chunk)]);
    case WouldBlock(w) =>
    case RecvClosed(w) =>
    case DropLock(w) =>
    case Remove(c) =>
    case Reuse(c) =>
    case Swap(sh) =>
      assert Routed(s.shardOf, Q(s.queues, sh), sh);
      RoutedUpdate(s.shardOf, s.batches, sh, Q(s.queues, sh));
      RoutedUpdate(s.shardOf, s.queues, sh, []);
    case Process(sh) =>
      assert Routed(s.shardOf, Q(s.batches, sh), sh);
      RoutedUpdate(s.shardOf, s.batches, sh, Q(s.batches, sh)[1..]);
  }

  // ---- Order ---------------------------------------------------------------------------

  /** What the pipeline of `c` holds, processed part first. */
  function Pipe(s: State, c: Sock): seq<Chunk>
  {
    Through(s.done, Q(s.batches, s.shardOf(c)), Q(s.queues, s.shardOf(c)), c) + InHand(s.locks, s.held, c)
  }

  /** A step that moves nothing of `c` keeps its order. */
  lemma SamePipe(s: State, s': State)
    requires Ordered(s) && s.dropped <= s'.dropped && s'.handed == s.handed
    requires forall c :: c !in s'.dropped ==> Pipe(s', c) == Pipe(s, c)
    ensures Ordered(s')
  {
    forall c: Sock | c !in s'.dropped ensures Log(s'.handed, c) == Pipe(s', c) {
      assert Log(s.handed, c) == Pipe(s, c);
    }
  }

  /** Taking a new lock shows no chunk: nobody else can be holding one for that socket. */
  lemma GetLockPipe(s: State, w: Wid, c: Sock, x: Sock)
    requires LocksInv(s) && x !in s.dropped
    ensures Pipe(DoGetLock(s, w, c), x) == Pipe(s, x)
  {
    if c !in s.locks && x == c {
      var lock := Lock(c, s.serial);
      assert lock in s.held ==> Current(s.locks, s.dropped, lock);
    }
  }

  lemma HandChange(s: State, lock: Lock, held: map<Lock, Hand>, x: Sock)
    requires held == s.held - {lock} || held == s.held[lock := Empty]
    requires lock in s.held ==> s.held[lock].Empty?
    ensures InHand(s.locks, held, x) == InHand(s.locks, s.held, x)
  {
  }

  lemma DropPipe(s: State, c: Sock, x: Sock)
    requires x !in s.dropped + {c}
    ensures Pipe(Drop(s, c), x) == Pipe(s, x)
  {
  }

  lemma RecvPipe(s: State, w: Wid, chunk: Chunk, x: Sock)
    requires LocksInv(s) && x !in s.dropped && Reading(s, w) && s.held[W(s.workers, w).lock].Empty?
    ensures Pipe(DoRecv(s, w, chunk), x) == Pipe(s, x) + if x == W(s.workers, w).lock.sock then [chunk] else []
  {
    var lock := W(s.workers, w).lock;
    assert WorkerOk(s.locks, s.dropped, W(s.workers, w));
    if x == lock.sock {
      assert Lock(x, s.locks[x]) == lock;
      assert InHand(s.locks, s.held, x) == [];
      assert InHand(s.locks, s.held[lock := Chunk(chunk)], x) == [chunk];
    }
  }

  lemma ThroughAppend(done: map<Sock, seq<Chunk>>, batch: seq<Item>, queue: seq<Item>, item: Item, x: Sock)
    ensures Through(done, batch, queue + [item], x) == Through(done, batch, queue, x) + if item.sock == x then [item.chunk] else []
  {
    OfAppend(queue, item, x);
    var front, last := Log(done, x) + Of(batch, x), if item.sock == x then [item.chunk] else [];
    assert front + (Of(queue, x) + last) == front + Of(queue, x) + last;
  }

  lemma ThroughProcess(done: map<Sock, seq<Chunk>>, batch: seq<Item>, queue: seq<Item>, x: Sock)
    requires batch != []
    ensures var item := batch[0];
            Through(done[item.sock := Log(done, item.sock) + [item.chunk]], batch[1..], queue, x) == Through(done, batch, queue, x)
  {
    var first := if batch[0].sock == x then [batch[0].chunk] else [];
    MoveOne(Log(done, x), first, Of(batch[1..], x));
    assert Log(done[batch[0].sock := Log(done, batch[0].sock) + [batch[0].chunk]], x) == Log(done, x) + first;
  }

  lemma EnqueueHand(s: State, w: Wid, x: Sock)
    requires LocksInv(s) && x !in s.dropped && Enabled(s, Enqueue(w))
    ensures var lock := W(s.workers, w).lock;
            InHand(s.locks, s.held, x)
            == (if lock.sock == x then [s.held[lock].chunk] else []) + InHand(s.locks, s.held - {lock}, x)
  {
    assert WorkerOk(s.locks, s.dropped, W(s.workers, w));
  }

  lemma EnqueuePipe(s: State, w: Wid, x: Sock)
    requires LocksInv(s) && x !in s.dropped && Enabled(s, Enqueue(w))
    ensures Pipe(DoEnqueue(s, w), x) == Pipe(s, x)
  {
    var lock := W(s.workers, w).lock;
    var item := Item(lock.sock, s.held[lock].chunk);
    EnqueueHand(s, w, x);
    if s.shardOf(x) == s.shardOf(lock.sock) {
      var batch, queue := Q(s.batches, s.shardOf(x)), Q(s.queues, s.shardOf(x));
      ThroughAppend(s.done, batch, queue, item, x);
      var one, rest := if item.sock == x then [item.chunk] else [], InHand(s.locks, s.held - {lock}, x);
      MoveOne(Through(s.done, batch, queue, x), one, rest);
    }
  }

  lemma MoveOne(a: seq<Chunk>, b: seq<Chunk>, c: seq<Chunk>)
    ensures a + b + c == a + (b + c)
  {
  }

  lemma SwapPipe(s: State, sh: Shard, x: Sock)
    requires Q(s.batches, sh) == []
    ensures Pipe(Apply(s, Swap(sh)), x) == Pipe(s, x)
  {
    if s.shardOf(x) == sh {
      var done, queue := Log(s.done, x), Of(Q(s.queues, sh), x);
      assert done + queue + [] == done + [] + queue;
    }
  }

  lemma ProcessPipe(s: State, sh: Shard, x: Sock)
    requires RoutesInv(s) && Q(s.batches, sh) != []
    ensures Pipe(DoProcess(s, sh), x) == Pipe(s, x)
  {
    var batch := Q(s.batches, sh);
    assert Routed(s.shardOf, batch, sh);
    var s' := DoProcess(s, sh);
    if s.shardOf(x) == sh {
      ThroughProcess(s.done, batch, Q(s.queues, sh), x);
      assert Q(s'.batches, sh) == batch[1..];
    } else {
      assert batch[0].sock != x;
      assert Q(s'.batches, s.shardOf(x)) == Q(s.batches, s.shardOf(x)) && Log(s'.done, x) == Log(s.done, x);
    }
  }

  lemma RecvOrder(s: State, w: Wid, chunk: Chunk)
    requires LocksInv(s) && Ordered(s) && Enabled(s, Recv(w, chunk))
    ensures Ordered(DoRecv(s, w, chunk))
  {
    var s' := DoRecv(s, w, chunk);
    forall c: Sock | c !in s'.dropped ensures Log(s'.handed, c) == Pipe(s', c) {
      RecvPipe(s, w, chunk, c);
      assert Log(s.handed, c) == Pipe(s, c);
    }
  }

  lemma ReopenedPipe(s: State, c: Sock)
    requires Quiet(s, c)
    ensures Pipe(Reopen(s, c), c) == []
  {
    assert Log(s.done[c := []], c) == [];
  }

  lemma ReopenOrder(s: State, c: Sock)
    requires Ordered(s) && Quiet(s, c)
    ensures Ordered(Reopen(s, c))
  {
    var s' := Reopen(s, c);
    forall x: Sock | x !in s'.dropped ensures Log(s'.handed, x) == Pipe(s', x) {
      if x == c {
        ReopenedPipe(s, c);
      } else {
        assert Log(s.handed, x) == Pipe(s, x);
      }
    }
  }

  lemma StepKeepsOrder(s: State, step: Step)
    requires Inv(s) && Enabled(s, step)
    ensures Ordered(Apply(s, step))
  {
    var s' := Apply(s, step);
    if step.Recv? {
      RecvOrder(s, step.w, step.chunk);
    } else if step.Reuse? {
      ReopenOrder(s, step.s);
    } else {
      forall c: Sock | c !in s'.dropped ensures Pipe(s', c) == Pipe(s, c) {
        PipeKept(s, step, c);
      }
      SamePipe(s, s');
    }
  }

  lemma PipeKept(s: State, step: Step, c: Sock)
    requires LocksInv(s) && RoutesInv(s) && Enabled(s, step) && !step.Recv? && !step.Reuse? && c !in Apply(s, step).dropped
    ensures Pipe(Apply(s, step), c) == Pipe(s, c) && c !in s.dropped
  {
    match step
    case GetLock(w, x) => GetLockPipe(s, w, x, c);
    case Acquire(w) => HandChange(s, W(s.workers, w).lock, s.held[W(s.workers, w).lock := Empty], c);
    case Enqueue(w) => EnqueuePipe(s, w, c);
    case WouldBlock(w) => HandChange(s, W(s.workers, w).lock, s.held - {W(s.workers, w).lock}, c);
    case RecvClosed(w) => HandChange(s, W(s.workers, w).lock, s.held - {W(s.workers, w).lock}, c);
    case DropLock(w) => DropPipe(s.(workers := s.workers[w := Idle]), W(s.workers, w).sock, c);
    case Remove(x) => DropPipe(s, x, c);
    case Swap(sh) => SwapPipe(s, sh, c);
    case Process(sh) => ProcessPipe(s, sh, c);
  }

  lemma {:induction false} RunKeeps(s0: State, steps: seq<Step>, s: State)
    requires Inv(s0) && Reaches(s0, steps, s)
    ensures Inv(s)
    decreases |steps|
  {
    if steps != [] {
      var last := |steps| - 1;
      var m :| Reaches(s0, steps[..last], m) && Enabled(m, steps[last]) && s == Apply(m, steps[last]);
      RunKeeps(s0, steps[..last], m);
      StepKeepsLocks(m, steps[last]);
      StepKeepsRoutes(m, steps[last]);
      StepKeepsOrder(m, steps[last]);
    }
  }

  /**
   In every run, until a socket is closed or removed, what its shard has processed, then its
   batch, its queue and the chunk in some worker's hand are together exactly what the kernel
   handed out, in the order it was handed out; and so for the next connection under its handle, if
   nothing of the old one is left when it opens.
   */
  lemma InOrder(s0: State, steps: seq<Step>, s: State, c: Sock)
    requires Init(s0) && Reaches(s0, steps, s) && c !in s.dropped
    ensures Log(s.handed, c) == Log(s.done, c) + Of(Q(s.batches, s.shardOf(c)), c) + Of(Q(s.queues, s.shardOf(c)), c)
                                + InHand(s.locks, s.held, c)
    ensures Log(s.done, c) <= Log(s.handed, c)
  {
    InitInv(s0);
    RunKeeps(s0, steps, s);
    assert Log(s.handed, c) == Pipe(s, c);
  }

  // ---- When a handle may be reused -----------------------------------------------------

  /** A held lock has one holder. */
  ghost predicate HoldersInv(ws: map<Wid, Worker>, held: map<Lock, Hand>)
  {
    && (forall lock :: lock in held ==> HasHolder(ws, lock))
    && (forall w: Wid :: InsideHolds(held, W(ws, w)))
    && (forall v: Wid, w: Wid :: OneInside(W(ws, v), W(ws, w), v, w))
  }

  ghost predicate HasHolder(ws: map<Wid, Worker>, lock: Lock) { exists w: Wid :: W(ws, w) == Inside(lock) }

  predicate InsideHolds(held: map<Lock, Hand>, w: Worker) { w.Inside? ==> w.lock in held }

  predicate OneInside(x: Worker, y: Worker, v: Wid, w: Wid) { x.Inside? && x == y ==> v == w }

  /** A serial number is given out once. */
  ghost predicate SerialInv(ws: map<Wid, Worker>, locks: map<Sock, nat>, serial: nat)
  {
    && (forall w: Wid :: SerialBelow(W(ws, w), serial))
    && (forall c :: c in locks ==> locks[c] < serial)
  }

  predicate SerialBelow(w: Worker, serial: nat) { Holds(w) ==> w.lock.serial < serial }

  lemma Moved(ws: map<Wid, Worker>, w: Wid, next: Worker, v: Wid)
    ensures W(ws[w := next], v) == if v == w then next else W(ws, v)
  {
  }

  lemma HolderStays(ws: map<Wid, Worker>, w: Wid, next: Worker, lock: Lock)
    requires HasHolder(ws, lock) && W(ws, w) != Inside(lock)
    ensures HasHolder(ws[w := next], lock)
  {
    var v: Wid :| W(ws, v) == Inside(lock);
    Moved(ws, w, next, v);
  }

  lemma Enters(ws: map<Wid, Worker>, held: map<Lock, Hand>, w: Wid, lock: Lock, hand: Hand)
    requires HoldersInv(ws, held) && !W(ws, w).Inside? && lock !in held
    ensures HoldersInv(ws[w := Inside(lock)], held[lock := hand])
  {
    var ws', held' := ws[w := Inside(lock)], held[lock := hand];
    Moved(ws, w, Inside(lock), w);
    forall l | l in held' ensures HasHolder(ws', l) {
      if l != lock { HolderStays(ws, w, Inside(lock), l); }
    }
    forall v: Wid ensures InsideHolds(held', W(ws', v)) {
      Moved(ws, w, Inside(lock), v);
      assert InsideHolds(held, W(ws, v));
    }
    forall u: Wid, v: Wid ensures OneInside(W(ws', u), W(ws', v), u, v) {
      Moved(ws, w, Inside(lock), u);
      Moved(ws, w, Inside(lock), v);
      assert OneInside(W(ws, u), W(ws, v), u, v) && InsideHolds(held, W(ws, u)) && InsideHolds(held, W(ws, v));
    }
  }

  lemma Exits(ws: map<Wid, Worker>, held: map<Lock, Hand>, w: Wid, next: Worker)
    requires HoldersInv(ws, held) && W(ws, w).Inside? && !next.Inside?
    ensures HoldersInv(ws[w := next], held - {W(ws, w).lock})
  {
    var ws', held' := ws[w := next], held - {W(ws, w).lock};
    forall l | l in held' ensures HasHolder(ws', l) {
      HolderStays(ws, w, next, l);
    }
    forall v: Wid ensures InsideHolds(held', W(ws', v)) {
      Moved(ws, w, next, v);
      assert InsideHolds(held, W(ws, v)) && OneInside(W(ws, v), W(ws, w), v, w);
    }
    forall u: Wid, v: Wid ensures OneInside(W(ws', u), W(ws', v), u, v) {
      Moved(ws, w, next, u);
      Moved(ws, w, next, v);
      assert OneInside(W(ws, u), W(ws, v), u, v);
    }
  }

  lemma Stays(ws: map<Wid, Worker>, held: map<Lock, Hand>, w: Wid, next: Worker)
    requires HoldersInv(ws, held) && !W(ws, w).Inside? && !next.Inside?
    ensures HoldersInv(ws[w := next], held)
  {
    var ws' := ws[w := next];
    forall l | l in held ensures HasHolder(ws', l) {
      HolderStays(ws, w, next, l);
    }
    forall v: Wid ensures InsideHolds(held, W(ws', v)) {
      Moved(ws, w, next, v);
      assert InsideHolds(held, W(ws, v));
    }
    forall u: Wid, v: Wid ensures OneInside(W(ws', u), W(ws', v), u, v) {
      Moved(ws, w, next, u);
      Moved(ws, w, next, v);
      assert OneInside(W(ws, u), W(ws, v), u, v);
    }
  }

  lemma Rehands(ws: map<Wid, Worker>, held: map<Lock, Hand>, lock: Lock, hand: Hand)
    requires HoldersInv(ws, held) && lock in held
    ensures HoldersInv(ws, held[lock := hand])
  {
  }

  lemma StepKeepsHolders(s: State, step: Step)
    requires HoldersInv(s.workers, s.held) && Enabled(s, step)
    ensures HoldersInv(Apply(s, step).workers, Apply(s, step).held)
  {
    match step
    case GetLock(w, c) => Stays(s.workers, s.held, w, W(DoGetLock(s, w, c).workers, w));
    case Acquire(w) => Enters(s.workers, s.held, w, W(s.workers, w).lock, Empty);
    case Recv(w, chunk) => Rehands(s.workers, s.held, W(s.workers, w).lock, Chunk(chunk));
    case Enqueue(w) => Exits(s.workers, s.held, w, Has(W(s.workers, w).lock));
    case WouldBlock(w) => Exits(s.workers, s.held, w, Idle);
    case RecvClosed(w) => Exits(s.workers, s.held, w, Closing(W(s.workers, w).lock.sock));
    case DropLock(w) => Stays(s.workers, s.held, w, Idle);
    case Remove(c) =>
    case Reuse(c) =>
    case Swap(sh) =>
    case Process(sh) =>
  }

  lemma SerialMoves(ws: map<Wid, Worker>, locks: map<Sock, nat>, serial: nat, w: Wid, next: Worker)
    requires SerialInv(ws, locks, serial) && (Holds(next) ==> next.lock.serial < serial)
    ensures SerialInv(ws[w := next], locks, serial)
  {
    var ws' := ws[w := next];
    forall v: Wid ensures SerialBelow(W(ws', v), serial) {
      Moved(ws, w, next, v);
      assert SerialBelow(W(ws, v), serial);
    }
  }

  lemma StepKeepsSerial(s: State, step: Step)
    requires SerialInv(s.workers, s.locks, s.serial) && Enabled(s, step)
    ensures SerialInv(Apply(s, step).workers, Apply(s, step).locks, Apply(s, step).serial)
  {
    match step
    case GetLock(w, c) =>
      if c in s.locks {
        SerialMoves(s.workers, s.locks, s.serial, w, Has(Lock(c, s.locks[c])));
      } else {
        SerialMoves(s.workers, s.locks[c := s.serial], s.serial + 1, w, Has(Lock(c, s.serial)));
      }
    case Acquire(w) => SerialMoves(s.workers, s.locks, s.serial, w, Inside(W(s.workers, w).lock));
    case Recv(w, chunk) =>
    case Enqueue(w) => SerialMoves(s.workers, s.locks, s.serial, w, Has(W(s.workers, w).lock));
    case WouldBlock(w) => SerialMoves(s.workers, s.locks, s.serial, w, Idle);
    case RecvClosed(w) => SerialMoves(s.workers, s.locks, s.serial, w, Closing(W(s.workers, w).lock.sock));
    case DropLock(w) => SerialMoves(s.workers, s.locks, s.serial, w, Idle);
    case Remove(c) =>
    case Reuse(c) =>
    case Swap(sh) =>
    case Process(sh) =>
  }

  lemma {:induction false} RunKeepsHolders(s0: State, steps: seq<Step>, s: State)
    requires HoldersInv(s0.workers, s0.held) && SerialInv(s0.workers, s0.locks, s0.serial) && Reaches(s0, steps, s)
    ensures HoldersInv(s.workers, s.held) && SerialInv(s.workers, s.locks, s.serial)
    decreases |steps|
  {
    if steps != [] {
      var last := |steps| - 1;
      var m :| Reaches(s0, steps[..last], m) && Enabled(m, steps[last]) && s == Apply(m, steps[last]);
      RunKeepsHolders(s0, steps[..last], m);
      StepKeepsHolders(m, steps[last]);
      StepKeepsSerial(m, steps[last]);
    }
  }

  lemma Extend(s0: State, steps: seq<Step>, s: State, step: Step)
    requires Reaches(s0, steps, s) && Enabled(s, step)
    ensures Reaches(s0, steps + [step], Apply(s, step))
  {
    assert (steps + [step])[..|steps|] == steps;
  }

  /** What the shard got of the chunks of `c`. */
  function Got(s: State, c: Sock): seq<Chunk> { Through(s.done, Q(s.batches, s.shardOf(c)), Q(s.queues, s.shardOf(c)), c) }

  /** In some continuation the shard gets something that the kernel did not hand out for `c`, or in another order. */
  ghost predicate OrderBreaks(s: State, c: Sock)
  {
    exists steps, s' :: Reaches(s, steps, s') && c !in s'.dropped && !(Got(s', c) <= Log(s'.handed, c))
  }

  /** A handle that is reused when nothing is left of the old connection is in order. */
  lemma QuietIsSafe(s: State, c: Sock)
    requires Inv(s) && Quiet(s, c)
    ensures !OrderBreaks(Reopen(s, c), c)
  {
    var r := Reopen(s, c);
    ReopenLocks(s, c);
    ReopenOrder(s, c);
    forall steps, s' | Reaches(r, steps, s') && c !in s'.dropped ensures Got(s', c) <= Log(s'.handed, c) {
      RunKeeps(r, steps, s');
      assert Log(s'.handed, c) == Pipe(s', c);
    }
  }

  lemma BreaksNow(r: State, steps: seq<Step>, s': State, c: Sock)
    requires Reaches(r, steps, s') && c !in s'.dropped && !(Got(s', c) <= Log(s'.handed, c))
    ensures OrderBreaks(r, c)
  {
  }

  /** A worker is inside with this lock and has read nothing. */
  predicate Ready(s: State, w: Wid, lock: Lock)
  {
    W(s.workers, w) == Inside(lock) && lock in s.held && s.held[lock].Empty?
  }

  /** Nothing of `c` has been read under the handle's new owner. */
  predicate Untouched(s: State, c: Sock)
  {
    && c !in s.dropped && Log(s.handed, c) == [] && Log(s.done, c) == []
    && Of(Q(s.batches, s.shardOf(c)), c) == [] && Of(Q(s.queues, s.shardOf(c)), c) == []
  }

  lemma QueueTwo(q: seq<Item>, c: Sock, a: Chunk, b: Chunk)
    requires Of(q, c) == []
    ensures Of(q + [Item(c, b)] + [Item(c, a)], c) == [b, a]
  {
    OfAppend(q, Item(c, b), c);
    OfAppend(q + [Item(c, b)], Item(c, a), c);
  }

  /** Both queue what they read, the second reader first. */
  lemma BothQueue(r: State, c: Sock, v: Wid, w: Wid)
    requires v != w && Reading(r, v) && Reading(r, w) && W(r.workers, v).lock != W(r.workers, w).lock
    requires W(r.workers, v).lock.sock == c && W(r.workers, w).lock.sock == c
    requires r.held[W(r.workers, v).lock].Chunk? && r.held[W(r.workers, w).lock].Chunk?
    ensures Reading(DoEnqueue(r, v), w) && DoEnqueue(r, v).held[W(r.workers, w).lock] == r.held[W(r.workers, w).lock]
    ensures W(DoEnqueue(r, v).workers, w) == W(r.workers, w)
    ensures var s' := DoEnqueue(DoEnqueue(r, v), w);
            && Q(s'.queues, r.shardOf(c)) == Q(r.queues, r.shardOf(c)) + [Item(c, r.held[W(r.workers, v).lock].chunk)]
                                             + [Item(c, r.held[W(r.workers, w).lock].chunk)]
            && s'.handed == r.handed && s'.done == r.done && s'.batches == r.batches && s'.dropped == r.dropped && s'.shardOf == r.shardOf
  {
  }

  /** Both read, one chunk each. */
  lemma BothRead(s: State, c: Sock, v: Wid, w: Wid, x: Lock, y: Lock, a: Chunk, b: Chunk)
    requires Ready(s, v, x) && Ready(s, w, y) && x != y && v != w && x.sock == c && y.sock == c && Log(s.handed, c) == []
    ensures Ready(DoRecv(s, w, a), v, x)
    ensures var r := DoRecv(DoRecv(s, w, a), v, b);
            && W(r.workers, v) == Inside(x) && W(r.workers, w) == Inside(y)
            && x in r.held && r.held[x] == Chunk(b) && y in r.held && r.held[y] == Chunk(a)
            && Log(r.handed, c) == [a, b] && r.queues == s.queues && r.done == s.done && r.batches == s.batches
            && r.shardOf == s.shardOf && r.dropped == s.dropped
  {
  }

  lemma ReadRun(r0: State, st: seq<Step>, s: State, v: Wid, w: Wid, x: Lock, y: Lock, a: Chunk, b: Chunk) returns (steps: seq<Step>)
    requires Reaches(r0, st, s) && Ready(s, w, y) && Ready(DoRecv(s, w, a), v, x)
    ensures Reaches(r0, steps, DoRecv(DoRecv(s, w, a), v, b))
  {
    Extend(r0, st, s, Recv(w, a));
    Extend(r0, st + [Recv(w, a)], DoRecv(s, w, a), Recv(v, b));
    steps := st + [Recv(w, a)] + [Recv(v, b)];
  }

  lemma QueueRun(r0: State, st: seq<Step>, r: State, v: Wid, w: Wid) returns (steps: seq<Step>)
    requires Reaches(r0, st, r) && Reading(r, v) && r.held[W(r.workers, v).lock].Chunk?
    requires Reading(DoEnqueue(r, v), w) && DoEnqueue(r, v).held[W(DoEnqueue(r, v).workers, w).lock].Chunk?
    ensures Reaches(r0, steps, DoEnqueue(DoEnqueue(r, v), w))
  {
    Extend(r0, st, r, Enqueue(v));
    Extend(r0, st + [Enqueue(v)], DoEnqueue(r, v), Enqueue(w));
    steps := st + [Enqueue(v)] + [Enqueue(w)];
  }

  /** Two workers inside with different locks of one socket: what was read first can be queued last. */
  lemma TwoReadersReorder(r0: State, st: seq<Step>, s: State, c: Sock, v: Wid, w: Wid, x: Lock, y: Lock)
    requires Reaches(r0, st, s) && Untouched(s, c)
    requires Ready(s, v, x) && Ready(s, w, y) && x != y && v != w && x.sock == c && y.sock == c
    ensures OrderBreaks(r0, c)
  {
    BothRead(s, c, v, w, x, y, 0, 1);
    var st1 := ReadRun(r0, st, s, v, w, x, y, 0, 1);
    var r := DoRecv(DoRecv(s, w, 0), v, 1);
    BothQueue(r, c, v, w);
    var st2 := QueueRun(r0, st1, r, v, w);
    var s' := DoEnqueue(DoEnqueue(r, v), w);
    QueueTwo(Q(s.queues, s.shardOf(c)), c, 0, 1);
    assert Got(s', c) == [1, 0];
    assert [1, 0][0] != [0, 1][0];
    BreaksNow(r0, st2, s', c);
  }

  /** Chunks of the old connection, queued or in a hand, are not what the new one was handed. */
  lemma OldChunkBreaks(s: State, c: Sock)
    requires HoldersInv(s.workers, s.held) && !NoChunks(s, c)
    ensures OrderBreaks(Reopen(s, c), c)
  {
    var r := Reopen(s, c);
    assert Log(r.handed, c) == [] && Log(r.done, c) == [];
    if Of(Q(s.batches, s.shardOf(c)), c) == [] && Of(Q(s.queues, s.shardOf(c)), c) == [] {
      var lock :| lock in s.held && lock.sock == c && s.held[lock].Chunk?;
      var w :| W(s.workers, w) == Inside(lock);
      Extend(r, [], r, Enqueue(w));
      OfAppend(Q(r.queues, r.shardOf(c)), Item(c, s.held[lock].chunk), c);
      BreaksNow(r, [] + [Enqueue(w)], DoEnqueue(r, w), c);
    } else {
      assert |Got(r, c)| > 0;
      BreaksNow(r, [], r, c);
    }
  }

  lemma {:induction false} FreshWid(ws: set<Wid>) returns (w: Wid)
    ensures w !in ws && forall v :: v in ws ==> v < w
  {
    w := 0;
    var todo := ws;
    while todo != {}
      invariant todo <= ws && forall v :: v in ws && v !in todo ==> v < w
      decreases |todo|
    {
      var v :| v in todo;
      if v >= w { w := v + 1; }
      todo := todo - {v};
    }
  }

  function Taken(s: State, w: Wid, lock: Lock): State
  {
    s.(held := s.held[lock := Empty], workers := s.workers[w := Inside(lock)])
  }

  /** Some worker is inside with the lock, or `u`, which has it, goes in. */
  lemma BringIn(r0: State, st: seq<Step>, s: State, c: Sock, lock: Lock, u: Wid) returns (steps: seq<Step>, s': State, w: Wid)
    requires Reaches(r0, st, s) && Untouched(s, c) && HoldersInv(s.workers, s.held)
    requires lock in s.held ==> s.held[lock].Empty?
    requires lock !in s.held ==> W(s.workers, u) == Has(lock)
    ensures Reaches(r0, steps, s') && Untouched(s', c) && Ready(s', w, lock)
    ensures HoldersInv(s'.workers, s'.held)
    ensures s' == if lock in s.held then s else Taken(s, u, lock)
  {
    if lock in s.held {
      steps, s' := st, s;
      w :| W(s.workers, w) == Inside(lock);
    } else {
      w := u;
      Extend(r0, st, s, Acquire(w));
      Enters(s.workers, s.held, w, lock, Empty);
      steps, s' := st + [Acquire(w)], Taken(s, u, lock);
    }
  }

  lemma StaleSerial(s: State, x: Lock, u: Wid)
    requires HoldersInv(s.workers, s.held) && SerialInv(s.workers, s.locks, s.serial)
    requires x in s.held || W(s.workers, u) == Has(x)
    ensures x.serial < s.serial
  {
    if x in s.held {
      var w :| W(s.workers, w) == Inside(x);
      assert Holds(W(s.workers, w));
    } else {
      assert Holds(W(s.workers, u));
    }
  }

  /** A newcomer gets a lock other than the stale one, and the stale lock's holder stays inside. */
  lemma Newcomer(s1: State, c: Sock, x: Lock, v: Wid, n: Wid)
    requires Untouched(s1, c) && HoldersInv(s1.workers, s1.held) && Ready(s1, v, x) && n !in s1.workers.Keys
    requires x.sock == c && !NotStale(s1.locks, c, x) && x.serial < s1.serial
    ensures var s2 := DoGetLock(s1, n, c);
            && Enabled(s1, GetLock(n, c)) && Untouched(s2, c) && HoldersInv(s2.workers, s2.held) && Ready(s2, v, x)
            && W(s2.workers, n).Has? && W(s2.workers, n).lock.sock == c && W(s2.workers, n).lock != x && v != n
            && s2.held == s1.held
  {
    StepKeepsHolders(s1, GetLock(n, c));
  }

  lemma BothInside(r: State, st: seq<Step>, s: State, c: Sock, v: Wid, n: Wid, x: Lock, y: Lock)
    requires Reaches(r, st, s) && Untouched(s, c) && HoldersInv(s.workers, s.held) && Ready(s, v, x)
    requires W(s.workers, n) == Has(y) && x != y && v != n && x.sock == c && y.sock == c
    requires y in s.held ==> s.held[y].Empty?
    ensures OrderBreaks(r, c)
  {
    var st', s', w := BringIn(r, st, s, c, y, n);
    assert Ready(s', v, x);
    TwoReadersReorder(r, st', s', c, v, w, x, y);
  }

  /** A worker that still has, or is inside with, a lock that `c` no longer has. */
  lemma StaleBreaks(s: State, c: Sock, x: Lock, u: Wid)
    requires HoldersInv(s.workers, s.held) && SerialInv(s.workers, s.locks, s.serial) && NoChunks(s, c)
    requires x.sock == c && !NotStale(s.locks, c, x) && (x in s.held || W(s.workers, u) == Has(x))
    ensures OrderBreaks(Reopen(s, c), c)
  {
    var r := Reopen(s, c);
    assert Untouched(r, c);
    var st1, s1, v := BringIn(r, [], r, c, x, u);
    StaleSerial(s, x, u);
    var n := FreshWid(s1.workers.Keys);
    Newcomer(s1, c, x, v, n);
    var s2 := DoGetLock(s1, n, c);
    Extend(r, st1, s1, GetLock(n, c));
    var y := W(s2.workers, n).lock;
    BothInside(r, st1 + [GetLock(n, c)], s2, c, v, n, x, y);
  }

  /**
   Exactly when a handle may be reused: in every reachable state, the new connection under the
   handle of a closed one is in order in every continuation if and only if no chunk of the old one
   is on its way and no worker still has a drain lock that is no longer the handle's.
   */
  lemma ReuseSafeIff(s0: State, run: seq<Step>, s: State, c: Sock)
    requires Init(s0) && Reaches(s0, run, s) && c in s.dropped
    ensures OrderBreaks(Reopen(s, c), c) <==> !Quiet(s, c)
  {
    InitInv(s0);
    RunKeeps(s0, run, s);
    RunKeepsHolders(s0, run, s);
    if Quiet(s, c) {
      QuietIsSafe(s, c);
    } else if !NoChunks(s, c) {
      OldChunkBreaks(s, c);
    } else if lock :| lock in s.held && !NotStale(s.locks, c, lock) {
      StaleBreaks(s, c, lock, 0);
    } else {
      var w :| Holds(W(s.workers, w)) && !NotStale(s.locks, c, W(s.workers, w).lock);
      StaleBreaks(s, c, W(s.workers, w).lock, w);
    }
  }

  /** A closed handle asks for a lock that nobody has or holds. */
  lemma CloseForgets(s0: State, run: seq<Step>, s: State, w: Wid, c: Sock)
    requires Init(s0) && Reaches(s0, run, s) && W(s.workers, w) == Closing(c)
    ensures var s1 := Apply(s, DropLock(w));
            && c !in s1.locks && c in s1.dropped && Enabled(s1, GetLock(w, c))
            && var lock := W(Apply(s1, GetLock(w, c)).workers, w).lock;
               && W(Apply(s1, GetLock(w, c)).workers, w).Has? && lock.sock == c && lock !in s.held
               && forall v: Wid :: Holds(W(s.workers, v)) ==> W(s.workers, v).lock != lock
  {
    RunKeepsHolders(s0, run, s);
    FreshSerial(s, s.serial);
  }

  lemma FreshSerial(s: State, n: nat)
    requires HoldersInv(s.workers, s.held) && SerialInv(s.workers, s.locks, s.serial) && n >= s.serial
    ensures forall lock :: lock in s.held ==> lock.serial != n
    ensures forall v: Wid :: Holds(W(s.workers, v)) ==> W(s.workers, v).lock.serial != n
  {
    forall lock | lock in s.held ensures lock.serial != n {
      assert HasHolder(s.workers, lock);
      var v :| W(s.workers, v) == Inside(lock);
      assert SerialBelow(W(s.workers, v), s.serial);
    }
    forall v: Wid | Holds(W(s.workers, v)) ensures W(s.workers, v).lock.serial != n {
      assert SerialBelow(W(s.workers, v), s.serial);
    }
  }

  // ---- What was read is processed --------------------------------------------------------

  /** The steps that move read chunks on. */
  predicate Onward(step: Step) { step.Enqueue? || step.Swap? || step.Process? }

  predicate AllOnward(steps: seq<Step>) { forall i :: 0 <= i < |steps| ==> Onward(steps[i]) }

  lemma OnwardKeeps(s: State, step: Step)
    requires Enabled(s, step) && Onward(step)
    ensures Apply(s, step).handed == s.handed && Apply(s, step).dropped == s.dropped && Apply(s, step).shardOf == s.shardOf
    ensures Apply(s, step).locks == s.locks
  {
  }

  /** A run of such steps. */
  ghost predicate RunsOn(s0: State, steps: seq<Step>, s: State)
  {
    && Reaches(s0, steps, s) && AllOnward(steps)
    && s.handed == s0.handed && s.dropped == s0.dropped && s.shardOf == s0.shardOf && s.locks == s0.locks
  }

  lemma OneMore(s0: State, steps: seq<Step>, s: State, step: Step)
    requires RunsOn(s0, steps, s) && Enabled(s, step) && Onward(step)
    ensures RunsOn(s0, steps + [step], Apply(s, step))
  {
    Extend(s0, steps, s, step);
    OnwardKeeps(s, step);
  }

  lemma EmptyBatch(s0: State, st: seq<Step>, s: State, sh: Shard) returns (steps: seq<Step>, s': State)
    requires RunsOn(s0, st, s)
    ensures RunsOn(s0, steps, s') && Q(s'.batches, sh) == [] && s'.queues == s.queues && s'.held == s.held
  {
    steps, s' := st, s;
    while Q(s'.batches, sh) != []
      invariant RunsOn(s0, steps, s') && s'.queues == s.queues && s'.held == s.held
      decreases |Q(s'.batches, sh)|
    {
      OneMore(s0, steps, s', Process(sh));
      steps, s' := steps + [Process(sh)], Apply(s', Process(sh));
    }
  }

  /** A worker with a chunk of `c` in its hand queues it. */
  lemma EmptyHand(s0: State, s: State, c: Sock) returns (steps: seq<Step>, s': State)
    requires HoldersInv(s.workers, s.held) && RunsOn(s0, [], s)
    ensures RunsOn(s0, steps, s') && InHand(s'.locks, s'.held, c) == []
  {
    steps, s' := [], s;
    if InHand(s.locks, s.held, c) != [] {
      var lock := Lock(c, s.locks[c]);
      assert HasHolder(s.workers, lock);
      var w :| W(s.workers, w) == Inside(lock);
      OneMore(s0, steps, s, Enqueue(w));
      steps, s' := steps + [Enqueue(w)], Apply(s, Enqueue(w));
    }
  }

  /**
   Nothing is stuck: in every reachable state the worker that holds a chunk of a live connection
   and the shard alone can bring everything the kernel handed out through the shard, in order.
   */
  lemma AllProcessed(s0: State, run: seq<Step>, s: State, c: Sock) returns (steps: seq<Step>, s': State)
    requires Init(s0) && Reaches(s0, run, s) && c !in s.dropped
    ensures Reaches(s, steps, s') && AllOnward(steps) && Log(s'.done, c) == Log(s.handed, c)
  {
    InitInv(s0);
    RunKeeps(s0, run, s);
    RunKeepsHolders(s0, run, s);
    var sh := s.shardOf(c);
    steps, s' := EmptyHand(s, s, c);
    steps, s' := EmptyBatch(s, steps, s', sh);
    OneMore(s, steps, s', Swap(sh));
    steps, s' := steps + [Swap(sh)], Apply(s', Swap(sh));
    steps, s' := EmptyBatch(s, steps, s', sh);
    RunKeeps(s, steps, s');
    assert Log(s'.handed, c) == Pipe(s', c);
  }
}
