/**
 The removal barrier of the poll registry.  A participant may be destroyed after `remove` and a
 `sync` that returned because the generation advanced.  The poll thread works without the
 registry lock on snapshots and on a persistent slot table, so it may still hold a pointer to a
 removed participant; the barrier says when it no longer does.

 Each step is one critical section or one callback.  `removedAt` remembers the generation at
 which a participant left, `waiting` the target of a `sync` begun after that.
 */
module PollBarrier {
  type P = nat

  datatype Slot = Slot(active: bool, who: set<P>)

  /** Where the poll thread is in its iteration. */
  datatype Pc =
    | Top
    | Timeout(todo: set<P>)
    | BeforeSync
    | Sync(parts: set<P>, todo: set<P>)
    | Waiting
    | Dispatching(ready: seq<nat>)
    | BeforeBook
    | Book(todo: set<P>)
    | Exited

  datatype State = State(
    participants: set<P>,
    slots: seq<Slot>,
    pc: Pc,
    generation: nat,
    stopping: bool,
    removedAt: map<P, nat>,
    waiting: map<P, nat>,
    freed: set<P>)

  // ---- Steps ---------------------------------------------------------------------------

  datatype Step =
    | Add(p: P)
    | Remove(p: P)
    | BeginSync(p: P)
    | Destroy(p: P, timedOut: bool)
    | Stop
    | Exit
    | TimeoutSnapshot
    | AskTimestamp(p: P)
    | TimeoutDone
    | SyncSnapshot
    | AskSockets(p: P)
    | SyncDone(slots: seq<Slot>)
    | WaitFailed
    | Validate(ready: seq<nat>)
    | Dispatch
    | DispatchDone
    | BookSnapshot
    | Bookkeep(p: P)
    | EndIteration

  /** After `epollSync` every active slot names a participant of the snapshot, or none. */
  predicate SlotsFrom(slots: seq<Slot>, parts: set<P>)
  {
    forall i :: 0 <= i < |slots| && slots[i].active ==> slots[i].who <= parts
  }

  predicate Enabled(s: State, step: Step)
  {
    match step
    case Add(p) => p !in s.freed && p !in s.participants
    case Remove(p) => p in s.participants
    case BeginSync(p) => p in s.removedAt && p !in s.participants && p !in s.freed
    case Destroy(p, timedOut) => p in s.waiting && p !in s.freed && (timedOut || s.generation >= s.waiting[p])
    case Stop => true
    case Exit => s.pc.Top? && s.stopping
    case TimeoutSnapshot => s.pc.Top? && !s.stopping
    case AskTimestamp(p) => s.pc.Timeout? && p in s.pc.todo
    case TimeoutDone => s.pc.Timeout? && s.pc.todo == {}
    case SyncSnapshot => s.pc.BeforeSync?
    case AskSockets(p) => s.pc.Sync? && p in s.pc.todo
    case SyncDone(slots) => s.pc.Sync? && s.pc.todo == {} && SlotsFrom(slots, s.pc.parts)
    case WaitFailed => s.pc.Waiting?
    case Validate(ready) => s.pc.Waiting?
    case Dispatch => s.pc.Dispatching? && s.pc.ready != []
    case DispatchDone => s.pc.Dispatching? && s.pc.ready == []
    case BookSnapshot => s.pc.BeforeBook?
    case Bookkeep(p) => s.pc.Book? && p in s.pc.todo
    case EndIteration => s.pc.Book? && s.pc.todo == {}
  }

  /** Only the reported slots are validated: a pointer to a removed participant is cleared there. */
  function Validated(slots: seq<Slot>, ready: seq<nat>, participants: set<P>): (r: seq<Slot>)
    ensures |r| == |slots|
  {
    seq(|slots|, i requires 0 <= i < |slots| =>
      if i in ready && slots[i].active then slots[i].(who := slots[i].who * participants) else slots[i])
  }

  function Apply(s: State, step: Step): State
    requires Enabled(s, step)
  {
    match step
    case Add(p) =>
      s.(participants := s.participants + {p}, removedAt := s.removedAt - {p}, waiting := s.waiting - {p})
    case Remove(p) => s.(participants := s.participants - {p}, removedAt := s.removedAt[p := s.generation])
    case BeginSync(p) => s.(waiting := s.waiting[p := s.generation + 1])
    case Destroy(p, timedOut) => s.(freed := s.freed + {p})
    case Stop => s.(stopping := true)
    case Exit => s.(generation := s.generation + 1, pc := Exited)
    case TimeoutSnapshot => s.(pc := Timeout(s.participants))
    case AskTimestamp(p) => s.(pc := Timeout(s.pc.todo - {p}))
    case TimeoutDone => s.(pc := BeforeSync)
    case SyncSnapshot => s.(pc := Sync(s.participants, s.participants))
    case AskSockets(p) => s.(pc := s.pc.(todo := s.pc.todo - {p}))
    case SyncDone(slots) => s.(slots := slots, pc := Waiting)
    case WaitFailed => s.(pc := Top)
    case Validate(ready) => s.(slots := Validated(s.slots, ready, s.participants), pc := Dispatching(ready))
    case Dispatch => s.(pc := Dispatching(s.pc.ready[1..]))
    case DispatchDone => s.(pc := BeforeBook)
    case BookSnapshot => s.(pc := Book(s.participants))
    case Bookkeep(p) => s.(pc := Book(s.pc.todo - {p}))
    case EndIteration => s.(generation := s.generation + 1, pc := Top)
  }

  /** The poll thread calls into `p` in this step. */
  predicate Touches(s: State, step: Step, p: P)
    requires Enabled(s, step)
  {
    match step
    case AskTimestamp(q) => p == q
    case AskSockets(q) => p == q
    case Dispatch => s.pc.ready[0] < |s.slots| && s.slots[s.pc.ready[0]].active && p in s.slots[s.pc.ready[0]].who
    case Bookkeep(q) => p == q
    case _ => false
  }

  predicate Init(s: State)
  {
    && s.participants == {} && s.slots == [] && s.pc == Top && !s.stopping
    && s.removedAt == map[] && s.waiting == map[] && s.freed == {}
  }

  ghost predicate Reaches(s0: State, steps: seq<Step>, s: State)
    decreases |steps|
  {
    if steps == [] then s == s0
    else
      var last := |steps| - 1;
      exists m :: Reaches(s0, steps[..last], m) && Enabled(m, steps[last]) && s == Apply(m, steps[last])
  }

  // ---- Invariant -----------------------------------------------------------------------

  /** A pointer the poll thread may use now: still registered, or removed during this generation. */
  predicate Held(participants: set<P>, removedAt: map<P, nat>, generation: nat, p: P)
  {
    p in participants || (p in removedAt && removedAt[p] == generation)
  }

  predicate AllHeld(s: State, ps: set<P>)
  {
    forall p :: p in ps ==> Held(s.participants, s.removedAt, s.generation, p)
  }

  predicate SlotsHeld(s: State)
  {
    forall i :: 0 <= i < |s.slots| && s.slots[i].active ==> AllHeld(s, s.slots[i].who)
  }

  /** What the poll thread carries through the current iteration. */
  predicate CarriedInv(s: State)
  {
    match s.pc
    case Timeout(todo) => AllHeld(s, todo)
    case Sync(parts, todo) => todo <= parts && AllHeld(s, parts)
    case Waiting => SlotsHeld(s)
    case Dispatching(ready) => SlotsHeld(s)
    case Book(todo) => AllHeld(s, todo)
    case _ => true
  }

  predicate HistoryInv(s: State)
  {
    && (forall p :: p in s.removedAt ==> p !in s.participants && s.removedAt[p] <= s.generation)
    && (forall p :: p in s.waiting ==> p in s.removedAt && s.waiting[p] > s.removedAt[p])
    && (forall p :: p in s.freed ==> p in s.removedAt)
  }

  predicate Inv(s: State) { CarriedInv(s) && HistoryInv(s) }

  lemma HistoryKept(s: State, step: Step)
    requires Inv(s) && Enabled(s, step)
    ensures HistoryInv(Apply(s, step))
  {
  }

  lemma CarriedKept(s: State, step: Step)
    requires Inv(s) && Enabled(s, step)
    ensures CarriedInv(Apply(s, step))
  {
  }

  lemma {:induction false} RunKeeps(s0: State, steps: seq<Step>, s: State)
    requires Inv(s0) && Reaches(s0, steps, s)
    ensures Inv(s)
    decreases |steps|
  {
    if steps != [] {
      var last := |steps| - 1;
      var m :| Reaches(s0, steps[..last], m) && Enabled(m, steps[last]) && s == Apply(m, steps[last]);
      RunKeeps(s0, steps[..last], m);
      CarriedKept(m, steps[last]);
      HistoryKept(m, steps[last]);
    }
  }

  // ---- Main results --------------------------------------------------------------------

  /** The generation advances at most once between a removal and the last use of the pointer. */
  lemma TouchedIsHeld(s: State, step: Step, p: P)
    requires CarriedInv(s) && Enabled(s, step) && Touches(s, step, p)
    ensures Held(s.participants, s.removedAt, s.generation, p)
  {
  }

  /**
   Once the generation has advanced past the removal of `p`, no step of the poll thread touches
   `p`, neither from a snapshot nor from a persistent slot, in any interleaving, until it is added
   again.
   */
  lemma Barrier(s0: State, steps: seq<Step>, s: State, step: Step, p: P)
    requires Init(s0) && Reaches(s0, steps, s) && Enabled(s, step)
    requires p in s.removedAt && s.generation > s.removedAt[p]
    ensures !Touches(s, step, p)
  {
    RunKeeps(s0, steps, s);
    if Touches(s, step, p) { TouchedIsHeld(s, step, p); }
  }

  /** A participant destroyed only after its own `sync` saw the generation advance was removed in an earlier one. */
  lemma {:induction false} FreedPast(s0: State, steps: seq<Step>, s: State, p: P)
    requires Init(s0) && Reaches(s0, steps, s) && p in s.freed && Destroy(p, true) !in steps
    ensures p in s.removedAt && s.removedAt[p] < s.generation
    decreases |steps|
  {
    if steps != [] {
      var last := |steps| - 1;
      var m :| Reaches(s0, steps[..last], m) && Enabled(m, steps[last]) && s == Apply(m, steps[last]);
      RunKeeps(s0, steps[..last], m);
      if p in m.freed { FreedPast(s0, steps[..last], m, p); }
    }
  }

  /**
   A participant destroyed after a `sync` that saw the generation advance is never touched again,
   whatever happened to the `sync` of any other participant.
   */
  lemma NeverTouchesFreed(s0: State, steps: seq<Step>, s: State, step: Step, p: P)
    requires Init(s0) && Reaches(s0, steps, s) && Enabled(s, step) && p in s.freed
    requires Destroy(p, true) !in steps
    ensures !Touches(s, step, p)
  {
    FreedPast(s0, steps, s, p);
    Barrier(s0, steps, s, step, p);
  }

  lemma Extend(s0: State, steps: seq<Step>, s: State, step: Step)
    requires Reaches(s0, steps, s) && Enabled(s, step)
    ensures Reaches(s0, steps + [step], Apply(s, step))
  {
    assert (steps + [step])[..|steps|] == steps;
  }

  // ---- When a removed participant is still in use ----------------------------------------

  predicate Names(s: State, i: nat, p: P) { i < |s.slots| && s.slots[i].active && p in s.slots[i].who }

  /**
   The poll thread is on its way to `p`: in what is left of a snapshot, or in a slot still to be
   dispatched.  While it waits for events it is not, for the reported slots are validated first.
   */
  predicate Carries(s: State, p: P)
  {
    match s.pc
    case Timeout(todo) => p in todo
    case Sync(_, todo) => p in todo
    case Dispatching(ready) => exists k :: 0 <= k < |ready| && Names(s, ready[k], p)
    case Book(todo) => p in todo
    case _ => false
  }

  /** Some continuation that does not add `p` again calls into it. */
  ghost predicate TouchedAgain(s: State, p: P)
  {
    exists steps, s', step ::
      Reaches(s, steps, s') && Add(p) !in steps && Enabled(s', step) && Touches(s', step, p)
  }

  lemma CarriesNow(s: State, step: Step, p: P)
    requires Enabled(s, step) && Touches(s, step, p)
    ensures Carries(s, p)
  {
    if step.Dispatch? { assert Names(s, s.pc.ready[0], p); }
  }

  /** A removed participant that is not carried is never carried again. */
  lemma NotCarriedStays(s: State, step: Step, p: P)
    requires p !in s.participants && !Carries(s, p) && Enabled(s, step) && step != Add(p)
    ensures p !in Apply(s, step).participants && !Carries(Apply(s, step), p)
  {
    var s' := Apply(s, step);
    if s'.pc.Dispatching? {
      forall k | 0 <= k < |s'.pc.ready| ensures !Names(s', s'.pc.ready[k], p) {
        if step.Dispatch? {
          assert s'.pc.ready[k] == s.pc.ready[k + 1];
          assert !Names(s, s.pc.ready[k + 1], p);
        } else if step.Validate? {
          assert step.ready[k] in step.ready;
        } else {
          assert !Names(s, s.pc.ready[k], p);
        }
      }
    }
  }

  lemma {:induction false} NotCarriedRun(s: State, steps: seq<Step>, s': State, p: P)
    requires p !in s.participants && !Carries(s, p) && Reaches(s, steps, s') && Add(p) !in steps
    ensures p !in s'.participants && !Carries(s', p)
    decreases |steps|
  {
    if steps != [] {
      var last := |steps| - 1;
      var m :| Reaches(s, steps[..last], m) && Enabled(m, steps[last]) && s' == Apply(m, steps[last]);
      NotCarriedRun(s, steps[..last], m, p);
      NotCarriedStays(m, steps[last], p);
    }
  }

  /** Dispatching slot after slot reaches the one that names `p`. */
  lemma {:induction false} DispatchReaches(s: State, k: nat, p: P) returns (steps: seq<Step>, s': State)
    requires s.pc.Dispatching? && k < |s.pc.ready| && Names(s, s.pc.ready[k], p)
    ensures Reaches(s, steps, s') && Add(p) !in steps && Enabled(s', Dispatch) && Touches(s', Dispatch, p)
  {
    steps, s' := [], s;
    for i := 0 to k
      invariant Reaches(s, steps, s') && Add(p) !in steps
      invariant s' == s.(pc := Dispatching(s.pc.ready[i..]))
    {
      Extend(s, steps, s', Dispatch);
      steps, s' := steps + [Dispatch], Apply(s', Dispatch);
    }
  }

  lemma TouchedNow(s: State, step: Step, p: P)
    requires Enabled(s, step) && Touches(s, step, p)
    ensures TouchedAgain(s, p)
  {
    var none: seq<Step> := [];
    assert Reaches(s, none, s) && Add(p) !in none;
  }

  /** A removed participant is called again exactly if the poll thread is on its way to it. */
  lemma TouchedAgainIff(s: State, p: P)
    requires p !in s.participants
    ensures TouchedAgain(s, p) <==> Carries(s, p)
  {
    if Carries(s, p) {
      match s.pc
      case Timeout(_) => TouchedNow(s, AskTimestamp(p), p);
      case Sync(_, _) => TouchedNow(s, AskSockets(p), p);
      case Book(_) => TouchedNow(s, Bookkeep(p), p);
      case Dispatching(ready) =>
        var k :| 0 <= k < |ready| && Names(s, ready[k], p);
        var steps, s' := DispatchReaches(s, k, p);
    } else {
      forall steps, s', step | Reaches(s, steps, s') && Add(p) !in steps && Enabled(s', step)
        ensures !Touches(s', step, p)
      {
        NotCarriedRun(s, steps, s', p);
        if Touches(s', step, p) { CarriesNow(s', step, p); }
      }
    }
  }

  /** Some continuation, of any kind, calls into `p`. */
  ghost predicate TouchedLater(s: State, p: P)
  {
    exists steps, s', step :: Reaches(s, steps, s') && Enabled(s', step) && Touches(s', step, p)
  }

  /** What was destroyed is never added. */
  lemma {:induction false} FreedStays(s: State, steps: seq<Step>, s': State, p: P)
    requires p in s.freed && Reaches(s, steps, s')
    ensures p in s'.freed && Add(p) !in steps
    decreases |steps|
  {
    if steps != [] {
      var last := |steps| - 1;
      var m :| Reaches(s, steps[..last], m) && Enabled(m, steps[last]) && s' == Apply(m, steps[last]);
      FreedStays(s, steps[..last], m, p);
      assert steps == steps[..last] + [steps[last]];
    }
  }

  /**
   Exactly when it is unsafe for a `sync` to give up: in every reachable state, destroying `p` then
   leads to a call into it in some continuation if and only if the poll thread is on its way to it.
   */
  lemma GivingUpUnsafeIff(s0: State, run: seq<Step>, s: State, p: P)
    requires Init(s0) && Reaches(s0, run, s) && Enabled(s, Destroy(p, true))
    ensures TouchedLater(Apply(s, Destroy(p, true)), p) <==> Carries(s, p)
  {
    RunKeeps(s0, run, s);
    var d := Apply(s, Destroy(p, true));
    TouchedAgainIff(d, p);
    assert Carries(d, p) <==> Carries(s, p) by {
      if s.pc.Dispatching? {
        forall i: nat ensures Names(d, i, p) <==> Names(s, i, p) {
        }
      }
    }
    forall steps, s', step | Reaches(d, steps, s') && Enabled(s', step) && Touches(s', step, p) ensures TouchedAgain(d, p) {
      FreedStays(d, steps, s', p);
    }
  }

  /**
   A `sync` that gives up is no barrier: if the generation has not advanced, the poll thread may
   call into the participant after its destruction.
   */
  lemma TimedOutSyncIsUnsafe(s0: State) returns (steps: seq<Step>, s: State, step: Step)
    requires Init(s0)
    ensures Reaches(s0, steps, s) && Enabled(s, step) && 1 in s.freed && Touches(s, step, 1)
    ensures 1 in s.removedAt && s.generation == s.removedAt[1] && Carries(s, 1)
  {
    var s1 := Apply(s0, Add(1));
    Extend(s0, [], s0, Add(1));
    var s2 := Apply(s1, TimeoutSnapshot);
    Extend(s0, [] + [Add(1)], s1, TimeoutSnapshot);
    var s3 := Apply(s2, Remove(1));
    Extend(s0, [] + [Add(1)] + [TimeoutSnapshot], s2, Remove(1));
    var s4 := Apply(s3, BeginSync(1));
    Extend(s0, [] + [Add(1)] + [TimeoutSnapshot] + [Remove(1)], s3, BeginSync(1));
    s := Apply(s4, Destroy(1, true));
    Extend(s0, [] + [Add(1)] + [TimeoutSnapshot] + [Remove(1)] + [BeginSync(1)], s4, Destroy(1, true));
    steps := [] + [Add(1)] + [TimeoutSnapshot] + [Remove(1)] + [BeginSync(1)] + [Destroy(1, true)];
    step := AskTimestamp(1);
  }

  // ---- The barrier comes ---------------------------------------------------------------

  /** The steps of the poll thread. */
  predicate Own(step: Step)
  {
    !step.Add? && !step.Remove? && !step.BeginSync? && !step.Destroy? && !step.Stop?
  }

  predicate AllOwn(steps: seq<Step>) { forall i :: 0 <= i < |steps| ==> Own(steps[i]) }

  /** Nothing but the position of the poll thread, its slots and its generation is another. */
  predicate SameOthers(s: State, s': State)
  {
    && s'.participants == s.participants && s'.stopping == s.stopping && s'.removedAt == s.removedAt
    && s'.waiting == s.waiting && s'.freed == s.freed
  }

  /** The poll thread alone gets from `s` to `s'`. */
  ghost predicate Runs(s: State, steps: seq<Step>, s': State)
  {
    Reaches(s, steps, s') && AllOwn(steps) && SameOthers(s, s')
  }

  lemma OwnKeepsOthers(s: State, step: Step)
    requires Enabled(s, step) && Own(step)
    ensures SameOthers(s, Apply(s, step))
  {
  }

  lemma Then(s0: State, steps: seq<Step>, s: State, step: Step)
    requires Runs(s0, steps, s) && Enabled(s, step) && Own(step)
    ensures Runs(s0, steps + [step], Apply(s, step))
  {
    Extend(s0, steps, s, step);
    OwnKeepsOthers(s, step);
  }

  /** How many phases of the iteration are left, and how much of the current one. */
  function Phase(pc: Pc): nat
  {
    match pc
    case Exited => 0
    case Top => 9
    case Timeout(_) => 8
    case BeforeSync => 7
    case Sync(_, _) => 6
    case Waiting => 5
    case Dispatching(_) => 4
    case BeforeBook => 3
    case Book(_) => 2
  }

  function Todo(pc: Pc): nat
  {
    match pc
    case Timeout(todo) => |todo|
    case Sync(_, todo) => |todo|
    case Dispatching(ready) => |ready|
    case Book(todo) => |todo|
    case _ => 0
  }

  /** The next step of the poll thread inside an iteration, when no event is reported. */
  predicate Inner(pc: Pc, step: Step)
  {
    match pc
    case Timeout(todo) => if todo == {} then step == TimeoutDone else step.AskTimestamp? && step.p in todo
    case BeforeSync => step == SyncSnapshot
    case Sync(_, todo) => if todo == {} then step == SyncDone([]) else step.AskSockets? && step.p in todo
    case Waiting => step == Validate([])
    case Dispatching(ready) => step == if ready == [] then DispatchDone else Dispatch
    case BeforeBook => step == BookSnapshot
    case Book(todo) => todo != {} && step.Bookkeep? && step.p in todo
    case _ => false
  }

  lemma InnerExists(pc: Pc) returns (step: Step)
    requires !pc.Top? && !pc.Exited? && pc != Book({})
    ensures Inner(pc, step)
  {
    match pc
    case Timeout(todo) =>
      step := TimeoutDone;
      if todo != {} { var p :| p in todo; step := AskTimestamp(p); }
    case BeforeSync => step := SyncSnapshot;
    case Sync(_, todo) =>
      step := SyncDone([]);
      if todo != {} { var p :| p in todo; step := AskSockets(p); }
    case Waiting => step := Validate([]);
    case Dispatching(ready) => step := if ready == [] then DispatchDone else Dispatch;
    case BeforeBook => step := BookSnapshot;
    case Book(todo) => var p :| p in todo; step := Bookkeep(p);
  }

  lemma InnerEnabled(s: State, step: Step)
    requires Inner(s.pc, step)
    ensures Enabled(s, step) && Own(step) && Apply(s, step).generation == s.generation
  {
  }

  /** The phase that is over gives way to the next. */
  lemma PhaseEnds(s: State, step: Step)
    requires Inner(s.pc, step) && Enabled(s, step) && Todo(s.pc) == 0
    ensures !Apply(s, step).pc.Exited? && Phase(Apply(s, step).pc) < Phase(s.pc)
  {
  }

  /** A phase with something to do has less to do. */
  lemma PhaseGoesOn(s: State, step: Step)
    requires Inner(s.pc, step) && Enabled(s, step) && Todo(s.pc) > 0
    ensures Phase(Apply(s, step).pc) == Phase(s.pc) && Todo(Apply(s, step).pc) < Todo(s.pc)
  {
  }

  /** Once begun, an iteration comes to its end. */
  lemma IterationEnds(s0: State, st: seq<Step>, s: State) returns (steps: seq<Step>, s': State)
    requires Runs(s0, st, s) && !s.pc.Top? && !s.pc.Exited?
    ensures Runs(s0, steps, s') && s'.pc == Top && s'.generation == s.generation + 1
  {
    steps, s' := st, s;
    while s'.pc != Book({})
      invariant Runs(s0, steps, s') && s'.generation == s.generation && !s'.pc.Top? && !s'.pc.Exited?
      decreases Phase(s'.pc), Todo(s'.pc)
    {
      var step := InnerExists(s'.pc);
      InnerEnabled(s', step);
      if Todo(s'.pc) == 0 { PhaseEnds(s', step); } else { PhaseGoesOn(s', step); }
      Then(s0, steps, s', step);
      steps, s' := steps + [step], Apply(s', step);
    }
    Then(s0, steps, s', EndIteration);
    steps, s' := steps + [EndIteration], Apply(s', EndIteration);
  }

  /** Wherever it is, the poll thread alone ends the iteration it is in, or the next one, and the generation is one more. */
  lemma GenerationAdvances(s: State) returns (steps: seq<Step>, s': State)
    requires !s.pc.Exited?
    ensures Runs(s, steps, s') && s'.generation == s.generation + 1
    ensures s'.pc == if s.pc.Top? && s.stopping then Exited else Top
  {
    var none: seq<Step> := [];
    assert Runs(s, none, s);
    if s.pc.Top? {
      var first := if s.stopping then Exit else TimeoutSnapshot;
      Then(s, none, s, first);
      steps, s' := none + [first], Apply(s, first);
      if !s.stopping { steps, s' := IterationEnds(s, steps, s'); }
    } else {
      steps, s' := IterationEnds(s, none, s);
    }
  }

  /** After its exit the generation stands still, and whoever waits for the next one waits in vain. */
  lemma {:induction false} ExitIsFinal(s: State, steps: seq<Step>, s': State, p: P)
    requires s.pc.Exited? && Reaches(s, steps, s') && (p in s.waiting ==> s.waiting[p] > s.generation)
    ensures s'.pc.Exited? && (p in s'.waiting ==> s'.waiting[p] > s'.generation)
    decreases |steps|
  {
    if steps != [] {
      var last := |steps| - 1;
      var m :| Reaches(s, steps[..last], m) && Enabled(m, steps[last]) && s' == Apply(m, steps[last]);
      ExitIsFinal(s, steps[..last], m, p);
    }
  }

  /** In some continuation `p` can be destroyed without its `sync` giving up. */
  ghost predicate SyncReturns(s: State, p: P)
  {
    exists steps, s' :: Reaches(s, steps, s') && Enabled(s', Destroy(p, false))
  }

  /**
   A `sync` that begins now can return with the barrier passed if and only if the poll thread has
   not exited; by `GenerationAdvances` the thread alone brings it about, in one iteration.
   */
  lemma SyncReturnsIff(s: State, p: P)
    requires Enabled(s, BeginSync(p))
    ensures SyncReturns(Apply(s, BeginSync(p)), p) <==> !s.pc.Exited?
  {
    var b := Apply(s, BeginSync(p));
    if s.pc.Exited? {
      forall steps, s' | Reaches(b, steps, s') ensures !Enabled(s', Destroy(p, false)) {
        ExitIsFinal(b, steps, s', p);
      }
    } else {
      var steps, s' := GenerationAdvances(b);
      assert Enabled(s', Destroy(p, false));
    }
  }

  /** Whoever is registered when a phase begins is called in it before it ends. */
  lemma EveryoneIsAsked(s: State, p: P)
    requires p in s.participants
    ensures Enabled(s, TimeoutSnapshot) ==>
              var s' := Apply(s, TimeoutSnapshot); Enabled(s', AskTimestamp(p)) && !Enabled(s', TimeoutDone)
    ensures Enabled(s, SyncSnapshot) ==>
              var s' := Apply(s, SyncSnapshot); Enabled(s', AskSockets(p)) && forall slots :: !Enabled(s', SyncDone(slots))
    ensures Enabled(s, BookSnapshot) ==>
              var s' := Apply(s, BookSnapshot); Enabled(s', Bookkeep(p)) && !Enabled(s', EndIteration)
  {
  }

  /** After `Stop` the poll thread exits. */
  lemma StopEnds(s: State) returns (steps: seq<Step>, s': State)
    requires !s.pc.Exited?
    ensures Runs(Apply(s, Stop), steps, s') && s'.pc.Exited?
  {
    var t := Apply(s, Stop);
    var none: seq<Step> := [];
    assert Runs(t, none, t);
    steps, s' := none, t;
    if !t.pc.Top? { steps, s' := IterationEnds(t, none, t); }
    Then(t, steps, s', Exit);
    steps, s' := steps + [Exit], Apply(s', Exit);
  }
}
