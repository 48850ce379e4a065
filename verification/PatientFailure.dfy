/**
 Patiently awaiting connectivity (section 4 of RFC 8863): an agent that is still connecting gives
 up only after every evaluation of its pair list over a full patience window found nothing but
 failed pairs.  Time is in milliseconds; a deadline of 0 is no deadline.

 `log` is a history: the evaluations since the agent last entered the connecting state.
 */
module PatientFailure {
  import opened Options

  const PAC_MS := 39_500

  datatype PairState = Frozen | Pending | Succeeded | Failed

  datatype Pair = Pair(state: PairState, priority: nat, tcpRelay: bool, nominated: bool)

  datatype AgentState = Disconnected | Gathering | Connecting | Connected | Completed | GaveUp

  // ---- One evaluation of the pair list -------------------------------------------------

  /** What `updateState` sees: a usable pair, something still to try, or a list of failed pairs only. */
  datatype Verdict = Usable(nominated: bool) | Trying | AllFailed

  predicate Succeeds(ps: seq<Pair>, i: int) { 0 <= i < |ps| && ps[i].state.Succeeded? }

  /** Index `b` holds the best succeeded pair of its transport class. */
  predicate BestOf(ps: seq<Pair>, tcp: bool, n: nat, b: Option<nat>)
    requires n <= |ps|
  {
    match b
    case None => forall i :: 0 <= i < n ==> !(Succeeds(ps, i) && ps[i].tcpRelay == tcp)
    case Some(k) =>
      && k < n && Succeeds(ps, k) && ps[k].tcpRelay == tcp
      && forall i :: 0 <= i < n && Succeeds(ps, i) && ps[i].tcpRelay == tcp ==> ps[i].priority <= ps[k].priority
  }

  /**
   The pair to use: normally the highest priority of all that succeeded; while the link sticks to
   a TCP relay, the best TCP-relay pair as long as there is one.
   */
  ghost predicate Selected(ps: seq<Pair>, stickyTcp: bool, b: Option<nat>)
  {
    match b
    case None => forall i :: 0 <= i < |ps| ==> !Succeeds(ps, i)
    case Some(k) =>
      && k < |ps| && Succeeds(ps, k)
      && (if stickyTcp && exists j :: Succeeds(ps, j) && ps[j].tcpRelay
          then ps[k].tcpRelay && forall i :: Succeeds(ps, i) && ps[i].tcpRelay ==> ps[i].priority <= ps[k].priority
          else forall i :: Succeeds(ps, i) ==> ps[i].priority <= ps[k].priority)
  }

  method SelectPair(ps: seq<Pair>, stickyTcp: bool) returns (b: Option<nat>)
    ensures Selected(ps, stickyTcp, b)
  {
    var tcp: Option<nat>, udp: Option<nat> := None, None;
    for i := 0 to |ps|
      invariant BestOf(ps, true, i, tcp) && BestOf(ps, false, i, udp)
    {
      if ps[i].state.Succeeded? {
        if ps[i].tcpRelay {
          if tcp.None? || ps[i].priority > ps[tcp.value].priority { tcp := Some(i); }
        } else {
          if udp.None? || ps[i].priority > ps[udp.value].priority { udp := Some(i); }
        }
      }
    }
    if stickyTcp {
      b := if tcp.Some? then tcp else udp;
    } else {
      b := if tcp.Some? && (udp.None? || ps[tcp.value].priority > ps[udp.value].priority) then tcp else udp;
    }
  }

  /** There are pairs, and every one of them failed. */
  predicate NothingLeft(ps: seq<Pair>) { ps != [] && forall i :: 0 <= i < |ps| ==> ps[i].state.Failed? }

  /** A pair that succeeded was chosen, or none did. */
  predicate Choice(ps: seq<Pair>, b: Option<nat>)
  {
    if b.Some? then Succeeds(ps, b.value) else forall i :: 0 <= i < |ps| ==> !ps[i].state.Succeeded?
  }

  lemma SelectedIsChoice(ps: seq<Pair>, stickyTcp: bool, b: Option<nat>)
    requires Selected(ps, stickyTcp, b)
    ensures Choice(ps, b)
  {
    if b.None? {
      forall i | 0 <= i < |ps| ensures !ps[i].state.Succeeded? {
        assert !Succeeds(ps, i);
      }
    }
  }

  /** The verdict on a list, given the pair selected from it. */
  function VerdictOf(ps: seq<Pair>, b: Option<nat>): Verdict
    requires b.Some? ==> b.value < |ps|
  {
    if b.Some? then Usable(ps[b.value].nominated) else if NothingLeft(ps) then AllFailed else Trying
  }

  // ---- The state machine ---------------------------------------------------------------

  /** An evaluation: when, and of which pair list. */
  datatype Eval = Eval(time: int, ps: seq<Pair>)

  datatype Agent = Agent(state: AgentState, deadline: int, now: int, log: seq<Eval>)

  datatype Step = Gather | StartChecks | Evaluate(time: int, ps: seq<Pair>, b: Option<nat>)

  predicate Enabled(a: Agent, step: Step)
  {
    match step
    case Gather => a.state.Disconnected? || a.state.GaveUp?
    case StartChecks => a.state.Gathering?
    case Evaluate(time, ps, b) => a.now <= time && 0 < time && Choice(ps, b)
  }

  function AfterUsable(s: AgentState, nominated: bool): AgentState
  {
    if s.Connecting? then (if nominated then Completed else Connected)
    else if s.Connected? && nominated then Completed
    else s
  }

  /** `updateState` at `time`, with the pair it selects; the history gets the evaluation. */
  function Evaluated(a: Agent, time: int, ps: seq<Pair>, b: Option<nat>): Agent
    requires Choice(ps, b)
  {
    var e := a.(now := time, log := a.log + [Eval(time, ps)]);
    match VerdictOf(ps, b)
    case Usable(nominated) => e.(state := AfterUsable(a.state, nominated))
    case Trying => e.(deadline := 0)
    case AllFailed =>
      if a.state.Connecting? then
        if a.deadline == 0 then e.(deadline := time + PAC_MS)
        else if time < a.deadline then e
        else e.(deadline := 0, state := GaveUp)
      else if a.state.Connected? || a.state.Completed? then e.(state := GaveUp)
      else e
  }

  /** What an evaluation may do to state and deadline, by what is in the list and which pair is used. */
  predicate Follows(s: AgentState, deadline: int, time: int, ps: seq<Pair>, used: Option<Pair>, s': AgentState, deadline': int)
  {
    if used.Some? then
      && deadline' == deadline
      && (used.value.nominated && (s.Connecting? || s.Connected?) ==> s' == Completed)
      && (!used.value.nominated && s.Connecting? ==> s' == Connected)
      && (!s.Connecting? && !(s.Connected? && used.value.nominated) ==> s' == s)
    else if ps == [] || exists i :: 0 <= i < |ps| && !ps[i].state.Failed? then
      s' == s && deadline' == 0
    else
      && (s.Connecting? && deadline == 0 ==> s' == s && deadline' == time + PAC_MS)
      && (s.Connecting? && deadline != 0 ==> if time < deadline then s' == s && deadline' == deadline else s' == GaveUp && deadline' == 0)
      && (s.Connected? || s.Completed? ==> s' == GaveUp && deadline' == deadline)
      && (!s.Connecting? && !s.Connected? && !s.Completed? ==> s' == s && deadline' == deadline)
  }

  lemma EvaluatedFollows(a: Agent, time: int, ps: seq<Pair>, b: Option<nat>)
    requires Choice(ps, b)
    ensures var e := Evaluated(a, time, ps, b);
            && Follows(a.state, a.deadline, time, ps, if b.Some? then Some(ps[b.value]) else None, e.state, e.deadline)
            && e.log == a.log + [Eval(time, ps)] && e.now == time
  {
  }

  /** Giving up while connecting: there are pairs, and none but failed ones. */
  lemma GivesUpOnFailure(a: Agent, time: int, ps: seq<Pair>, b: Option<nat>)
    requires Choice(ps, b) && a.state.Connecting? && Evaluated(a, time, ps, b).state.GaveUp?
    ensures ps != [] && (forall i :: 0 <= i < |ps| ==> ps[i].state.Failed?) && a.deadline != 0 && time >= a.deadline
  {
    EvaluatedFollows(a, time, ps, b);
  }

  function Apply(a: Agent, step: Step): Agent
    requires Enabled(a, step)
  {
    match step
    case Gather => a.(state := Gathering)
    case StartChecks => a.(state := Connecting, log := [])
    case Evaluate(time, ps, b) => Evaluated(a, time, ps, b)
  }

  ghost predicate Reaches(a0: Agent, steps: seq<Step>, a: Agent)
    decreases |steps|
  {
    if steps == [] then a == a0
    else
      var last := |steps| - 1;
      exists m :: Reaches(a0, steps[..last], m) && Enabled(m, steps[last]) && a == Apply(m, steps[last])
  }

  /** Every evaluation from the `k`-th on was of a list of failed pairs only, for at least the patience window. */
  predicate PatientFrom(log: seq<Eval>, k: nat)
  {
    && k < |log|
    && FailedSince(log, k)
    && log[|log| - 1].time - log[k].time >= PAC_MS
  }

  predicate Patient(log: seq<Eval>) { exists k :: 0 <= k < |log| && PatientFrom(log, k) }

  // ---- Invariant -----------------------------------------------------------------------

  /** A deadline in the connecting state was set by an all-failed evaluation and nothing else was seen since. */
  predicate DeadlineInv(a: Agent)
  {
    a.state.Connecting? && a.deadline != 0 ==>
      exists k :: 0 <= k < |a.log| && a.log[k].time + PAC_MS == a.deadline && FailedSince(a.log, k)
  }

  predicate FailedSince(log: seq<Eval>, k: nat) { forall i :: k <= i < |log| ==> NothingLeft(log[i].ps) }

  /** A run that does not gather again. */
  predicate OneEpisode(steps: seq<Step>) { forall i :: 0 <= i < |steps| ==> steps[i].Evaluate? }

  lemma EvaluateKeeps(a: Agent, time: int, ps: seq<Pair>, choice: Option<nat>)
    requires DeadlineInv(a) && Choice(ps, choice)
    ensures DeadlineInv(Evaluated(a, time, ps, choice))
  {
    var b := Evaluated(a, time, ps, choice);
    if b.state.Connecting? && b.deadline != 0 {
      if a.deadline == 0 {
        assert b.log[|a.log|].time + PAC_MS == b.deadline && FailedSince(b.log, |a.log|);
      } else {
        var k :| 0 <= k < |a.log| && a.log[k].time + PAC_MS == a.deadline && FailedSince(a.log, k);
        assert b.log[k] == a.log[k] && FailedSince(b.log, k);
      }
    }
  }

  /** Giving up while connecting is patient. */
  lemma GivesUpPatiently(a: Agent, time: int, ps: seq<Pair>, choice: Option<nat>)
    requires DeadlineInv(a) && Choice(ps, choice) && a.state.Connecting? && Evaluated(a, time, ps, choice).state.GaveUp?
    ensures Patient(Evaluated(a, time, ps, choice).log)
  {
    var b := Evaluated(a, time, ps, choice);
    var k :| 0 <= k < |a.log| && a.log[k].time + PAC_MS == a.deadline && FailedSince(a.log, k);
    assert b.log[k] == a.log[k];
    assert PatientFrom(b.log, k);
  }

  lemma {:induction false} EpisodeKeeps(a0: Agent, steps: seq<Step>, a: Agent)
    requires DeadlineInv(a0) && OneEpisode(steps) && Reaches(a0, steps, a)
    ensures DeadlineInv(a)
    decreases |steps|
  {
    if steps != [] {
      var last := |steps| - 1;
      var m :| Reaches(a0, steps[..last], m) && Enabled(m, steps[last]) && a == Apply(m, steps[last]);
      EpisodeKeeps(a0, steps[..last], m);
      EvaluateKeeps(m, steps[last].time, steps[last].ps, steps[last].b);
    }
  }

  // ---- Main results --------------------------------------------------------------------

  /** A list with one failed pair, and one with a usable pair. */
  const LOST: seq<Pair> := [Pair(Failed, 0, false, false)]
  const USABLE: seq<Pair> := [Pair(Succeeded, 0, false, false)]

  /** After `steps` the agent is still connecting, and `step` makes it give up. */
  ghost predicate GivesUp(a0: Agent, steps: seq<Step>, a: Agent, step: Step)
  {
    && OneEpisode(steps) && Reaches(a0, steps, a) && a.state.Connecting?
    && step.Evaluate? && Enabled(a, step) && Apply(a, step).state.GaveUp?
  }

  /** No sequence of evaluations makes the agent give up impatiently while connecting. */
  ghost predicate AlwaysPatient(a0: Agent)
  {
    forall steps, a, step | GivesUp(a0, steps, a, step) :: Patient(Apply(a, step).log)
  }

  /**
   Exactly when a connecting episode is patient: when it was entered without a deadline.  The first
   episode is; after a failure from the connected state a stale deadline may be left.
   */
  lemma PatientIff(a0: Agent)
    requires a0.state.Connecting? && a0.log == []
    ensures AlwaysPatient(a0) <==> a0.deadline == 0
  {
    if a0.deadline == 0 {
      forall steps, a, step | GivesUp(a0, steps, a, step) ensures Patient(Apply(a, step).log) {
        EpisodeKeeps(a0, steps, a);
        GivesUpPatiently(a, step.time, step.ps, step.b);
      }
    } else {
      var t := if a0.now > a0.deadline then a0.now else a0.deadline;
      var step := Evaluate(if t > 0 then t else 1, LOST, None);
      assert GivesUp(a0, [], a0, step);
      var b := Apply(a0, step);
      assert |b.log| == 1;
      assert !Patient(b.log);
    }
  }

  lemma Extend(a0: Agent, steps: seq<Step>, a: Agent, step: Step)
    requires Reaches(a0, steps, a) && Enabled(a, step)
    ensures Reaches(a0, steps + [step], Apply(a, step))
  {
    assert (steps + [step])[..|steps|] == steps;
  }

  function Fresh(): Agent { Agent(Disconnected, 0, 0, []) }

  /** Before the first checks nothing sets a deadline. */
  lemma {:induction false} QuietBeforeChecks(steps: seq<Step>, a: Agent)
    requires Reaches(Fresh(), steps, a) && forall i :: 0 <= i < |steps| ==> !steps[i].StartChecks?
    ensures a.deadline == 0 && (a.state.Disconnected? || a.state.Gathering?)
    decreases |steps|
  {
    if steps != [] {
      var last := |steps| - 1;
      var m :| Reaches(Fresh(), steps[..last], m) && Enabled(m, steps[last]) && a == Apply(m, steps[last]);
      QuietBeforeChecks(steps[..last], m);
    }
  }

  /** Before any restart the agent is patient, whatever it evaluated while gathering. */
  lemma FirstEpisodeIsPatient(steps: seq<Step>, a: Agent)
    requires Reaches(Fresh(), steps, a) && a.state.Gathering? && forall i :: 0 <= i < |steps| ==> !steps[i].StartChecks?
    ensures AlwaysPatient(Apply(a, StartChecks))
  {
    QuietBeforeChecks(steps, a);
    PatientIff(Apply(a, StartChecks));
  }

  /** The first episode sets a deadline, then connects. */
  lemma ConnectedWithDeadline() returns (steps: seq<Step>, a: Agent)
    ensures Reaches(Fresh(), steps, a) && a.state.Connected? && a.deadline == 1 + PAC_MS && a.now == 2
  {
    var a0 := Fresh();
    var a1 := Apply(a0, Gather);
    Extend(a0, [], a0, Gather);
    var a2 := Apply(a1, StartChecks);
    Extend(a0, [] + [Gather], a1, StartChecks);
    var s2 := [] + [Gather] + [StartChecks];
    var a3 := Apply(a2, Evaluate(1, LOST, None));
    Extend(a0, s2, a2, Evaluate(1, LOST, None));
    a := Apply(a3, Evaluate(2, USABLE, Some(0)));
    Extend(a0, s2 + [Evaluate(1, LOST, None)], a3, Evaluate(2, USABLE, Some(0)));
    steps := s2 + [Evaluate(1, LOST, None)] + [Evaluate(2, USABLE, Some(0))];
  }

  /** A second episode can begin with a deadline left over from the first, and then fails at once. */
  lemma SecondEpisodeMayBeImpatient() returns (steps: seq<Step>, a: Agent)
    ensures Reaches(Fresh(), steps, a) && a.state.Connecting? && a.log == [] && !AlwaysPatient(a)
  {
    var s4, a4 := ConnectedWithDeadline();
    var a5 := Apply(a4, Evaluate(3, LOST, None));
    Extend(Fresh(), s4, a4, Evaluate(3, LOST, None));
    var s5 := s4 + [Evaluate(3, LOST, None)];
    var a6 := Apply(a5, Gather);
    Extend(Fresh(), s5, a5, Gather);
    a := Apply(a6, StartChecks);
    Extend(Fresh(), s5 + [Gather], a6, StartChecks);
    steps := s5 + [Gather] + [StartChecks];
    PatientIff(a);
  }

  // ---- The agent -----------------------------------------------------------------------

  class IceAgent {
    var state: AgentState
    var deadline: int
    var selected: Option<Pair>
    ghost var now: int
    ghost var log: seq<Eval>

    ghost function Value(): Agent
      reads this
    {
      Agent(state, deadline, now, log)
    }

    constructor ()
      ensures Value() == Fresh() && selected.None?
    {
      state, deadline, selected, now, log := Disconnected, 0, None, 0, [];
    }

    /** `updateState` on the current pair list. */
    method UpdateState(ps: seq<Pair>, stickyPolicy: bool, time: int)
      requires now <= time && 0 < time
      modifies this
      ensures exists b: Option<nat> ::
                && Selected(ps, stickyPolicy && old(selected).Some? && old(selected).value.tcpRelay, b)
                && Choice(ps, b) && Value() == Evaluated(old(Value()), time, ps, b)
                && Follows(old(state), old(deadline), time, ps, if b.Some? then Some(ps[b.value]) else None, state, deadline)
                && selected == if b.Some? then Some(ps[b.value]) else old(selected)
      ensures old(state).Connecting? && state.GaveUp? ==> ps != [] && forall i :: 0 <= i < |ps| ==> ps[i].state.Failed?
    {
      var best := SelectPair(ps, stickyPolicy && selected.Some? && selected.value.tcpRelay);
      SelectedIsChoice(ps, stickyPolicy && selected.Some? && selected.value.tcpRelay, best);
      EvaluatedFollows(Value(), time, ps, best);
      now, log := time, log + [Eval(time, ps)];
      if best.Some? {
        selected := Some(ps[best.value]);
        if state.Connecting? {
          state := if ps[best.value].nominated then Completed else Connected;
        } else if state.Connected? && ps[best.value].nominated {
          state := Completed;
        }
        return;
      }
      var allFailed := CheckAllFailed(ps);
      if !allFailed || ps == [] {
        deadline := 0;
        return;
      }
      if state.Connecting? {
        if deadline == 0 {
          deadline := time + PAC_MS;
          return;
        }
        if time < deadline { return; }
        deadline := 0;
      }
      if state.Connecting? || state.Connected? || state.Completed? { state := GaveUp; }
    }
  }

  method CheckAllFailed(ps: seq<Pair>) returns (r: bool)
    ensures r <==> forall i :: 0 <= i < |ps| ==> ps[i].state.Failed?
  {
    for i := 0 to |ps|
      invariant forall j :: 0 <= j < i ==> ps[j].state.Failed?
    {
      if !ps[i].state.Failed? { return false; }
    }
    r := true;
  }
}
