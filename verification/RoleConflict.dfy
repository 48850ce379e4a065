/**
 ICE role conflicts between two agents (section 7.3.1.1 of RFC 8445).  Connectivity checks carry
 the sender's role and tiebreaker; a conflict is answered with a 487 error or by switching roles.
 The network may lose, reorder and repeat messages: everything ever sent stays available for
 delivery.  A check is retransmitted under its transaction id until it is re-armed.
 */
module RoleConflict {
  type Tid = nat
  type Eid = nat

  datatype Role = Controlling | Controlled

  function Other(r: Role): Role { if r.Controlling? then Controlled else Controlling }

  /** `Winner` is the agent with the larger tiebreaker. */
  datatype Side = Winner | Loser

  datatype Msg =
    | Request(from: Side, tid: Tid, role: Role)
    | Reject(to: Side, tid: Tid)

  /** A check entry: its transaction id, the role it was last sent in, whether the next send takes a new id, and whether it was sent at all. */
  datatype Entry = Entry(tid: Tid, role: Role, expired: bool, sent: bool)

  datatype Agent = Agent(role: Role, entries: map<Eid, Entry>)

  datatype State = State(winner: Agent, loser: Agent, net: set<Msg>, used: set<Tid>)

  function A(s: State, side: Side): Agent { if side.Winner? then s.winner else s.loser }

  function Put(s: State, side: Side, a: Agent): State
  {
    if side.Winner? then s.(winner := a) else s.(loser := a)
  }

  /** `tiebreaker_ >= peerTb` with distinct tiebreakers. */
  predicate AtLeastPeer(side: Side) { side.Winner? }

  // ---- Steps ---------------------------------------------------------------------------

  datatype Step =
    | Arm(side: Side, e: Eid)
    | Send(side: Side, e: Eid, next: Tid)
    | TakeRequest(side: Side, m: Msg)
    | TakeReject(side: Side, m: Msg, e: Eid)

  predicate Enabled(s: State, step: Step)
  {
    match step
    case Arm(side, e) => true
    case Send(side, e, next) => e in A(s, side).entries && next !in s.used
    case TakeRequest(side, m) => m in s.net && m.Request? && m.from != side
    case TakeReject(side, m, e) =>
      && m in s.net && m.Reject? && m.to == side
      && e in A(s, side).entries && A(s, side).entries[e].sent && A(s, side).entries[e].tid == m.tid
  }

  function DoArm(s: State, side: Side, e: Eid): State
  {
    var a := A(s, side);
    var entry := if e in a.entries then a.entries[e].(expired := true) else Entry(0, a.role, true, false);
    Put(s, side, a.(entries := a.entries[e := entry]))
  }

  /** `sendStunBinding`: a new id if the old one expired; the entry remembers the role it went out in. */
  function DoSend(s: State, side: Side, e: Eid, next: Tid): State
    requires e in A(s, side).entries
  {
    var a := A(s, side);
    var tid := if a.entries[e].expired then next else a.entries[e].tid;
    Put(s, side, a.(entries := a.entries[e := Entry(tid, a.role, false, true)])).(
      net := s.net + {Request(side, tid, a.role)}, used := s.used + {tid})
  }

  /** The answer to a request that conflicts with the own role. */
  predicate Rejects(side: Side, own: Role, peer: Role)
  {
    own == peer && (own.Controlling? <==> AtLeastPeer(side))
  }

  /** `handleBindingRequest`: with equal roles the larger tiebreaker ends up controlling. */
  function DoTakeRequest(s: State, side: Side, m: Msg): State
    requires m.Request?
  {
    var a := A(s, side);
    if a.role != m.role then s
    else if Rejects(side, a.role, m.role) then s.(net := s.net + {Reject(m.from, m.tid)})
    else Put(s, side, a.(role := Other(a.role)))
  }

  /** `handleBindingResponse`: a 487 counts only if the role has not changed since the check was sent. */
  function DoTakeReject(s: State, side: Side, e: Eid): State
    requires e in A(s, side).entries
  {
    var a := A(s, side);
    if a.entries[e].role != a.role then s
    else Put(s, side, Agent(Other(a.role), a.entries[e := a.entries[e].(expired := true)]))
  }

  function Apply(s: State, step: Step): State
    requires Enabled(s, step)
  {
    match step
    case Arm(side, e) => DoArm(s, side, e)
    case Send(side, e, next) => DoSend(s, side, e, next)
    case TakeRequest(side, m) => DoTakeRequest(s, side, m)
    case TakeReject(side, m, e) => DoTakeReject(s, side, e)
  }

  predicate Init(s: State)
  {
    s.winner.entries == map[] && s.loser.entries == map[] && s.net == {} && s.used == {}
  }

  ghost predicate Reaches(s0: State, steps: seq<Step>, s: State)
    decreases |steps|
  {
    if steps == [] then s == s0
    else
      var last := |steps| - 1;
      exists m :: Reaches(s0, steps[..last], m) && Enabled(m, steps[last]) && s == Apply(m, steps[last])
  }

  // ---- Invariants ----------------------------------------------------------------------

  function Peer(side: Side): Side { if side.Winner? then Loser else Winner }

  /** The role in which a side does not lose a conflict. */
  function Right(side: Side): Role { if side.Winner? then Controlling else Controlled }

  function Wrong(side: Side): Role { Other(Right(side)) }

  /** Every check that is remembered as sent is in the network, and only checks in the wrong role were rejected. */
  predicate HistInv(s: State)
  {
    && (forall m :: m in s.net && m.Reject? ==> Request(m.to, m.tid, Wrong(m.to)) in s.net)
    && EntriesSent(s.net, Winner, s.winner.entries) && EntriesSent(s.net, Loser, s.loser.entries)
  }

  predicate EntriesSent(net: set<Msg>, side: Side, entries: map<Eid, Entry>)
  {
    forall e :: e in entries && entries[e].sent ==> Request(side, entries[e].tid, entries[e].role) in net
  }

  lemma HistKept(s: State, step: Step)
    requires HistInv(s) && Enabled(s, step)
    ensures HistInv(Apply(s, step))
  {
  }

  lemma {:induction false} RunKeepsHist(s0: State, steps: seq<Step>, s: State)
    requires HistInv(s0) && Reaches(s0, steps, s)
    ensures HistInv(s)
    decreases |steps|
  {
    if steps != [] {
      var last := |steps| - 1;
      var m :| Reaches(s0, steps[..last], m) && Enabled(m, steps[last]) && s == Apply(m, steps[last]);
      RunKeepsHist(s0, steps[..last], m);
      HistKept(m, steps[last]);
    }
  }

  /** The side is in its right role, has only ever said so, and nobody rejected it. */
  predicate SteadyInv(s: State, side: Side)
  {
    && A(s, side).role == Right(side)
    && (forall m :: m in s.net && m.Request? && m.from == side ==> m.role == Right(side))
    && (forall m :: m in s.net && m.Reject? ==> m.to != side)
  }

  lemma SteadyKept(s: State, step: Step, side: Side)
    requires SteadyInv(s, side) && Enabled(s, step)
    ensures SteadyInv(Apply(s, step), side)
  {
  }

  lemma {:induction false} RunKeepsSteady(s0: State, steps: seq<Step>, s: State, side: Side)
    requires SteadyInv(s0, side) && Reaches(s0, steps, s)
    ensures SteadyInv(s, side)
    decreases |steps|
  {
    if steps != [] {
      var last := |steps| - 1;
      var m :| Reaches(s0, steps[..last], m) && Enabled(m, steps[last]) && s == Apply(m, steps[last]);
      RunKeepsSteady(s0, steps[..last], m, side);
      SteadyKept(m, steps[last], side);
    }
  }

  /** The roles are opposite but the wrong way round: there is no conflict to resolve. */
  predicate SwappedInv(s: State)
  {
    && s.winner.role.Controlled? && s.loser.role.Controlling?
    && (forall m :: m in s.net ==> m.Request? && m.role == Wrong(m.from))
  }

  lemma {:induction false} RunKeepsSwapped(s0: State, steps: seq<Step>, s: State)
    requires SwappedInv(s0) && Reaches(s0, steps, s)
    ensures SwappedInv(s)
    decreases |steps|
  {
    if steps != [] {
      var last := |steps| - 1;
      var m :| Reaches(s0, steps[..last], m) && Enabled(m, steps[last]) && s == Apply(m, steps[last]);
      RunKeepsSwapped(s0, steps[..last], m);
    }
  }

  // ---- The larger tiebreaker controls --------------------------------------------------

  /**
   If the agent with the larger tiebreaker starts controlling, whatever the other starts as, it is
   controlling in every reachable state, no 487 is ever sent to it, and each of its requests leaves
   the agent that processes it controlled.
   */
  lemma LargerControls(s0: State, steps: seq<Step>, s: State)
    requires Init(s0) && s0.winner.role.Controlling? && Reaches(s0, steps, s)
    ensures s.winner.role.Controlling?
    ensures forall m :: m in s.net && m.Reject? ==> m.to.Loser?
    ensures forall m :: m in s.net && m.Request? && m.from.Winner? ==>
              Enabled(s, TakeRequest(Loser, m)) && Apply(s, TakeRequest(Loser, m)).loser.role.Controlled?
  {
    RunKeepsSteady(s0, steps, s, Winner);
  }

  // ---- When a side leaves its right role -----------------------------------------------

  /** An entry last sent in the right role under an id that was sent in the wrong role before. */
  predicate Reused(s: State, side: Side, e: Eid)
  {
    && e in A(s, side).entries && A(s, side).entries[e].sent && A(s, side).entries[e].role == Right(side)
    && Request(side, A(s, side).entries[e].tid, Wrong(side)) in s.net
  }

  predicate Leaves(s: State, step: Step, side: Side)
  {
    A(s, side).role == Right(side) && Enabled(s, step) && A(Apply(s, step), side).role != Right(side)
  }

  /** Whatever the agents start as, a side leaves its right role only on a 487 for a reused id. */
  lemma LeavesOnlyByReuse(s: State, step: Step, side: Side)
    requires HistInv(s) && Leaves(s, step, side)
    ensures step.TakeReject? && step.side == side && Reused(s, side, step.e)
  {
  }

  predicate Delivery(step: Step) { step.TakeRequest? || step.TakeReject? }

  predicate Deliveries(steps: seq<Step>) { forall i :: 0 <= i < |steps| ==> Delivery(steps[i]) }

  /** Delivering what is in the network, with nothing new sent, can make the side leave its right role. */
  ghost predicate CanLeave(s: State, side: Side)
  {
    exists steps, s', step :: Deliveries(steps) && Reaches(s, steps, s') && Delivery(step) && Leaves(s', step, side)
  }

  lemma DeliveryReusesNothing(s: State, step: Step, side: Side, e: Eid)
    requires Enabled(s, step) && Delivery(step) && Reused(Apply(s, step), side, e)
    ensures Reused(s, side, e)
  {
  }

  lemma {:induction false} DeliveriesReuseNothing(s: State, steps: seq<Step>, s': State, side: Side, e: Eid)
    requires Deliveries(steps) && Reaches(s, steps, s') && Reused(s', side, e)
    ensures Reused(s, side, e)
    decreases |steps|
  {
    if steps != [] {
      var last := |steps| - 1;
      var m :| Reaches(s, steps[..last], m) && Enabled(m, steps[last]) && s' == Apply(m, steps[last]);
      DeliveryReusesNothing(m, steps[last], side, e);
      DeliveriesReuseNothing(s, steps[..last], m, side, e);
    }
  }

  lemma Extend(s0: State, steps: seq<Step>, s: State, step: Step)
    requires Reaches(s0, steps, s) && Enabled(s, step)
    ensures Reaches(s0, steps + [step], Apply(s, step))
  {
    assert (steps + [step])[..|steps|] == steps;
  }

  /** The copy sent in the right role puts the peer right, the copy sent in the wrong role is then rejected. */
  lemma ReuseLeaves(s: State, side: Side, e: Eid)
    requires HistInv(s) && A(s, side).role == Right(side) && Reused(s, side, e)
    ensures CanLeave(s, side)
  {
    var tid, o := A(s, side).entries[e].tid, Peer(side);
    var first, second := TakeRequest(o, Request(side, tid, Right(side))), TakeRequest(o, Request(side, tid, Wrong(side)));
    var s1 := Apply(s, first);
    Extend(s, [], s, first);
    assert A(s1, o).role == Right(o);
    var s2 := Apply(s1, second);
    Extend(s, [] + [first], s1, second);
    var steps := [] + [first] + [second];
    assert Deliveries(steps);
    assert Leaves(s2, TakeReject(side, Reject(side, tid), e), side);
  }

  /**
   Exactly when a side that is in its right role can be made to leave it by what is in the network:
   when it has a check last sent in that role under a transaction id first sent in the other.
   */
  lemma CanLeaveIff(s0: State, run: seq<Step>, s: State, side: Side)
    requires Init(s0) && Reaches(s0, run, s) && A(s, side).role == Right(side)
    ensures CanLeave(s, side) <==> exists e :: Reused(s, side, e)
  {
    RunKeepsHist(s0, run, s);
    if e :| Reused(s, side, e) {
      ReuseLeaves(s, side, e);
    }
    if steps, s', step :| Deliveries(steps) && Reaches(s, steps, s') && Delivery(step) && Leaves(s', step, side) {
      RunKeepsHist(s, steps, s');
      LeavesOnlyByReuse(s', step, side);
      DeliveriesReuseNothing(s, steps, s', side, step.e);
    }
  }

  // ---- Which starting roles are safe ---------------------------------------------------

  /** Once in its right role the side never leaves it. */
  ghost predicate KeepsRole(s0: State, side: Side)
  {
    forall run, s, step | Reaches(s0, run, s) :: !Leaves(s, step, side)
  }

  /** Some run puts the side into its right role. */
  ghost predicate GetsRole(s0: State, side: Side)
  {
    exists run, s :: Reaches(s0, run, s) && A(s, side).role == Right(side)
  }

  /** Both agents start in the role that loses for `side`. */
  predicate BothWrong(s0: State, side: Side) { s0.winner.role == Wrong(side) && s0.loser.role == Wrong(side) }

  /** `side` sends a check in the wrong role and it is rejected; the peer sends one as well. */
  lemma Rejected(s0: State, side: Side) returns (steps: seq<Step>, s: State)
    requires Init(s0) && BothWrong(s0, side)
    ensures Reaches(s0, steps, s) && s.used == {1, 2}
    ensures A(s, side) == Agent(Wrong(side), map[0 := Entry(1, Wrong(side), false, true)])
    ensures s.net == {Request(side, 1, Wrong(side)), Reject(side, 1), Request(Peer(side), 2, Wrong(side))}
  {
    var m := Request(side, 1, Wrong(side));
    var st1, s1 := SendsFirst(s0, [], s0, side, 1);
    var s2 := Apply(s1, TakeRequest(Peer(side), m));
    Extend(s0, st1, s1, TakeRequest(Peer(side), m));
    steps, s := SendsFirst(s0, st1 + [TakeRequest(Peer(side), m)], s2, Peer(side), 2);
  }

  lemma SendsFirst(s0: State, st: seq<Step>, s1: State, side: Side, tid: Tid) returns (steps: seq<Step>, s: State)
    requires Reaches(s0, st, s1) && A(s1, side).entries == map[] && tid !in s1.used
    ensures Reaches(s0, steps, s) && A(s, Peer(side)) == A(s1, Peer(side)) && s.used == s1.used + {tid}
    ensures A(s, side) == Agent(A(s1, side).role, map[0 := Entry(tid, A(s1, side).role, false, true)])
    ensures s.net == s1.net + {Request(side, tid, A(s1, side).role)}
  {
    var s2 := Apply(s1, Arm(side, 0));
    Extend(s0, st, s1, Arm(side, 0));
    s := Apply(s2, Send(side, 0, tid));
    Extend(s0, st + [Arm(side, 0)], s2, Send(side, 0, tid));
    steps := st + [Arm(side, 0)] + [Send(side, 0, tid)];
  }

  /**
   If both start in the role that loses for `side`, it can switch to its right role, retransmit a
   check under its old id, and be switched back by the 487 for the first copy.
   */
  lemma CanFlipBack(s0: State, side: Side) returns (steps: seq<Step>, s: State, step: Step)
    requires Init(s0) && BothWrong(s0, side)
    ensures Reaches(s0, steps, s) && Leaves(s, step, side) && Reused(s, side, 0)
  {
    var st, s1 := Rejected(s0, side);
    var win := TakeRequest(side, Request(Peer(side), 2, Wrong(side)));
    var s2 := Apply(s1, win);
    Extend(s0, st, s1, win);
    s := Apply(s2, Send(side, 0, 3));
    Extend(s0, st + [win], s2, Send(side, 0, 3));
    steps, step := st + [win] + [Send(side, 0, 3)], TakeReject(side, Reject(side, 1), 0);
  }

  /** A side keeps its right role, once it has it, exactly unless both agents start in the other. */
  lemma KeepsRoleIff(s0: State, side: Side)
    requires Init(s0)
    ensures KeepsRole(s0, side) <==> !BothWrong(s0, side)
  {
    if BothWrong(s0, side) {
      var steps, s, step := CanFlipBack(s0, side);
    } else {
      forall run, s, step | Reaches(s0, run, s) ensures !Leaves(s, step, side) {
        StaysPut(s0, run, s, step, side);
      }
    }
  }

  lemma StaysPut(s0: State, run: seq<Step>, s: State, step: Step, side: Side)
    requires Init(s0) && !BothWrong(s0, side) && Reaches(s0, run, s)
    ensures !Leaves(s, step, side)
  {
    if A(s0, side).role == Right(side) {
      RunKeepsSteady(s0, run, s, side);
      if Enabled(s, step) { SteadyKept(s, step, side); }
    } else {
      RunKeepsSwapped(s0, run, s);
    }
  }

  /**
   The larger tiebreaker, for every pair of starting roles: it always controls if and only if it
   starts controlling, it can come to control unless the other starts controlling alone, and once
   it controls it keeps control unless both start controlled.
   */
  lemma LargerControlsIff(s0: State)
    requires Init(s0)
    ensures (forall run, s | Reaches(s0, run, s) :: s.winner.role.Controlling?) <==> s0.winner.role.Controlling?
    ensures GetsRole(s0, Winner) <==> s0.winner.role.Controlling? || s0.loser.role.Controlled?
    ensures KeepsRole(s0, Winner) <==> s0.winner.role.Controlling? || s0.loser.role.Controlling?
  {
    var none: seq<Step> := [];
    assert Reaches(s0, none, s0);
    KeepsRoleIff(s0, Winner);
    if s0.winner.role.Controlling? {
      forall run, s | Reaches(s0, run, s) ensures s.winner.role.Controlling? {
        LargerControls(s0, run, s);
      }
    } else if s0.loser.role.Controlled? {
      var steps, s, step := CanFlipBack(s0, Winner);
    } else {
      forall run, s | Reaches(s0, run, s) ensures s.winner.role.Controlled? {
        RunKeepsSwapped(s0, run, s);
      }
    }
  }

  /** What a send of check `e` puts on the network. */
  lemma Sends(s: State, side: Side, e: Eid, next: Tid)
    requires Enabled(s, Send(side, e, next))
    ensures var entry, s' := A(s, side).entries[e], Apply(s, Send(side, e, next));
            && s'.net == s.net + {Request(side, if entry.expired then next else entry.tid, A(s, side).role)}
            && A(s', side).role == A(s, side).role && A(s', Peer(side)) == A(s, Peer(side))
  {
  }

  /** A check that is armed, anew or again, goes out under an id nobody has used; until then it keeps its id. */
  lemma ArmedTakesNewId(s: State, side: Side, e: Eid, next: Tid, later: Tid)
    requires next !in s.used && later !in s.used && later != next
    ensures var s1 := Apply(s, Arm(side, e));
            && Enabled(s1, Send(side, e, next))
            && var s2 := Apply(s1, Send(side, e, next));
               && s2.net == s.net + {Request(side, next, A(s, side).role)} && next in s2.used
               && Enabled(s2, Send(side, e, later)) && Apply(s2, Send(side, e, later)).net == s2.net
  {
    var s1 := Apply(s, Arm(side, e));
    var s2 := Apply(s1, Send(side, e, next));
    Sends(s1, side, e, next);
    Sends(s2, side, e, later);
    assert Request(side, next, A(s, side).role) in s2.net;
  }

  /** A 487 that counts switches the role, and the check is repeated in it under a new id. */
  lemma RejectedRepeats(s: State, side: Side, m: Msg, e: Eid, next: Tid)
    requires Enabled(s, TakeReject(side, m, e)) && A(s, side).entries[e].role == A(s, side).role && next !in s.used
    ensures var s1 := Apply(s, TakeReject(side, m, e));
            && A(s1, side).role != A(s, side).role && s1.net == s.net && Enabled(s1, Send(side, e, next))
            && Apply(s1, Send(side, e, next)).net == s.net + {Request(side, next, A(s1, side).role)}
  {
    Sends(Apply(s, TakeReject(side, m, e)), side, e, next);
  }
}
