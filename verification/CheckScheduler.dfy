/**
 The ICE check scheduler: which frozen candidate pairs get a connectivity check, in which order,
 and how many at a time.  `ordered` holds the candidate pairs by falling priority.
 */
module CheckScheduler {
  import opened Bytes
  import opened Options

  const MAX_ENTRIES := 92

  datatype PairState = Frozen | Pending | Succeeded | Failed

  datatype Pair = Pair(id: nat, priority: nat, tcpRelay: bool, state: PairState)

  /** A STUN transaction slot: a check of a pair, or a server entry without one. */
  datatype Entry = Entry(check: bool, pair: Option<nat>, pending: bool)

  datatype Mode = Strict | Serial | Limited | Phased

  /** Whether TCP relays are never used, allocated when every UDP pair failed, or allocated from the start. */
  datatype Fallback = Disable | OnAllUdpFail | AlwaysEnable

  datatype Config = Config(mode: Mode, maxConcurrent: nat, earlyMax: nat, earlyMs: int, fallback: Fallback, udpPhaseMs: int)

  // ---- What may be armed ---------------------------------------------------------------

  predicate HasEntry(entries: seq<Entry>, id: nat)
  {
    exists i :: 0 <= i < |entries| && entries[i].pair == Some(id)
  }

  /** TCP-relay pairs are held back in the UDP phase, and altogether when the fallback is off. */
  predicate Allowed(c: Config, tcpPhase: bool, p: Pair)
  {
    p.tcpRelay ==> !(c.mode.Phased? && !tcpPhase) && !c.fallback.Disable?
  }

  predicate Candidate(c: Config, tcpPhase: bool, p: Pair) { p.state.Frozen? && Allowed(c, tcpPhase, p) }

  predicate Eligible(c: Config, tcpPhase: bool, entries: seq<Entry>, p: Pair)
  {
    Candidate(c, tcpPhase, p) && !HasEntry(entries, p.id)
  }

  /** Check entries that are in progress. */
  function InProgress(entries: seq<Entry>): nat
  {
    if entries == [] then 0
    else InProgress(entries[..|entries| - 1]) + if entries[|entries| - 1].check && entries[|entries| - 1].pending then 1 else 0
  }

  function Cap(c: Config, early: bool): nat
  {
    var base := if c.maxConcurrent > 0 then c.maxConcurrent else MAX_ENTRIES;
    if early && c.earlyMax > base then c.earlyMax else base
  }

  function Budget(c: Config, early: bool, entries: seq<Entry>): nat
  {
    match c.mode
    case Strict => MAX_ENTRIES
    case Serial => 1
    case Limited => if InProgress(entries) < Cap(c, early) then Cap(c, early) - InProgress(entries) else 0
    case Phased => if InProgress(entries) < Cap(c, early) then Cap(c, early) - InProgress(entries) else 0
  }

  function Room(entries: seq<Entry>): nat { if |entries| < MAX_ENTRIES then MAX_ENTRIES - |entries| else 0 }

  /** The first `n` eligible pairs of a list. */
  function Pick(c: Config, tcpPhase: bool, entries: seq<Entry>, ps: seq<Pair>, n: nat): seq<Pair>
  {
    if ps == [] || n == 0 then []
    else if Eligible(c, tcpPhase, entries, ps[0]) then [ps[0]] + Pick(c, tcpPhase, entries, ps[1..], n - 1)
    else Pick(c, tcpPhase, entries, ps[1..], n)
  }

  /** The front of the list up to and including its first candidate: all that serial mode looks at. */
  function UpToFirst(c: Config, tcpPhase: bool, ps: seq<Pair>): seq<Pair>
  {
    if ps == [] then [] else if Candidate(c, tcpPhase, ps[0]) then [ps[0]] else [ps[0]] + UpToFirst(c, tcpPhase, ps[1..])
  }

  function CheckFor(p: Pair): Entry { Entry(true, Some(p.id), true) }

  function ChecksFor(ps: seq<Pair>): seq<Entry>
  {
    if ps == [] then [] else ChecksFor(ps[..|ps| - 1]) + [CheckFor(ps[|ps| - 1])]
  }

  // ---- Invariant -----------------------------------------------------------------------

  /** Each pair has at most one entry. */
  predicate OneEach(entries: seq<Entry>)
  {
    forall i, j :: 0 <= i < j < |entries| && entries[i].pair.Some? ==> entries[i].pair != entries[j].pair
  }

  predicate Sorted(ps: seq<Pair>) { forall i, j :: 0 <= i < j < |ps| ==> ps[i].priority >= ps[j].priority }

  predicate DistinctIds(ps: seq<Pair>) { forall i, j :: 0 <= i < j < |ps| ==> ps[i].id != ps[j].id }

  // ---- What is picked ------------------------------------------------------------------

  /** Picked pairs are eligible pairs of the list, no two the same. */
  lemma {:induction false} PickSound(c: Config, tcpPhase: bool, entries: seq<Entry>, ps: seq<Pair>, n: nat)
    requires DistinctIds(ps)
    ensures var picked := Pick(c, tcpPhase, entries, ps, n);
            && |picked| <= n && DistinctIds(picked)
            && (forall p :: p in picked ==> p in ps && Eligible(c, tcpPhase, entries, p))
    decreases |ps|
  {
    if ps != [] && n > 0 {
      PickSound(c, tcpPhase, entries, ps[1..], n - 1);
      PickSound(c, tcpPhase, entries, ps[1..], n);
      forall p | p in ps[1..] ensures p.id != ps[0].id {
        var k :| 0 <= k < |ps| - 1 && ps[1..][k] == p;
        assert ps[k + 1] == p;
      }
    }
  }

  /** Nothing eligible is passed over for a pair of lower priority, and none is left while there is budget. */
  lemma {:induction false} PickTop(c: Config, tcpPhase: bool, entries: seq<Entry>, ps: seq<Pair>, n: nat, p: Pair, q: Pair)
    requires Sorted(ps) && p in Pick(c, tcpPhase, entries, ps, n)
    requires q in ps && Eligible(c, tcpPhase, entries, q) && q !in Pick(c, tcpPhase, entries, ps, n)
    ensures p.priority >= q.priority && |Pick(c, tcpPhase, entries, ps, n)| == n
    decreases |ps|
  {
    var rest := ps[1..];
    if Eligible(c, tcpPhase, entries, ps[0]) {
      var more := Pick(c, tcpPhase, entries, rest, n - 1);
      if p in more {
        PickTop(c, tcpPhase, entries, rest, n - 1, p, q);
      } else {
        PickFull(c, tcpPhase, entries, rest, n - 1, q);
      }
    } else {
      PickTop(c, tcpPhase, entries, rest, n, p, q);
    }
  }

  lemma {:induction false} PickFull(c: Config, tcpPhase: bool, entries: seq<Entry>, ps: seq<Pair>, n: nat, q: Pair)
    requires q in ps && Eligible(c, tcpPhase, entries, q) && q !in Pick(c, tcpPhase, entries, ps, n)
    ensures |Pick(c, tcpPhase, entries, ps, n)| == n
    decreases |ps|
  {
    if n > 0 {
      var rest := ps[1..];
      if Eligible(c, tcpPhase, entries, ps[0]) {
        PickFull(c, tcpPhase, entries, rest, n - 1, q);
      } else {
        PickFull(c, tcpPhase, entries, rest, n, q);
      }
    }
  }

  // ---- What arming does to the entries -------------------------------------------------

  lemma {:induction false} ChecksCount(entries: seq<Entry>, ps: seq<Pair>)
    ensures InProgress(entries + ChecksFor(ps)) == InProgress(entries) + |ps|
    decreases |ps|
  {
    if ps == [] {
      assert entries + [] == entries;
    } else {
      var last := |ps| - 1;
      ChecksCount(entries, ps[..last]);
      var grown := entries + ChecksFor(ps[..last]);
      assert entries + ChecksFor(ps) == grown + [CheckFor(ps[last])];
      assert (grown + [CheckFor(ps[last])])[..|grown|] == grown;
    }
  }

  lemma {:induction false} ChecksLength(ps: seq<Pair>)
    ensures |ChecksFor(ps)| == |ps| && forall i :: 0 <= i < |ps| ==> ChecksFor(ps)[i] == CheckFor(ps[i])
  {
    if ps != [] { ChecksLength(ps[..|ps| - 1]); }
  }

  lemma HasEntryAfter(entries: seq<Entry>, done: seq<Pair>, id: nat)
    ensures HasEntry(entries + ChecksFor(done), id) <==> HasEntry(entries, id) || exists k :: 0 <= k < |done| && done[k].id == id
  {
    ChecksLength(done);
    var all := entries + ChecksFor(done);
    if HasEntry(entries, id) {
      var i :| 0 <= i < |entries| && entries[i].pair == Some(id);
      assert all[i] == entries[i];
    }
    if k :| 0 <= k < |done| && done[k].id == id {
      assert all[|entries| + k] == CheckFor(done[k]);
    }
    if HasEntry(all, id) {
      var i :| 0 <= i < |all| && all[i].pair == Some(id);
      if i < |entries| { assert entries[i].pair == Some(id); } else { assert done[i - |entries|].id == id; }
    }
  }

  lemma ArmOneEach(entries: seq<Entry>, p: Pair)
    requires OneEach(entries) && !HasEntry(entries, p.id)
    ensures OneEach(entries + [CheckFor(p)])
  {
  }

  /** The part of the list one call looks at. */
  function Considered(c: Config, tcpPhase: bool, ps: seq<Pair>): seq<Pair>
  {
    if c.mode.Serial? then UpToFirst(c, tcpPhase, ps) else ps
  }

  function Armed(c: Config, tcpPhase: bool, early: bool, entries: seq<Entry>, ps: seq<Pair>): seq<Pair>
  {
    Pick(c, tcpPhase, entries, Considered(c, tcpPhase, ps), Min(Budget(c, early, entries), Room(entries)))
  }

  lemma {:induction false} ConsideredIsFront(c: Config, tcpPhase: bool, ps: seq<Pair>)
    ensures Considered(c, tcpPhase, ps) <= ps
  {
    if c.mode.Serial? && ps != [] && !Candidate(c, tcpPhase, ps[0]) {
      ConsideredIsFront(c, tcpPhase, ps[1..]);
      assert ps == [ps[0]] + ps[1..];
    }
  }

  // ---- Main results --------------------------------------------------------------------

  /** In the concurrency-limited modes arming never takes the checks in progress above the cap in force. */
  lemma CapRespected(c: Config, tcpPhase: bool, early: bool, entries: seq<Entry>, ps: seq<Pair>)
    requires (c.mode.Limited? || c.mode.Phased?) && DistinctIds(ps)
    ensures var armed := Armed(c, tcpPhase, early, entries, ps);
            var after := entries + ChecksFor(armed);
            && InProgress(after) == InProgress(entries) + |armed|
            && (armed != [] ==> InProgress(after) <= Cap(c, early))
            && (|entries| <= MAX_ENTRIES ==> |after| <= MAX_ENTRIES)
  {
    var armed := Armed(c, tcpPhase, early, entries, ps);
    PickSound(c, tcpPhase, entries, ps, Min(Budget(c, early, entries), Room(entries)));
    ChecksCount(entries, armed);
    ChecksLength(armed);
  }

  /**
   What is armed is eligible, and outside serial mode no eligible pair is left out that has a
   higher priority, or while budget and room remain.
   */
  lemma HighestPriorityFirst(c: Config, tcpPhase: bool, early: bool, entries: seq<Entry>, ps: seq<Pair>, q: Pair)
    requires Sorted(ps) && DistinctIds(ps) && !c.mode.Serial?
    requires q in ps && Eligible(c, tcpPhase, entries, q) && q !in Armed(c, tcpPhase, early, entries, ps)
    ensures var armed := Armed(c, tcpPhase, early, entries, ps);
            && |armed| == Min(Budget(c, early, entries), Room(entries))
            && (forall p :: p in armed ==> p.priority >= q.priority && Eligible(c, tcpPhase, entries, p))
  {
    var n := Min(Budget(c, early, entries), Room(entries));
    PickSound(c, tcpPhase, entries, ps, n);
    PickFull(c, tcpPhase, entries, ps, n, q);
    forall p | p in Armed(c, tcpPhase, early, entries, ps) ensures p.priority >= q.priority {
      PickTop(c, tcpPhase, entries, ps, n, p, q);
    }
  }

  /** The configured limit, or the table size if there is none; a larger early limit replaces it during the early window. */
  lemma CapIs(c: Config, early: bool)
    ensures !early || c.earlyMax == 0 ==> Cap(c, early) == if c.maxConcurrent == 0 then MAX_ENTRIES else c.maxConcurrent
    ensures early && c.maxConcurrent > 0 ==> Cap(c, early) >= c.maxConcurrent && Cap(c, early) >= c.earlyMax
    ensures early && c.maxConcurrent > 0 ==> Cap(c, early) == c.maxConcurrent || Cap(c, early) == c.earlyMax
    ensures early && c.maxConcurrent == 0 ==> Cap(c, early) == if c.earlyMax > MAX_ENTRIES then c.earlyMax else MAX_ENTRIES
  {
  }

  /** The checks in progress are the pending check entries. */
  lemma {:induction false} InProgressIs(entries: seq<Entry>)
    ensures InProgress(entries) == |set i | 0 <= i < |entries| && entries[i].check && entries[i].pending|
  {
    if entries != [] {
      var last := |entries| - 1;
      var front := entries[..last];
      InProgressIs(front);
      var all := set i | 0 <= i < |entries| && entries[i].check && entries[i].pending;
      var some := set i | 0 <= i < |front| && front[i].check && front[i].pending;
      assert all == some + if entries[last].check && entries[last].pending then {last} else {};
    }
  }

  /** A pair that may be armed now: frozen, without an entry, and no TCP relay where those are held back or off. */
  predicate MayArm(c: Config, tcpPhase: bool, entries: seq<Entry>, p: Pair)
  {
    && p.state == Frozen && (forall i :: 0 <= i < |entries| ==> entries[i].pair != Some(p.id))
    && (p.tcpRelay ==> c.fallback != Disable && (c.mode == Phased ==> tcpPhase))
  }

  /** Only such pairs are armed, each once, and an entry in progress is made for each. */
  lemma ArmedMayArm(c: Config, tcpPhase: bool, early: bool, entries: seq<Entry>, ps: seq<Pair>, p: Pair)
    requires DistinctIds(ps) && p in Armed(c, tcpPhase, early, entries, ps)
    ensures p in ps && MayArm(c, tcpPhase, entries, p)
    ensures Entry(true, Some(p.id), true) in ChecksFor(Armed(c, tcpPhase, early, entries, ps))
  {
    var front := Considered(c, tcpPhase, ps);
    ConsideredIsFront(c, tcpPhase, ps);
    assert forall i :: 0 <= i < |front| ==> front[i] == ps[i];
    PickSound(c, tcpPhase, entries, front, Min(Budget(c, early, entries), Room(entries)));
    ChecksLength(Armed(c, tcpPhase, early, entries, ps));
    var k :| 0 <= k < |Armed(c, tcpPhase, early, entries, ps)| && Armed(c, tcpPhase, early, entries, ps)[k] == p;
    assert ChecksFor(Armed(c, tcpPhase, early, entries, ps))[k] == CheckFor(p);
  }

  /** Strict mode arms every pair that may be armed, until the table is full. */
  lemma StrictArmsAll(c: Config, tcpPhase: bool, early: bool, entries: seq<Entry>, ps: seq<Pair>, q: Pair)
    requires c.mode.Strict? && Sorted(ps) && DistinctIds(ps) && |entries| <= MAX_ENTRIES
    requires q in ps && MayArm(c, tcpPhase, entries, q) && q !in Armed(c, tcpPhase, early, entries, ps)
    ensures |entries| + |Armed(c, tcpPhase, early, entries, ps)| == MAX_ENTRIES
  {
    HighestPriorityFirst(c, tcpPhase, early, entries, ps, q);
  }

  /** The limited modes do so until the checks in progress reach the cap, or the table is full. */
  lemma LimitedArmsToCap(c: Config, tcpPhase: bool, early: bool, entries: seq<Entry>, ps: seq<Pair>, q: Pair)
    requires (c.mode.Limited? || c.mode.Phased?) && Sorted(ps) && DistinctIds(ps) && |entries| <= MAX_ENTRIES
    requires q in ps && MayArm(c, tcpPhase, entries, q) && q !in Armed(c, tcpPhase, early, entries, ps)
    ensures var after := entries + ChecksFor(Armed(c, tcpPhase, early, entries, ps));
            InProgress(after) >= Cap(c, early) || |after| == MAX_ENTRIES
  {
    HighestPriorityFirst(c, tcpPhase, early, entries, ps, q);
    CapRespected(c, tcpPhase, early, entries, ps);
    ChecksLength(Armed(c, tcpPhase, early, entries, ps));
  }

  /** Serial mode looks at the first frozen pair that is not held back, and arms it if it has no entry and there is room. */
  lemma SerialArmsFirst(c: Config, tcpPhase: bool, early: bool, entries: seq<Entry>, ps: seq<Pair>, k: nat)
    requires c.mode.Serial? && k < |ps| && MayArm(c, tcpPhase, [], ps[k])
    requires forall i :: 0 <= i < k ==> !MayArm(c, tcpPhase, [], ps[i])
    ensures Armed(c, tcpPhase, early, entries, ps) ==
            if |entries| < MAX_ENTRIES && MayArm(c, tcpPhase, entries, ps[k]) then [ps[k]] else []
  {
    assert forall i :: 0 <= i < |ps| ==> (MayArm(c, tcpPhase, [], ps[i]) <==> Candidate(c, tcpPhase, ps[i]));
    SerialPicks(c, tcpPhase, entries, ps, k, Min(1, Room(entries)));
  }

  lemma {:induction false} SerialPicks(c: Config, tcpPhase: bool, entries: seq<Entry>, ps: seq<Pair>, k: nat, n: nat)
    requires k < |ps| && Candidate(c, tcpPhase, ps[k]) && n <= 1
    requires forall i :: 0 <= i < k ==> !Candidate(c, tcpPhase, ps[i])
    ensures Pick(c, tcpPhase, entries, UpToFirst(c, tcpPhase, ps), n) ==
            if n == 1 && Eligible(c, tcpPhase, entries, ps[k]) then [ps[k]] else []
    decreases k
  {
    if k > 0 {
      SerialPicks(c, tcpPhase, entries, ps[1..], k - 1, n);
      assert UpToFirst(c, tcpPhase, ps)[1..] == UpToFirst(c, tcpPhase, ps[1..]);
    } else {
      assert [ps[0]][1..] == [];
    }
  }

  /** In phased mode no TCP-relay pair is armed before the TCP phase. */
  lemma UdpFirst(c: Config, early: bool, entries: seq<Entry>, ps: seq<Pair>)
    requires c.mode.Phased? && DistinctIds(ps)
    ensures forall p :: p in Armed(c, false, early, entries, ps) ==> !p.tcpRelay
  {
    PickSound(c, false, entries, ps, Min(Budget(c, early, entries), Room(entries)));
  }

  // ---- The scheduler -------------------------------------------------------------------

  /** Every UDP pair has failed, or there is none. */
  predicate UdpExhausted(ps: seq<Pair>)
  {
    forall i :: 0 <= i < |ps| && !ps[i].tcpRelay ==> ps[i].state.Failed?
  }

  /** Phased mode moves on when the UDP phase timed out or has nothing left to try. */
  predicate UdpPhaseOver(c: Config, start: int, ps: seq<Pair>, now: int)
  {
    c.mode.Phased? && ((c.udpPhaseMs > 0 && start != 0 && now - start >= c.udpPhaseMs) || UdpExhausted(ps))
  }

  /** Relay entries for `n` servers, as long as there is room. */
  function WithRelays(entries: seq<Entry>, n: nat): seq<Entry>
    decreases n
  {
    if n == 0 || |entries| >= MAX_ENTRIES then entries else WithRelays(entries + [Entry(false, None, false)], n - 1)
  }

  lemma RelayKeeps(entries: seq<Entry>)
    requires OneEach(entries)
    ensures var more := entries + [Entry(false, None, false)];
            OneEach(more) && InProgress(more) == InProgress(entries)
  {
    assert (entries + [Entry(false, None, false)])[..|entries|] == entries;
  }

  lemma RelayNamesNone(entries: seq<Entry>, id: nat)
    ensures HasEntry(entries + [Entry(false, None, false)], id) <==> HasEntry(entries, id)
  {
    var more := entries + [Entry(false, None, false)];
    if HasEntry(entries, id) {
      var i :| 0 <= i < |entries| && entries[i].pair == Some(id);
      assert more[i].pair == Some(id);
    }
  }

  /** They are no checks and leave what is there alone. */
  lemma {:induction false} RelaysKeep(entries: seq<Entry>, n: nat)
    requires OneEach(entries) && |entries| <= MAX_ENTRIES
    ensures var after := WithRelays(entries, n);
            && OneEach(after) && InProgress(after) == InProgress(entries)
            && |after| == |entries| + Min(n, Room(entries)) && entries <= after
    decreases n
  {
    if n > 0 && |entries| < MAX_ENTRIES {
      RelayKeeps(entries);
      RelaysKeep(entries + [Entry(false, None, false)], n - 1);
    }
  }

  /** They take no pair. */
  lemma {:induction false} RelaysNameNone(entries: seq<Entry>, n: nat, id: nat)
    ensures HasEntry(WithRelays(entries, n), id) <==> HasEntry(entries, id)
    decreases n
  {
    if n > 0 && |entries| < MAX_ENTRIES {
      RelayNamesNone(entries, id);
      RelaysNameNone(entries + [Entry(false, None, false)], n - 1, id);
    }
  }

  /** What remains to be armed after the pairs before `i` were looked at. */
  predicate ArmedSoFar(c: Config, tcpPhase: bool, entries: seq<Entry>, ps: seq<Pair>, i: nat, done: seq<Pair>, n: nat)
    requires i <= |ps|
  {
    && |done| <= n
    && Pick(c, tcpPhase, entries, Considered(c, tcpPhase, ps), n)
       == done + Pick(c, tcpPhase, entries, Considered(c, tcpPhase, ps[i..]), n - |done|)
    && forall p :: p in done ==> p in ps[..i]
  }

  lemma SkipStep(c: Config, tcpPhase: bool, entries: seq<Entry>, ps: seq<Pair>, i: nat, done: seq<Pair>, n: nat)
    requires i < |ps| && ArmedSoFar(c, tcpPhase, entries, ps, i, done, n)
    requires !Candidate(c, tcpPhase, ps[i]) || (!c.mode.Serial? && (HasEntry(entries, ps[i].id) || |done| == n))
    ensures ArmedSoFar(c, tcpPhase, entries, ps, i + 1, done, n)
  {
    assert ps[i..] == [ps[i]] + ps[i + 1..];
    assert ps[i..][1..] == ps[i + 1..];
    assert ps[..i + 1] == ps[..i] + [ps[i]];
  }

  lemma ArmStep(c: Config, tcpPhase: bool, entries: seq<Entry>, ps: seq<Pair>, i: nat, done: seq<Pair>, n: nat)
    requires i < |ps| && ArmedSoFar(c, tcpPhase, entries, ps, i, done, n) && |done| < n
    requires Eligible(c, tcpPhase, entries, ps[i]) && !c.mode.Serial?
    ensures ArmedSoFar(c, tcpPhase, entries, ps, i + 1, done + [ps[i]], n)
  {
    assert ps[i..][1..] == ps[i + 1..];
    assert ps[..i + 1] == ps[..i] + [ps[i]];
    var rest := Pick(c, tcpPhase, entries, ps[i + 1..], n - |done| - 1);
    assert done + ([ps[i]] + rest) == done + [ps[i]] + rest;
  }

  /** Serial mode stops at the first candidate, armed or not. */
  lemma SerialStop(c: Config, tcpPhase: bool, entries: seq<Entry>, ps: seq<Pair>, i: nat, n: nat)
    requires i < |ps| && ArmedSoFar(c, tcpPhase, entries, ps, i, [], n) && c.mode.Serial? && Candidate(c, tcpPhase, ps[i])
    ensures Pick(c, tcpPhase, entries, Considered(c, tcpPhase, ps), n)
            == if n > 0 && !HasEntry(entries, ps[i].id) then [ps[i]] else []
  {
    var one := [ps[i]];
    assert UpToFirst(c, tcpPhase, ps[i..]) == one && one[1..] == [];
    var rest := Pick(c, tcpPhase, entries, one, n);
    assert [] + rest == rest;
    assert Pick(c, tcpPhase, entries, one[1..], n) == [];
    if n > 0 { assert Pick(c, tcpPhase, entries, one[1..], n - 1) == []; }
  }

  /** The pair looked at is not among those armed before it. */
  lemma NotYetArmed(entries: seq<Entry>, ps: seq<Pair>, i: nat, done: seq<Pair>)
    requires i < |ps| && DistinctIds(ps) && forall p :: p in done ==> p in ps[..i]
    ensures HasEntry(entries + ChecksFor(done), ps[i].id) <==> HasEntry(entries, ps[i].id)
  {
    HasEntryAfter(entries, done, ps[i].id);
    forall k | 0 <= k < |done| ensures done[k].id != ps[i].id {
      assert done[k] in ps[..i];
    }
  }

  method FindEntry(entries: seq<Entry>, id: nat) returns (found: bool, at: nat)
    ensures found == HasEntry(entries, id)
    ensures found ==> at < |entries| && entries[at].pair == Some(id)
  {
    for i := 0 to |entries|
      invariant forall j :: 0 <= j < i ==> entries[j].pair != Some(id)
    {
      if entries[i].pair == Some(id) { return true, i; }
    }
    found, at := false, 0;
  }

  /** The entries after a triggered check of a pair: its entry is pending again, or there is a new one if there is room. */
  ghost predicate Triggered(before: seq<Entry>, id: nat, after: seq<Entry>)
  {
    if HasEntry(before, id) then
      && |after| == |before|
      && forall j :: 0 <= j < |before| ==>
           after[j] == if before[j].pair == Some(id) then before[j].(pending := true) else before[j]
    else after == if |before| < MAX_ENTRIES then before + [Entry(true, Some(id), true)] else before
  }

  /** Re-arming an entry counts at most one more check in progress. */
  lemma {:induction false} RearmCount(entries: seq<Entry>, at: nat)
    requires at < |entries|
    ensures InProgress(entries[at := entries[at].(pending := true)])
            == InProgress(entries) + if entries[at].check && !entries[at].pending then 1 else 0
    decreases |entries|
  {
    var last := |entries| - 1;
    var after := entries[at := entries[at].(pending := true)];
    if at < last {
      RearmCount(entries[..last], at);
      assert after[..last] == entries[..last][at := entries[at].(pending := true)];
    } else {
      assert after[..last] == entries[..last];
    }
  }

  /** The pair of a triggered check gets a new check in progress, or its old one is started again. */
  predicate Starts(before: seq<Entry>, id: nat)
  {
    if HasEntry(before, id) then exists i :: 0 <= i < |before| && before[i].pair == Some(id) && before[i].check && !before[i].pending
    else |before| < MAX_ENTRIES
  }

  /** A triggered check keeps one entry per pair and adds one check in progress exactly if it starts one. */
  lemma TriggeredAdds(before: seq<Entry>, id: nat, after: seq<Entry>)
    requires OneEach(before) && Triggered(before, id, after)
    ensures OneEach(after) && InProgress(after) == InProgress(before) + if Starts(before, id) then 1 else 0
  {
    if HasEntry(before, id) {
      var at :| 0 <= at < |before| && before[at].pair == Some(id);
      assert after == before[at := before[at].(pending := true)];
      RearmCount(before, at);
      assert Starts(before, id) <==> before[at].check && !before[at].pending;
    } else if |before| < MAX_ENTRIES {
      assert after[..|before|] == before;
    }
  }

  /** So it exceeds the cap exactly if the cap was reached and it starts one. */
  lemma ExceedsCapIff(c: Config, early: bool, before: seq<Entry>, id: nat, after: seq<Entry>)
    requires OneEach(before) && Triggered(before, id, after) && InProgress(before) <= Cap(c, early)
    ensures InProgress(after) > Cap(c, early) <==> InProgress(before) == Cap(c, early) && Starts(before, id)
  {
    TriggeredAdds(before, id, after);
  }

  lemma {:induction false} InProgressAtMost(entries: seq<Entry>)
    ensures InProgress(entries) <= |entries|
  {
    if entries != [] { InProgressAtMost(entries[..|entries| - 1]); }
  }

  function FrozenPairs(n: nat): seq<Pair> { seq(n, i requires 0 <= i < n => Pair(i, 0, false, Frozen)) }

  lemma {:induction false} PickPlain(c: Config, tcpPhase: bool, ps: seq<Pair>, n: nat)
    requires n <= |ps| && forall i :: 0 <= i < |ps| ==> ps[i].state.Frozen? && !ps[i].tcpRelay
    ensures Pick(c, tcpPhase, [], ps, n) == ps[..n]
    decreases |ps|
  {
    if n > 0 {
      PickPlain(c, tcpPhase, ps[1..], n - 1);
      assert Eligible(c, tcpPhase, [], ps[0]);
    }
  }

  /** Arming from an empty table fills any cap below the table's size. */
  lemma ArmingFillsCap(c: Config, tcpPhase: bool, early: bool)
    requires (c.mode.Limited? || c.mode.Phased?) && Cap(c, early) < MAX_ENTRIES
    ensures var n := Cap(c, early);
            Armed(c, tcpPhase, early, [], FrozenPairs(n + 1)) == FrozenPairs(n)
  {
    var n := Cap(c, early);
    PickPlain(c, tcpPhase, FrozenPairs(n + 1), n);
    assert FrozenPairs(n + 1)[..n] == FrozenPairs(n);
  }

  lemma CountChecks(ps: seq<Pair>)
    ensures |ChecksFor(ps)| == |ps| && InProgress(ChecksFor(ps)) == |ps|
  {
    ChecksLength(ps);
    ChecksCount([], ps);
    assert [] + ChecksFor(ps) == ChecksFor(ps);
  }

  lemma NumberedOneEach(entries: seq<Entry>)
    requires forall i :: 0 <= i < |entries| ==> entries[i].pair == Some(i)
    ensures OneEach(entries) && !HasEntry(entries, |entries|)
  {
  }

  lemma NumberedChecks(n: nat)
    ensures |ChecksFor(FrozenPairs(n))| == n
    ensures forall i :: 0 <= i < n ==> ChecksFor(FrozenPairs(n))[i].pair == Some(i)
  {
    ChecksLength(FrozenPairs(n));
  }

  /** A table with one check in progress for each of `n` pairs. */
  lemma FullTable(n: nat)
    ensures var before := ChecksFor(FrozenPairs(n));
            |before| == n && InProgress(before) == n && OneEach(before) && !HasEntry(before, n)
  {
    CountChecks(FrozenPairs(n));
    NumberedChecks(n);
    NumberedOneEach(ChecksFor(FrozenPairs(n)));
  }

  /**
   In the limited modes triggered checks can exceed the cap if and only if it is below the size of
   the table: arming fills the cap, then the peer's request on one more pair exceeds it.
   */
  lemma CapCanBeExceededIff(c: Config, tcpPhase: bool, early: bool)
    requires c.mode.Limited? || c.mode.Phased?
    ensures CanExceed(c, early) <==> Cap(c, early) < MAX_ENTRIES
    ensures Cap(c, early) < MAX_ENTRIES ==>
              var n := Cap(c, early);
              var before := ChecksFor(Armed(c, tcpPhase, early, [], FrozenPairs(n + 1)));
              InProgress(before) == n && Exceeds(c, early, before, n, before + [Entry(true, Some(n), true)])
  {
    if Cap(c, early) < MAX_ENTRIES {
      ExceedingRun(c, tcpPhase, early);
    } else {
      forall before, id, after | Exceeds(c, early, before, id, after) ensures false {
        InProgressAtMost(after);
      }
    }
  }

  /** A triggered check takes a table within the cap over it. */
  ghost predicate Exceeds(c: Config, early: bool, before: seq<Entry>, id: nat, after: seq<Entry>)
  {
    && OneEach(before) && |before| <= MAX_ENTRIES && InProgress(before) <= Cap(c, early)
    && Triggered(before, id, after) && InProgress(after) > Cap(c, early)
  }

  ghost predicate CanExceed(c: Config, early: bool) { exists before, id, after :: Exceeds(c, early, before, id, after) }

  lemma ExceedingRun(c: Config, tcpPhase: bool, early: bool)
    requires (c.mode.Limited? || c.mode.Phased?) && Cap(c, early) < MAX_ENTRIES
    ensures var n := Cap(c, early);
            var before := ChecksFor(Armed(c, tcpPhase, early, [], FrozenPairs(n + 1)));
            InProgress(before) == n && Exceeds(c, early, before, n, before + [Entry(true, Some(n), true)])
  {
    var n := Cap(c, early);
    ArmingFillsCap(c, tcpPhase, early);
    FullTable(n);
    var before := ChecksFor(FrozenPairs(n));
    ExceedsCapIff(c, early, before, n, before + [Entry(true, Some(n), true)]);
  }

  /** The arming loop: walk the pairs, add checks, stop at the budget or, in serial mode, at the first candidate. */
  method ArmInto(c: Config, tcpPhase: bool, entries: seq<Entry>, ps: seq<Pair>, budget: nat) returns (after: seq<Entry>)
    requires OneEach(entries) && |entries| <= MAX_ENTRIES && DistinctIds(ps)
    ensures OneEach(after) && |after| <= MAX_ENTRIES
    ensures after == entries + ChecksFor(Pick(c, tcpPhase, entries, Considered(c, tcpPhase, ps), Min(budget, Room(entries))))
  {
    after := entries;
    ghost var done: seq<Pair> := [];
    var i, stop := 0, budget == 0;
    NothingArmed(c, tcpPhase, entries, ps, budget);
    while i < |ps| && !stop
      invariant i <= |ps| && Grown(entries, done, after) && Walked(c, tcpPhase, entries, ps, budget, i, done, stop)
      decreases |ps| - i
    {
      after, stop, done := Look(c, tcpPhase, entries, ps, budget, i, after, |after| - |entries|, done);
      i := i + 1;
    }
    if !stop { Exhausted(c, tcpPhase, entries, ps, done, Min(budget, Room(entries))); }
  }

  lemma NothingArmed(c: Config, tcpPhase: bool, entries: seq<Entry>, ps: seq<Pair>, budget: nat)
    requires OneEach(entries) && |entries| <= MAX_ENTRIES
    ensures Grown(entries, [], entries) && Walked(c, tcpPhase, entries, ps, budget, 0, [], budget == 0)
  {
    var all := Pick(c, tcpPhase, entries, Considered(c, tcpPhase, ps), Min(budget, Room(entries)));
    assert ps[0..] == ps && [] + all == all && entries + [] == entries;
  }

  lemma Exhausted(c: Config, tcpPhase: bool, entries: seq<Entry>, ps: seq<Pair>, done: seq<Pair>, n: nat)
    requires ArmedSoFar(c, tcpPhase, entries, ps, |ps|, done, n)
    ensures Pick(c, tcpPhase, entries, Considered(c, tcpPhase, ps), n) == done
  {
    assert ps[|ps|..] == [];
    assert done + [] == done;
  }

  lemma BudgetUsed(c: Config, tcpPhase: bool, entries: seq<Entry>, ps: seq<Pair>, i: nat, done: seq<Pair>, n: nat)
    requires i <= |ps| && ArmedSoFar(c, tcpPhase, entries, ps, i, done, n) && |done| == n
    ensures Pick(c, tcpPhase, entries, Considered(c, tcpPhase, ps), n) == done
  {
    assert done + [] == done;
  }

  lemma ChecksAppend(done: seq<Pair>, p: Pair)
    ensures ChecksFor(done + [p]) == ChecksFor(done) + [CheckFor(p)]
  {
    assert (done + [p])[..|done|] == done;
  }

  /** The loop's state after `i` pairs: either still going, or stopped with everything armed. */
  predicate Walked(c: Config, tcpPhase: bool, entries: seq<Entry>, ps: seq<Pair>, budget: nat, i: nat, done: seq<Pair>, stop: bool)
    requires i <= |ps|
  {
    var n := Min(budget, Room(entries));
    if stop then done == Pick(c, tcpPhase, entries, Considered(c, tcpPhase, ps), n)
    else ArmedSoFar(c, tcpPhase, entries, ps, i, done, n) && |done| < budget && (c.mode.Serial? ==> done == [])
  }

  lemma WalkPast(c: Config, tcpPhase: bool, entries: seq<Entry>, ps: seq<Pair>, budget: nat, i: nat, done: seq<Pair>)
    requires i < |ps| && Walked(c, tcpPhase, entries, ps, budget, i, done, false) && !Candidate(c, tcpPhase, ps[i])
    ensures Walked(c, tcpPhase, entries, ps, budget, i + 1, done, false)
  {
    SkipStep(c, tcpPhase, entries, ps, i, done, Min(budget, Room(entries)));
  }

  /** A candidate in serial mode ends the walk. */
  lemma WalkSerial(c: Config, tcpPhase: bool, entries: seq<Entry>, ps: seq<Pair>, budget: nat, i: nat, done: seq<Pair>, arm: bool)
    requires i < |ps| && Walked(c, tcpPhase, entries, ps, budget, i, done, false) && Candidate(c, tcpPhase, ps[i])
    requires c.mode.Serial? && (arm <==> !HasEntry(entries, ps[i].id) && |entries| + |done| < MAX_ENTRIES)
    ensures Walked(c, tcpPhase, entries, ps, budget, i + 1, if arm then done + [ps[i]] else done, true)
  {
    SerialStop(c, tcpPhase, entries, ps, i, Min(budget, Room(entries)));
  }

  /** A candidate in the other modes is armed if it has no entry and there is room. */
  lemma WalkOn(c: Config, tcpPhase: bool, entries: seq<Entry>, ps: seq<Pair>, budget: nat, i: nat, done: seq<Pair>, arm: bool)
    requires i < |ps| && Walked(c, tcpPhase, entries, ps, budget, i, done, false) && Candidate(c, tcpPhase, ps[i])
    requires !c.mode.Serial? && (arm <==> !HasEntry(entries, ps[i].id) && |entries| + |done| < MAX_ENTRIES)
    ensures if arm then Walked(c, tcpPhase, entries, ps, budget, i + 1, done + [ps[i]], |done| + 1 >= budget)
            else Walked(c, tcpPhase, entries, ps, budget, i + 1, done, false)
  {
    var n := Min(budget, Room(entries));
    if arm {
      ArmStep(c, tcpPhase, entries, ps, i, done, n);
      if |done| + 1 >= budget { BudgetUsed(c, tcpPhase, entries, ps, i + 1, done + [ps[i]], n); }
    } else {
      SkipStep(c, tcpPhase, entries, ps, i, done, n);
    }
  }

  /** The entries so far are the old ones and one check for each pair armed. */
  predicate Grown(entries: seq<Entry>, done: seq<Pair>, after: seq<Entry>)
  {
    OneEach(after) && after == entries + ChecksFor(done) && |after| == |entries| + |done| <= MAX_ENTRIES
  }

  lemma GrowOne(entries: seq<Entry>, done: seq<Pair>, after: seq<Entry>, p: Pair)
    requires Grown(entries, done, after) && !HasEntry(after, p.id) && |after| < MAX_ENTRIES
    ensures Grown(entries, done + [p], after + [CheckFor(p)])
  {
    ArmOneEach(after, p);
    ChecksAppend(done, p);
    assert entries + (ChecksFor(done) + [CheckFor(p)]) == entries + ChecksFor(done) + [CheckFor(p)];
  }

  lemma WalkedNotArmed(c: Config, tcpPhase: bool, entries: seq<Entry>, ps: seq<Pair>, budget: nat, i: nat, done: seq<Pair>)
    requires i < |ps| && DistinctIds(ps) && Walked(c, tcpPhase, entries, ps, budget, i, done, false)
    ensures HasEntry(entries + ChecksFor(done), ps[i].id) <==> HasEntry(entries, ps[i].id)
  {
    NotYetArmed(entries, ps, i, done);
  }

  /** Look at one pair. */
  method Look(c: Config, tcpPhase: bool, ghost entries: seq<Entry>, ps: seq<Pair>, budget: nat, i: nat, before: seq<Entry>,
              armed: nat, ghost done: seq<Pair>)
    returns (after: seq<Entry>, stop: bool, ghost done': seq<Pair>)
    requires i < |ps| && DistinctIds(ps) && Grown(entries, done, before) && armed == |done|
    requires Walked(c, tcpPhase, entries, ps, budget, i, done, false)
    ensures Grown(entries, done', after) && Walked(c, tcpPhase, entries, ps, budget, i + 1, done', stop)
  {
    after, stop, done' := before, false, done;
    if !Candidate(c, tcpPhase, ps[i]) {
      WalkPast(c, tcpPhase, entries, ps, budget, i, done);
      return;
    }
    var found, _ := FindEntry(before, ps[i].id);
    WalkedNotArmed(c, tcpPhase, entries, ps, budget, i, done);
    var arm := !found && |before| < MAX_ENTRIES;
    if c.mode.Serial? {
      WalkSerial(c, tcpPhase, entries, ps, budget, i, done, arm);
      stop := true;
    } else {
      WalkOn(c, tcpPhase, entries, ps, budget, i, done, arm);
      stop := arm && armed + 1 >= budget;
    }
    if arm {
      GrowOne(entries, done, before, ps[i]);
      after, done' := before + [CheckFor(ps[i])], done + [ps[i]];
    }
  }

  /** How many of the servers resolve. */
  function Resolved(servers: seq<bool>): nat
  {
    if servers == [] then 0 else (if servers[0] then 1 else 0) + Resolved(servers[1..])
  }

  lemma {:induction false} ResolvedLast(servers: seq<bool>)
    requires servers != []
    ensures Resolved(servers) == Resolved(servers[..|servers| - 1]) + if servers[|servers| - 1] then 1 else 0
  {
    if |servers| > 1 {
      ResolvedLast(servers[1..]);
      assert servers[1..][..|servers| - 2] == servers[..|servers| - 1][1..];
    }
  }

  /** The number of resolved servers. */
  lemma {:induction false} ResolvedIs(servers: seq<bool>)
    ensures Resolved(servers) == |set i | 0 <= i < |servers| && servers[i]|
  {
    if servers != [] {
      var last := |servers| - 1;
      var front := servers[..last];
      ResolvedIs(front);
      ResolvedLast(servers);
      var all := set i | 0 <= i < |servers| && servers[i];
      var some := set i | 0 <= i < |front| && front[i];
      assert all == some + if servers[last] then {last} else {};
    }
  }

  method CheckExhausted(ps: seq<Pair>) returns (exhausted: bool)
    ensures exhausted == UdpExhausted(ps)
  {
    for i := 0 to |ps|
      invariant forall j :: 0 <= j < i && !ps[j].tcpRelay ==> ps[j].state.Failed?
    {
      if !ps[i].tcpRelay && !ps[i].state.Failed? { return false; }
    }
    exhausted := true;
  }

  class Scheduler {
    const cfg: Config
    var ordered: seq<Pair>
    var entries: seq<Entry>
    var tcpPhase: bool
    var early: bool
    var checkingStart: int
    var udpPhaseStart: int
    /** The TCP servers put off while gathering, each with whether its name resolves. */
    var deferred: seq<bool>
    var deferredCreated: bool

    ghost predicate Valid()
      reads this
    {
      OneEach(entries) && |entries| <= MAX_ENTRIES && Sorted(ordered) && DistinctIds(ordered)
    }

    constructor (cfg: Config)
      ensures Valid() && entries == [] && !tcpPhase && this.cfg == cfg && deferred == [] && !deferredCreated
    {
      this.cfg := cfg;
      deferred, deferredCreated := [], false;
      ordered, entries, tcpPhase, early, checkingStart, udpPhaseStart := [], [], false, false, 0, 0;
    }

    /** Whether the UDP phase ends now. */
    predicate Enters(now: int)
      reads this
    {
      !tcpPhase && UdpPhaseOver(cfg, udpPhaseStart, ordered, now)
    }

    /** The entries once the phase was looked at: entering it may create the allocations put off. */
    function AfterPhase(now: int): seq<Entry>
      reads this
    {
      if Enters(now) && cfg.fallback.OnAllUdpFail? && !deferredCreated then WithRelays(entries, Resolved(deferred)) else entries
    }

    /** The UDP phase ends when it times out, when every UDP pair failed, or when there is none. */
    method MaybeEnterTcpPhase(now: int)
      requires Valid()
      modifies this`tcpPhase, this`entries, this`deferredCreated
      ensures Valid() && entries == old(AfterPhase(now)) && InProgress(entries) == InProgress(old(entries))
      ensures tcpPhase <==> old(tcpPhase) || UdpPhaseOver(cfg, udpPhaseStart, ordered, now)
      ensures deferredCreated <==> old(deferredCreated) || (old(Enters(now)) && cfg.fallback.OnAllUdpFail?)
    {
      if !cfg.mode.Phased? || tcpPhase { return; }
      var timedOut := cfg.udpPhaseMs > 0 && udpPhaseStart != 0 && now - udpPhaseStart >= cfg.udpPhaseMs;
      var exhausted := CheckExhausted(ordered);
      if !(timedOut || exhausted) { return; }
      tcpPhase := true;
      if cfg.fallback.OnAllUdpFail? && !deferredCreated { CreateDeferred(); }
    }

    /** Start the allocations put off while gathering; a server that does not resolve is skipped. */
    method CreateDeferred()
      requires Valid()
      modifies this`entries, this`deferredCreated
      ensures Valid() && entries == WithRelays(old(entries), Resolved(deferred)) && deferredCreated
      ensures InProgress(entries) == InProgress(old(entries))
    {
      deferredCreated := true;
      RelaysKeep(entries, Resolved(deferred));
      for k := 0 to |deferred|
        invariant deferredCreated
        invariant WithRelays(old(entries), Resolved(deferred)) == WithRelays(entries, Resolved(deferred[k..]))
      {
        if deferred[k] && |entries| < MAX_ENTRIES { entries := entries + [Entry(false, None, false)]; }
        assert deferred[k..][1..] == deferred[k + 1..];
      }
    }

    method RefreshEarly(now: int)
      modifies this`early
      ensures early <==> old(early) && checkingStart != 0 && now - checkingStart < cfg.earlyMs
    {
      if early && (checkingStart == 0 || now - checkingStart >= cfg.earlyMs) { early := false; }
    }

    method CountInProgress() returns (n: nat)
      ensures n == InProgress(entries)
    {
      n := 0;
      for i := 0 to |entries|
        invariant n == InProgress(entries[..i])
      {
        assert entries[..i + 1][..i] == entries[..i];
        if entries[i].check && entries[i].pending { n := n + 1; }
      }
      assert entries[..|entries|] == entries;
    }

    /** Arm as many frozen pairs as the mode allows, best first. */
    method ArmNextFrozenPair(now: int)
      requires Valid()
      modifies this`entries, this`tcpPhase, this`early, this`deferredCreated
      ensures Valid()
      ensures tcpPhase <==> old(tcpPhase) || UdpPhaseOver(cfg, udpPhaseStart, ordered, now)
      ensures early <==> old(early) && checkingStart != 0 && now - checkingStart < cfg.earlyMs
      ensures entries == old(AfterPhase(now)) + ChecksFor(Armed(cfg, tcpPhase, early, old(AfterPhase(now)), ordered))
    {
      MaybeEnterTcpPhase(now);
      RefreshEarly(now);
      ArmFrozen();
    }

    method ArmFrozen()
      requires Valid()
      modifies this`entries
      ensures Valid() && entries == old(entries) + ChecksFor(Armed(cfg, tcpPhase, early, old(entries), ordered))
    {
      var inProgress := CountInProgress();
      var budget := if cfg.mode.Strict? then MAX_ENTRIES else if cfg.mode.Serial? then 1
                    else if inProgress < Cap(cfg, early) then Cap(cfg, early) - inProgress else 0;
      entries := ArmInto(cfg, tcpPhase, entries, ordered, budget);
    }

    /** A request from the peer: a pair that has not succeeded is checked, whatever the cap, once the peer's credentials are known. */
    method TriggeredCheck(k: nat, remoteKnown: bool)
      requires Valid() && k < |ordered|
      modifies this`entries, this`ordered
      ensures Valid()
      ensures if old(ordered)[k].state.Succeeded? || !remoteKnown then entries == old(entries) && ordered == old(ordered)
              else && ordered == old(ordered)[k := old(ordered)[k].(state := Pending)]
                   && Triggered(old(entries), old(ordered)[k].id, entries)
    {
      if ordered[k].state.Succeeded? || !remoteKnown { return; }
      ordered := ordered[k := ordered[k].(state := Pending)];
      var id := ordered[k].id;
      var found, at := FindEntry(entries, id);
      ghost var before := entries;
      if found {
        entries := entries[at := entries[at].(pending := true)];
      } else if |entries| < MAX_ENTRIES {
        entries := entries + [Entry(true, Some(id), true)];
      }
      TriggeredAdds(before, id, entries);
    }

    /** An entry for a STUN or TURN server, if there is room. */
    method AddServerEntry(pending: bool)
      requires Valid()
      modifies this`entries
      ensures Valid()
      ensures entries == if |old(entries)| < MAX_ENTRIES then old(entries) + [Entry(false, None, pending)] else old(entries)
    {
      if |entries| >= MAX_ENTRIES { return; }
      entries := entries + [Entry(false, None, pending)];
    }

    /** An entry finished, failed, or was dropped. */
    method SetEntry(i: nat, pending: bool)
      requires Valid() && i < |entries|
      modifies this`entries
      ensures Valid() && entries == old(entries)[i := old(entries)[i].(pending := pending)]
    {
      entries := entries[i := entries[i].(pending := pending)];
    }

    method EraseEntry(i: nat)
      requires Valid() && i < |entries|
      modifies this`entries
      ensures Valid() && entries == old(entries)[..i] + old(entries)[i + 1..]
    {
      entries := entries[..i] + entries[i + 1..];
    }

    /** Pairs formed, changed or re-sorted by the agent. */
    method SetPairs(ps: seq<Pair>)
      requires Valid() && Sorted(ps) && DistinctIds(ps)
      modifies this`ordered
      ensures Valid() && ordered == ps
    {
      ordered := ps;
    }
  }
}
