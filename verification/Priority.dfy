/** Candidate priorities (section 5.1.2.1 of RFC 8445, section 4.2 of RFC 6544) and pair priorities (section 6.1.2.3 of RFC 8445). */
module Priority {
  const WORD := 0x1_0000_0000
  const DOUBLE := 0x1_0000_0000_0000_0000

  type U32 = x: int | 0 <= x < WORD

  // ---- Pairs ---------------------------------------------------------------------------

  function MinOf(a: int, b: int): int { if a < b then a else b }

  function MaxOf(a: int, b: int): int { if a > b then a else b }

  /** The priority of a pair as computed: the multiplier is one less than in the RFC. */
  function PairPriority(local: U32, remote: U32, localControls: bool): int
  {
    var g, d := if localControls then local else remote, if localControls then remote else local;
    (WORD - 1) * MinOf(g, d) + 2 * MaxOf(g, d) + if g > d then 1 else 0
  }

  /** The formula of the RFC, for a controlling priority `g` and a controlled priority `d`. */
  function RfcPriority(g: U32, d: U32): int
  {
    WORD * MinOf(g, d) + 2 * MaxOf(g, d) + if g > d then 1 else 0
  }

  /** The computed priority never leaves 64 bits, and the bound is attained. */
  lemma NoOverflow(local: U32, remote: U32, localControls: bool)
    ensures 0 <= PairPriority(local, remote, localControls) < DOUBLE
    ensures PairPriority(WORD - 1, WORD - 1, localControls) == DOUBLE - 1
  {
    var g, d := if localControls then local else remote, if localControls then remote else local;
    var lo, hi := MinOf(g, d), MaxOf(g, d);
    assert (WORD - 1) * lo <= (WORD - 1) * (WORD - 1);
    if g != d { assert lo <= WORD - 2; }
  }

  /** Both ends of a pair compute the same number when their roles are opposite. */
  lemma SameAtBothEnds(mine: U32, yours: U32, iControl: bool)
    ensures PairPriority(mine, yours, iControl) == PairPriority(yours, mine, !iControl)
  {
  }

  /** For candidate priorities below 2^31 pairs are ordered exactly as by the RFC's formula. */
  lemma OrderAsRfc(g: U32, d: U32, g': U32, d': U32)
    requires g < WORD / 2 && d < WORD / 2 && g' < WORD / 2 && d' < WORD / 2
    ensures PairPriority(g, d, true) < PairPriority(g', d', true) <==> RfcPriority(g, d) < RfcPriority(g', d')
    ensures PairPriority(g, d, true) == PairPriority(g', d', true) <==> RfcPriority(g, d) == RfcPriority(g', d')
  {
    var lo, lo' := MinOf(g, d), MinOf(g', d');
    if lo < lo' {
      LowerFirst(g, d, g', d');
    } else if lo' < lo {
      LowerFirst(g', d', g, d);
    }
  }

  /** The smaller priority of a pair decides. */
  lemma LowerFirst(g: U32, d: U32, g': U32, d': U32)
    requires g < WORD / 2 && d < WORD / 2 && g' < WORD / 2 && d' < WORD / 2 && MinOf(g, d) < MinOf(g', d')
    ensures PairPriority(g, d, true) < PairPriority(g', d', true) && RfcPriority(g, d) < RfcPriority(g', d')
  {
    assert MinOf(g', d') <= MaxOf(g', d');
  }

  predicate SameOrder(g: U32, d: U32, g': U32, d': U32)
  {
    && (PairPriority(g, d, true) < PairPriority(g', d', true) <==> RfcPriority(g, d) < RfcPriority(g', d'))
    && (PairPriority(g, d, true) == PairPriority(g', d', true) <==> RfcPriority(g, d) == RfcPriority(g', d'))
  }

  /** At 2^31 these two pairs differ by the formula and are equal as computed. */
  lemma OrderNeedsBound()
    ensures RfcPriority(WORD / 2, 0) < RfcPriority(1, 1)
    ensures PairPriority(WORD / 2, 0, true) == PairPriority(1, 1, true)
  {
  }

  /** So 2^31 is the exact bound: priorities below `b` are all ordered as by the RFC if and only if `b` is at most that. */
  lemma OrderBoundIff(b: nat)
    ensures (forall g: U32, d: U32, g': U32, d': U32 | g < b && d < b && g' < b && d' < b :: SameOrder(g, d, g', d')) <==> b <= WORD / 2
  {
    if b <= WORD / 2 {
      forall g: U32, d: U32, g': U32, d': U32 | g < b && d < b && g' < b && d' < b ensures SameOrder(g, d, g', d') {
        OrderAsRfc(g, d, g', d');
      }
    } else {
      OrderNeedsBound();
      assert !SameOrder(WORD / 2, 0, 1, 1);
    }
  }

  class CandidatePair {
    var priority: int

    /** A missing candidate counts as priority 0. */
    method UpdatePriority(local: U32, remote: U32, localControls: bool)
      modifies this
      ensures priority == PairPriority(local, remote, localControls) && 0 <= priority < DOUBLE
    {
      NoOverflow(local, remote, localControls);
      var g: int, d: int := local, remote;
      if !localControls { g, d := remote, local; }
      var lo, hi := MinOf(g, d), MaxOf(g, d);
      priority := (WORD - 1) * lo + 2 * hi + if g > d then 1 else 0;
    }
  }

  // ---- Candidates ----------------------------------------------------------------------

  datatype Type = Unknown | Host | PeerReflexive | ServerReflexive | Relayed

  datatype Transport = Udp | TcpActive | TcpPassive | TcpSimultaneousOpen

  datatype Family = Inet | Inet6 | OtherFamily

  function TypePref(t: Type): nat
  {
    match t
    case Host => 126
    case PeerReflexive => 110
    case ServerReflexive => 100
    case Relayed => 0
    case Unknown => 0
  }

  /** Candidates other than UDP lose the configured offset, but never wrap. */
  function EffectiveTypePref(t: Type, transport: Transport, offset: nat): nat
  {
    if transport.Udp? then TypePref(t) else if TypePref(t) >= offset then TypePref(t) - offset else 0
  }

  function DirectionPref(t: Type, transport: Transport): nat
  {
    match t
    case Unknown => 0
    case Host => HostDirection(transport)
    case Relayed => HostDirection(transport)
    case ServerReflexive => ReflexiveDirection(transport)
    case PeerReflexive => ReflexiveDirection(transport)
  }

  function HostDirection(transport: Transport): nat
  {
    match transport
    case Udp => 0
    case TcpActive => 6
    case TcpPassive => 4
    case TcpSimultaneousOpen => 2
  }

  function ReflexiveDirection(transport: Transport): nat
  {
    match transport
    case Udp => 0
    case TcpSimultaneousOpen => 6
    case TcpActive => 4
    case TcpPassive => 2
  }

  function Clamp(x: int, lo: int, hi: int): int
    requires lo <= hi
  {
    if x < lo then lo else if x > hi then hi else x
  }

  function LocalPref(t: Type, transport: Transport, family: Family, index: int): nat
  {
    var base := if transport.Udp? then 65535
                else 8192 * DirectionPref(t, transport) + if family.OtherFamily? then 0 else 8191;
    var i := Clamp(index, 0, 4095);
    if base >= i then base - i else base
  }

  function CandidatePriority(t: Type, family: Family, component: int, index: int, transport: Transport, offset: nat): int
  {
    0x100_0000 * EffectiveTypePref(t, transport, offset) + 256 * LocalPref(t, transport, family, index)
    + 256 - Clamp(component, 1, 256)
  }

  /** The fields do not overlap: the local preference has 16 bits and the component 8. */
  lemma FieldsFit(t: Type, family: Family, component: int, index: int, transport: Transport, offset: nat)
    ensures LocalPref(t, transport, family, index) <= 65535
    ensures !transport.Udp? ==> LocalPref(t, transport, family, index) <= 57343
    ensures transport.Udp? ==> LocalPref(t, transport, family, index) >= 61440
    ensures 0 <= 256 - Clamp(component, 1, 256) <= 255
  {
  }

  /** Every computed candidate priority is below 2^31, so pairs of them are ordered as by the RFC. */
  lemma CandidateBelow31(t: Type, family: Family, component: int, index: int, transport: Transport, offset: nat)
    ensures 0 <= CandidatePriority(t, family, component, index, transport, offset) < WORD / 2
  {
    FieldsFit(t, family, component, index, transport, offset);
  }

  /** A UDP candidate outranks every TCP candidate of its type, whatever the other inputs. */
  lemma UdpOutranksTcp(t: Type, f: Family, f': Family, c: int, c': int, i: int, i': int, tcp: Transport, offset: nat)
    requires !tcp.Udp?
    ensures CandidatePriority(t, f, c, i, Udp, offset) > CandidatePriority(t, f', c', i', tcp, offset)
  {
    FieldsFit(t, f, c, i, Udp, offset);
    FieldsFit(t, f', c', i', tcp, offset);
  }

  /** A higher type preference wins over everything else on UDP. */
  lemma TypeDecides(t: Type, t': Type, f: Family, f': Family, c: int, c': int, i: int, i': int, offset: nat)
    requires TypePref(t) > TypePref(t')
    ensures CandidatePriority(t, f, c, i, Udp, offset) > CandidatePriority(t', f', c', i', Udp, offset)
  {
    FieldsFit(t, f, c, i, Udp, offset);
    FieldsFit(t', f', c', i', Udp, offset);
  }

  /** Which is host, then peer reflexive, then server reflexive, then relayed. */
  lemma TypeOrder(f: Family, f': Family, c: int, c': int, i: int, i': int, offset: nat)
    ensures CandidatePriority(Host, f, c, i, Udp, offset) > CandidatePriority(PeerReflexive, f', c', i', Udp, offset)
    ensures CandidatePriority(PeerReflexive, f, c, i, Udp, offset) > CandidatePriority(ServerReflexive, f', c', i', Udp, offset)
    ensures CandidatePriority(ServerReflexive, f, c, i, Udp, offset) > CandidatePriority(Relayed, f', c', i', Udp, offset)
  {
    TypeDecides(Host, PeerReflexive, f, f', c, c', i, i', offset);
    TypeDecides(PeerReflexive, ServerReflexive, f, f', c, c', i, i', offset);
    TypeDecides(ServerReflexive, Relayed, f, f', c, c', i, i', offset);
  }

  /** Of two candidates of one type and transport the smaller index ranks higher, whatever the components. */
  lemma SmallerIndexFirst(t: Type, f: Family, c: int, c': int, i: int, i': int, transport: Transport, offset: nat)
    requires 0 <= i < i' <= 4095 && (transport.Udp? || !t.Unknown?)
    ensures CandidatePriority(t, f, c, i, transport, offset) > CandidatePriority(t, f, c', i', transport, offset)
  {
  }

  /** With the same index the smaller component does. */
  lemma SmallerComponentFirst(t: Type, f: Family, c: int, c': int, i: int, transport: Transport, offset: nat)
    requires 1 <= c < c' <= 256
    ensures CandidatePriority(t, f, c, i, transport, offset) > CandidatePriority(t, f, c', i, transport, offset)
  {
  }

  /** The preferred direction of a TCP candidate: active for host and relayed ones, simultaneous open for reflexive ones. */
  lemma DirectionOrder(t: Type, f: Family, c: int, c': int, i: int, i': int, offset: nat)
    requires 0 <= i <= 4095 && 0 <= i' <= 4095
    ensures t.Host? || t.Relayed? ==>
              && CandidatePriority(t, f, c, i, TcpActive, offset) > CandidatePriority(t, f, c', i', TcpPassive, offset)
              && CandidatePriority(t, f, c, i, TcpPassive, offset) > CandidatePriority(t, f, c', i', TcpSimultaneousOpen, offset)
    ensures t.ServerReflexive? || t.PeerReflexive? ==>
              && CandidatePriority(t, f, c, i, TcpSimultaneousOpen, offset) > CandidatePriority(t, f, c', i', TcpActive, offset)
              && CandidatePriority(t, f, c, i, TcpActive, offset) > CandidatePriority(t, f, c', i', TcpPassive, offset)
  {
  }

  /**
   The formula of section 5.1.2.1 of RFC 8445 in numbers, for indexes and components in range; on
   TCP with the direction preferences of section 4.2 of RFC 6544.
   */
  lemma PriorityIs(f: Family, c: int, i: int, offset: nat)
    requires 1 <= c <= 256 && 0 <= i <= 4095
    ensures CandidatePriority(Host, f, c, i, Udp, offset) == 0x7E00_0000 + 256 * (65535 - i) + 256 - c
    ensures CandidatePriority(PeerReflexive, f, c, i, Udp, offset) == 0x6E00_0000 + 256 * (65535 - i) + 256 - c
    ensures CandidatePriority(ServerReflexive, f, c, i, Udp, offset) == 0x6400_0000 + 256 * (65535 - i) + 256 - c
    ensures CandidatePriority(Relayed, f, c, i, Udp, offset) == 256 * (65535 - i) + 256 - c
    ensures offset <= 126 && !f.OtherFamily? ==>
              && CandidatePriority(Host, f, c, i, TcpActive, offset) == 0x100_0000 * (126 - offset) + 256 * (57343 - i) + 256 - c
              && CandidatePriority(Host, f, c, i, TcpPassive, offset) == 0x100_0000 * (126 - offset) + 256 * (40959 - i) + 256 - c
              && CandidatePriority(Relayed, f, c, i, TcpSimultaneousOpen, offset) == 256 * (24575 - i) + 256 - c
    ensures offset <= 100 && !f.OtherFamily? ==>
              && CandidatePriority(ServerReflexive, f, c, i, TcpSimultaneousOpen, offset)
                 == 0x100_0000 * (100 - offset) + 256 * (57343 - i) + 256 - c
              && CandidatePriority(PeerReflexive, f, c, i, TcpActive, offset)
                 == 0x100_0000 * (110 - offset) + 256 * (40959 - i) + 256 - c
              && CandidatePriority(PeerReflexive, f, c, i, TcpPassive, offset)
                 == 0x100_0000 * (110 - offset) + 256 * (24575 - i) + 256 - c
  {
  }
}
