/**
 Best master selection and the role of a single-port gPTP endpoint (module_gptp/src/gptp.c), and what they
 amount to in a network of such endpoints.
 */
module GptpBmca {
  import opened Bytes
  import opened GptpSync
  import GptpTime

  const ANNOUNCE_PERIOD: int := 100_000_000
  const RECV_ANNOUNCE_TIMEOUT: int := 300_000_000
  const SYNC_PERIOD: int := 12_500_000
  const PDELAY_REQ_PERIOD: int := 100_000_000

  type Identity = s: seq<byte> | |s| == 8 witness [0, 0, 0, 0, 0, 0, 0, 0]

  type PortId = s: seq<byte> | |s| == 10 witness [0, 0, 0, 0, 0, 0, 0, 0, 0, 0]

  /** The part of an announce message by which grandmasters are compared. */
  datatype Announce = Announce(priority1: byte, clockClass: byte, clockAccuracy: byte, variance: nat, priority2: byte,
                               identity: Identity)

  datatype Role = Master | Uncertain | Slave

  /** The globals that decide the role; `me` is what `create_my_announce_msg` writes. */
  datatype Node = Node(me: Announce, best: Announce, role: Role, masterPort: PortId,
                       heardValid: bool, heard: uint32, lastAnnounce: uint32, lastSync: uint32, lastPdelay: uint32)

  // ---------- the order of grandmasters ----------

  /** One number whose order is the lexicographic order of the fields; lower is better. */
  function Rank(a: Announce): nat {
    ((((a.priority1 * 256 + a.clockClass) * 256 + a.clockAccuracy) * TWO_TO_16 + a.variance % TWO_TO_16) * 256
     + a.priority2) * TWO_TO_64 + BeNat(a.identity)
  }

  /** Fields decide in order: the first one that differs settles the comparison. */
  predicate Precedes(a: Announce, b: Announce) {
    if a.priority1 != b.priority1 then a.priority1 < b.priority1
    else if a.clockClass != b.clockClass then a.clockClass < b.clockClass
    else if a.clockAccuracy != b.clockAccuracy then a.clockAccuracy < b.clockAccuracy
    else if a.variance % TWO_TO_16 != b.variance % TWO_TO_16 then a.variance % TWO_TO_16 < b.variance % TWO_TO_16
    else if a.priority2 != b.priority2 then a.priority2 < b.priority2
    else BeNat(a.identity) < BeNat(b.identity)
  }

  lemma {:induction false} BeNatBound(s: seq<byte>)
    ensures BeNat(s) < Pow256(|s|)
  {
    if s == [] {
    } else {
      BeNatBound(s[..|s| - 1]);
    }
  }

  lemma RankIsLexicographic(a: Announce, b: Announce)
    ensures Rank(a) < Rank(b) <==> Precedes(a, b)
  {
    BeNatBound(a.identity);
    BeNatBound(b.identity);
    PowersOf256();
    Digits(a.priority1, a.clockClass, b.priority1, b.clockClass, 256);
    var a2, b2 := a.priority1 * 256 + a.clockClass, b.priority1 * 256 + b.clockClass;
    Digits(a2, a.clockAccuracy, b2, b.clockAccuracy, 256);
    var a3, b3 := a2 * 256 + a.clockAccuracy, b2 * 256 + b.clockAccuracy;
    Digits(a3, a.variance % TWO_TO_16, b3, b.variance % TWO_TO_16, TWO_TO_16);
    var a4, b4 := a3 * TWO_TO_16 + a.variance % TWO_TO_16, b3 * TWO_TO_16 + b.variance % TWO_TO_16;
    Digits(a4, a.priority2, b4, b.priority2, 256);
    Digits(a4 * 256 + a.priority2, BeNat(a.identity), b4 * 256 + b.priority2, BeNat(b.identity), TWO_TO_64);
  }

  lemma Digits(x: int, d: int, y: int, e: int, base: int)
    requires 0 <= d < base && 0 <= e < base
    ensures x * base + d < y * base + e <==> x < y || (x == y && d < e)
    ensures x * base + d == y * base + e <==> x == y && d == e
  {
    if x < y {
      Multiples(x, y, base);
    } else if y < x {
      Multiples(y, x, base);
    }
  }

  /** Once a prefix is smaller, the whole is. */
  lemma {:induction false} PrefixDecides(a: seq<byte>, b: seq<byte>, i: nat)
    requires |a| == |b| && i <= |a| && BeNat(a[..i]) < BeNat(b[..i])
    ensures BeNat(a) < BeNat(b)
    decreases |a| - i
  {
    if i == |a| {
      assert a[..i] == a && b[..i] == b;
    } else {
      assert a[..i + 1][..i] == a[..i] && b[..i + 1][..i] == b[..i];
      PrefixDecides(a, b, i + 1);
    }
  }

  lemma FirstDifference(a: seq<byte>, b: seq<byte>, i: nat)
    requires |a| == |b| && i < |a| && a[..i] == b[..i] && a[i] < b[i]
    ensures BeNat(a) < BeNat(b)
  {
    assert a[..i + 1][..i] == a[..i] && b[..i + 1][..i] == b[..i];
    PrefixDecides(a, b, i + 1);
  }

  /** Identities with the same number are the same. */
  lemma {:induction false} BeNatInjective(a: seq<byte>, b: seq<byte>)
    requires |a| == |b| && BeNat(a) == BeNat(b)
    ensures a == b
  {
    if a == [] {
    } else {
      var n := |a| - 1;
      BeNatInjective(a[..n], b[..n]);
      assert a == a[..n] + [a[n]] && b == b[..n] + [b[n]];
    }
  }

  /** `compare_clock_identity`: 1 when the first is smaller as a big-endian number, which makes it better. */
  method CompareClockIdentity(c1: Identity, c2: Identity) returns (r: int)
    ensures r == if BeNat(c1) > BeNat(c2) then -1 else if BeNat(c1) < BeNat(c2) then 1 else 0
    ensures r == 0 <==> c1 == c2
  {
    var i := 0;
    while i < 8
      invariant 0 <= i <= 8 && c1[..i] == c2[..i]
    {
      if c1[i] > c2[i] {
        FirstDifference(c2, c1, i);
        return -1;
      } else if c1[i] < c2[i] {
        FirstDifference(c1, c2, i);
        return 1;
      }
      i := i + 1;
    }
    assert c1 == c1[..8] && c2 == c2[..8];
    return 0;
  }

  // ---------- the steps of one endpoint ----------

  /** `timeafter(t, u)` on the wrapping clock. */
  predicate TimeAfter(t: uint32, u: uint32) {
    Signed32(u - t) < 0
  }

  function WithRole(n: Node, role: Role, t: uint32): Node {
    match role
    case Slave => n.(role := Slave, lastPdelay := t)
    case Master => n.(role := Master, lastSync := t, lastAnnounce := t, best := n.me)
    case Uncertain => n.(role := Uncertain, best := n.me)
  }

  /** An announce message from another clock becomes the best one exactly when it ranks lower. */
  predicate Adopts(n: Node, a: Announce) {
    a.identity != n.me.identity && Rank(a) < Rank(n.best)
  }

  /** The announce branch of `ptp_recv`. */
  function Received(n: Node, a: Announce, source: PortId, t: uint32): Node {
    var m := if Adopts(n, a) then WithRole(n, Slave, t).(best := a, masterPort := source, heardValid := false) else n;
    if m.role.Slave? && m.masterPort == source && m.best.identity == a.identity
    then m.(heardValid := true, heard := t) else m
  }

  predicate TimedOut(n: Node, t: uint32) {
    n.heardValid && TimeAfter(t, Wrap32(n.heard + RECV_ANNOUNCE_TIMEOUT))
  }

  /** The announce timeout of `ptp_periodic`. */
  function Expired(n: Node, t: uint32): Node {
    if !TimedOut(n, t) then n
    else match n.role
      case Slave => WithRole(n, Uncertain, t).(heard := t, lastAnnounce := Wrap32(t - ANNOUNCE_PERIOD - 1))
      case Uncertain => WithRole(n, Master, t)
      case Master => n
  }

  /** What a periodic call sends. */
  datatype Outgoing = Outgoing(announce: bool, sync: bool, pdelayRequest: bool)

  function Sends(n: Node, t: uint32, legacy: bool): Outgoing {
    Outgoing(TimeAfter(t, Wrap32(n.lastAnnounce + ANNOUNCE_PERIOD)),
             n.role.Master? && TimeAfter(t, Wrap32(n.lastSync + SYNC_PERIOD)),
             (!legacy || !n.role.Master?) && TimeAfter(t, Wrap32(n.lastPdelay + PDELAY_REQ_PERIOD)))
  }

  /** `ptp_periodic`. */
  function Periodic(n: Node, t: uint32, legacy: bool): Node {
    var m := Expired(n, t);
    var out := Sends(m, t, legacy);
    m.(lastAnnounce := if out.announce then t else m.lastAnnounce,
       lastSync := if out.sync then t else m.lastSync,
       lastPdelay := if out.pdelayRequest then t else m.lastPdelay)
  }

  // ---------- the endpoint ----------

  class PtpPort {
    const me: Announce
    var bestAnnounceMsg: Announce
    var ptpState: Role
    var masterPortId: PortId
    var lastReceivedAnnounceTimeValid: bool
    var lastReceivedAnnounceTime: uint32
    var lastAnnounceTime: uint32
    var lastSyncTime: uint32
    var lastPdelayReqTime: uint32
    const clock: SyncClock

    function Current(): Node
      reads this
    {
      Node(me, bestAnnounceMsg, ptpState, masterPortId, lastReceivedAnnounceTimeValid, lastReceivedAnnounceTime,
           lastAnnounceTime, lastSyncTime, lastPdelayReqTime)
    }

    /** `ptp_init`: every endpoint starts as a master. */
    constructor (me: Announce, t: uint32)
      ensures this.me == me && fresh(clock)
      ensures Current() == Initial(me, t)
    {
      this.me := me;
      bestAnnounceMsg, ptpState, masterPortId := me, Master, [0, 0, 0, 0, 0, 0, 0, 0, 0, 0];
      lastReceivedAnnounceTimeValid, lastReceivedAnnounceTime := false, 0;
      lastAnnounceTime, lastSyncTime, lastPdelayReqTime := t, t, 0;
      clock := new SyncClock();
    }

    /** `set_new_role`, which also forgets the rate of the old master. */
    method SetNewRole(role: Role, t: uint32)
      modifies this, clock
      ensures Current() == WithRole(old(Current()), role, t)
      ensures clock.Current() == match role
        case Slave => old(clock.Current()).(delayValid := false, adjust := 0, invAdjust := 0, prevValid := false,
                                            locked := false, count := 0)
        case Master => old(clock.Current()).(adjust := 0, invAdjust := 0)
        case Uncertain => old(clock.Current())
    {
      if role == Slave {
        clock.ResetForSlave();
        lastPdelayReqTime := t;
      }
      if role == Master {
        clock.ResetForMaster();
        lastAnnounceTime := t;
        lastSyncTime := lastAnnounceTime;
      }
      ptpState := role;
      if ptpState == Master || ptpState == Uncertain {
        bestAnnounceMsg := me;
      }
    }

    /** The comparison of `bmca_update_roles`, field by field. */
    method IsNewBest(a: Announce) returns (newBest: bool)
      ensures newBest <==> Adopts(Current(), a)
    {
      newBest := false;
      RankIsLexicographic(a, bestAnnounceMsg);
      var comparison := CompareClockIdentity(a.identity, me.identity);
      if comparison == 0 {
      } else {
        if a.priority1 > bestAnnounceMsg.priority1 {
        } else if a.priority1 < bestAnnounceMsg.priority1 {
          newBest := true;
        } else if a.clockClass > bestAnnounceMsg.clockClass {
        } else if a.clockClass < bestAnnounceMsg.clockClass {
          newBest := true;
        } else if a.clockAccuracy > bestAnnounceMsg.clockAccuracy {
        } else if a.clockAccuracy < bestAnnounceMsg.clockAccuracy {
          newBest := true;
        } else if a.variance % TWO_TO_16 > bestAnnounceMsg.variance % TWO_TO_16 {
        } else if a.variance % TWO_TO_16 < bestAnnounceMsg.variance % TWO_TO_16 {
          newBest := true;
        } else if a.priority2 > bestAnnounceMsg.priority2 {
        } else if a.priority2 < bestAnnounceMsg.priority2 {
          newBest := true;
        } else {
          comparison := CompareClockIdentity(a.identity, bestAnnounceMsg.identity);
          if comparison <= 0 {
          } else {
            newBest := true;
          }
        }
      }
    }

    /** The announce branch of `ptp_recv`, with `bmca_update_roles`. */
    method ReceiveAnnounce(a: Announce, source: PortId, t: uint32)
      modifies this, clock
      ensures Current() == Received(old(Current()), a, source, t)
    {
      var newBest := IsNewBest(a);
      if newBest {
        bestAnnounceMsg := a;
        masterPortId := source;
        SetNewRole(Slave, t);
        lastReceivedAnnounceTimeValid := false;
        masterPortId := source;
      }
      if ptpState == Slave && masterPortId == source && bestAnnounceMsg.identity == a.identity {
        lastReceivedAnnounceTimeValid := true;
        lastReceivedAnnounceTime := t;
      }
    }

    /** `ptp_periodic`; what goes out is returned. */
    method PtpPeriodic(t: uint32, legacy: bool) returns (out: Outgoing)
      modifies this, clock
      ensures Current() == Periodic(old(Current()), t, legacy)
      ensures out == Sends(Expired(old(Current()), t), t, legacy)
    {
      if lastReceivedAnnounceTimeValid
         && TimeAfter(t, Wrap32(lastReceivedAnnounceTime + RECV_ANNOUNCE_TIMEOUT)) {
        if ptpState == Slave {
          SetNewRole(Uncertain, t);
          lastReceivedAnnounceTime := t;
          lastAnnounceTime := Wrap32(t - ANNOUNCE_PERIOD - 1);
        } else if ptpState == Uncertain {
          SetNewRole(Master, t);
        }
      }
      assert Current() == Expired(old(Current()), t);
      out := Sends(Current(), t, legacy);
      if out.announce {
        lastAnnounceTime := t;
      }
      if out.sync {
        lastSyncTime := t;
      }
      if out.pdelayRequest {
        lastPdelayReqTime := t;
      }
    }
  }

  function Initial(me: Announce, t: uint32): Node {
    Node(me, me, Master, [0, 0, 0, 0, 0, 0, 0, 0, 0, 0], false, 0, t, t, 0)
  }

  // ---------- the role invariant ----------

  /**
   Masters and doubters hold their own vector to be the best; a slave holds one that is strictly better and has
   its announce timer set.
   */
  predicate RoleInvariant(n: Node) {
    if n.role.Slave? then Rank(n.best) < Rank(n.me) && n.best.identity != n.me.identity && n.heardValid
    else n.best == n.me
  }

  /** Hearing an announcement keeps the role invariant, and the best vector only moves down. */
  lemma HearingKeepsRoles(n: Node, a: Announce, source: PortId, t: uint32)
    requires RoleInvariant(n)
    ensures var m := Received(n, a, source, t);
            RoleInvariant(m) && m.me == n.me && Rank(m.best) <= Rank(n.best)
  {
  }

  /** So does the periodic work, in which the best vector stays or goes back to the own one. */
  lemma PeriodicKeepsRoles(n: Node, t: uint32, legacy: bool)
    requires RoleInvariant(n)
    ensures var m := Periodic(n, t, legacy);
            RoleInvariant(m) && m.me == n.me && (m.best == n.best || m.best == n.me)
  {
  }

  /** An announcement from anywhere, or the periodic work. */
  datatype Call = Hears(a: Announce, source: PortId, t: uint32) | Ticks(t: uint32, legacy: bool)

  function Called(n: Node, c: Call): Node {
    match c
    case Hears(a, source, t) => Received(n, a, source, t)
    case Ticks(t, legacy) => Periodic(n, t, legacy)
  }

  function AfterCalls(n: Node, calls: seq<Call>): Node {
    if calls == [] then n else Called(AfterCalls(n, calls[..|calls| - 1]), calls[|calls| - 1])
  }

  /** The role invariant holds after every sequence of calls, with any announcements from anyone at any times. */
  lemma {:induction false} RolesInEveryRun(me: Announce, t: uint32, calls: seq<Call>)
    ensures var n := AfterCalls(Initial(me, t), calls); RoleInvariant(n) && n.me == me
  {
    if calls == [] {
    } else {
      var n, c := AfterCalls(Initial(me, t), calls[..|calls| - 1]), calls[|calls| - 1];
      RolesInEveryRun(me, t, calls[..|calls| - 1]);
      match c
      case Hears(a, source, time) => HearingKeepsRoles(n, a, source, time);
      case Ticks(time, legacy) => PeriodicKeepsRoles(n, time, legacy);
    }
  }

  /** On times less than half a wrap apart the wrapping comparison is the real one. */
  lemma TimeAfterIsReal(t: int, u: int)
    requires -TWO_TO_31 < t - u < TWO_TO_31
    ensures TimeAfter(Wrap32(t), Wrap32(u)) <==> t > u
  {
    GptpTime.OffsetBack(Wrap32(t), u - t);
    assert Wrap32(Wrap32(t) + (u - t)) == Wrap32(u);
  }

  /** A slave that starts to doubt announces itself in the same call. */
  lemma DoubtIsAnnounced(n: Node, t: uint32, legacy: bool)
    requires n.role.Slave? && Expired(n, t).role.Uncertain?
    ensures Sends(Expired(n, t), t, legacy).announce
  {
    OnePeriodEarlier(t);
  }

  lemma OnePeriodEarlier(t: uint32)
    ensures TimeAfter(t, Wrap32(Wrap32(t - ANNOUNCE_PERIOD - 1) + ANNOUNCE_PERIOD))
  {
    TimeAfterIsReal(t, t - 1);
    AddPeriod(t - ANNOUNCE_PERIOD - 1);
  }

  lemma AddPeriod(x: int)
    ensures Wrap32(Wrap32(x) + ANNOUNCE_PERIOD) == Wrap32(x + ANNOUNCE_PERIOD)
  {
  }

  // ---------- a network of endpoints ----------

  /** What happens in the network: node `from` is heard by node `to`, or the periodic work of a node runs. */
  datatype Happening =
    | Delivery(source: nat, target: nat, t: uint32)
    | Tick(node: nat, t: uint32, legacy: bool)

  function PortOf(i: Identity): PortId {
    i + [0, 1]
  }

  /** The network after one happening; endpoints always announce their own vector. */
  function Happens(net: seq<Node>, h: Happening): seq<Node> {
    match h
    case Delivery(source, target, t) =>
      if source < |net| && target < |net| then
        net[target := Received(net[target], net[source].me, PortOf(net[source].me.identity), t)]
      else net
    case Tick(node, t, legacy) =>
      if node < |net| then net[node := Periodic(net[node], t, legacy)] else net
  }

  function Network(own: seq<Announce>, run: seq<Happening>): seq<Node> {
    if run == [] then seq(|own|, i requires 0 <= i < |own| => Initial(own[i], 0))
    else Happens(Network(own, run[..|run| - 1]), run[|run| - 1])
  }

  /** No announce timer runs out during the run. */
  predicate NoTimeouts(own: seq<Announce>, run: seq<Happening>) {
    run == [] ||
    (NoTimeouts(own, run[..|run| - 1])
     && var last := run[|run| - 1];
        var net := Network(own, run[..|run| - 1]);
        last.Tick? && last.node < |net| ==> net[last.node].role.Master? || !TimedOut(net[last.node], last.t))
  }

  predicate DistinctClocks(own: seq<Announce>) {
    forall i, j :: 0 <= i < j < |own| ==> own[i].identity != own[j].identity
  }

  /** Whom node `i` has heard, itself included. */
  predicate HasHeard(run: seq<Happening>, i: nat, j: nat) {
    i == j || exists k :: 0 <= k < |run| && run[k].Delivery? && run[k].source == j && run[k].target == i
  }

  /** A node's view: the best vector is the least of those it has heard, and it is a slave if that is not its own. */
  predicate View(own: seq<Announce>, run: seq<Happening>, i: nat, n: Node)
    requires i < |own|
  {
    && n.me == own[i]
    && (exists j :: 0 <= j < |own| && HasHeard(run, i, j) && n.best == own[j])
    && (forall j :: 0 <= j < |own| && HasHeard(run, i, j) ==> Rank(n.best) <= Rank(own[j]))
    && (n.role == if n.best == own[i] then Master else Slave)
  }

  lemma HeardMore(run: seq<Happening>, i: nat, j: nat)
    requires run != []
    ensures var last := run[|run| - 1];
            HasHeard(run, i, j) <==>
            HasHeard(run[..|run| - 1], i, j) || (last.Delivery? && last.source == j && last.target == i)
  {
    var shorter := run[..|run| - 1];
    if HasHeard(shorter, i, j) && i != j {
      var k :| 0 <= k < |shorter| && shorter[k].Delivery? && shorter[k].source == j && shorter[k].target == i;
      assert run[k] == shorter[k];
    }
    if HasHeard(run, i, j) && i != j {
      var k :| 0 <= k < |run| && run[k].Delivery? && run[k].source == j && run[k].target == i;
      assert k < |run| - 1 ==> shorter[k] == run[k];
    }
  }

  lemma RankInjective(a: Announce, b: Announce)
    requires a.identity != b.identity
    ensures Rank(a) != Rank(b)
  {
    RankIsLexicographic(a, b);
    RankIsLexicographic(b, a);
    if BeNat(a.identity) == BeNat(b.identity) {
      BeNatInjective(a.identity, b.identity);
    }
  }

  /** Hearing a vector takes the minimum. */
  lemma ReceivedTakesLeast(n: Node, a: Announce, source: PortId, t: uint32)
    requires n.role == if n.best == n.me then Master else Slave
    requires a.identity == n.me.identity ==> a == n.me
    requires Rank(n.best) <= Rank(n.me)
    ensures var m := Received(n, a, source, t);
            && m.me == n.me && m.best in {n.best, a}
            && Rank(m.best) <= Rank(n.best) && Rank(m.best) <= Rank(a)
            && m.role == if m.best == m.me then Master else Slave
  {
  }

  /** What a happening makes of one node. */
  lemma NodeAfter(net: seq<Node>, h: Happening, i: nat)
    requires i < |net|
    ensures |Happens(net, h)| == |net|
    ensures var m := Happens(net, h)[i];
            if h.Delivery? && h.source < |net| && h.target == i
            then m == Received(net[i], net[h.source].me, PortOf(net[h.source].me.identity), h.t)
            else if h.Tick? && h.node == i then m == Periodic(net[i], h.t, h.legacy)
            else m == net[i]
  {
  }

  lemma QuietTick(n: Node, t: uint32, legacy: bool)
    ensures var m := Periodic(n, t, legacy);
            m.me == n.me && (n.role.Master? || !TimedOut(n, t) ==> m.best == n.best && m.role == n.role)
  {
  }

  lemma {:induction false} OwnersStay(own: seq<Announce>, run: seq<Happening>, j: nat)
    requires j < |own|
    ensures |Network(own, run)| == |own| && Network(own, run)[j].me == own[j]
  {
    if run == [] {
    } else {
      var shorter, last := run[..|run| - 1], run[|run| - 1];
      OwnersStay(own, shorter, j);
      NodeAfter(Network(own, shorter), last, j);
      if last.Tick? && last.node == j {
        QuietTick(Network(own, shorter)[j], last.t, last.legacy);
      }
    }
  }

  lemma {:induction false} ViewsHold(own: seq<Announce>, run: seq<Happening>, i: nat)
    requires i < |own| && DistinctClocks(own) && NoTimeouts(own, run)
    ensures |Network(own, run)| == |own| && View(own, run, i, Network(own, run)[i])
  {
    if run == [] {
      assert HasHeard(run, i, i);
    } else {
      var shorter, last := run[..|run| - 1], run[|run| - 1];
      ViewsHold(own, shorter, i);
      var net := Network(own, shorter);
      NodeAfter(net, last, i);
      var n, m := net[i], Network(own, run)[i];
      if last.Delivery? && last.source < |own| && last.target == i {
        OwnersStay(own, shorter, last.source);
        ViewAfterHearing(own, run, i, last.source, n, last.t);
      } else {
        if last.Tick? && last.node == i {
          QuietTick(n, last.t, last.legacy);
        }
        SameView(own, run, i, n, m);
      }
    }
  }

  lemma SameView(own: seq<Announce>, run: seq<Happening>, i: nat, n: Node, m: Node)
    requires run != [] && i < |own| && View(own, run[..|run| - 1], i, n)
    requires m.me == n.me && m.best == n.best && m.role == n.role
    requires var last := run[|run| - 1]; last.Delivery? && last.source < |own| ==> last.target != i
    ensures View(own, run, i, m)
  {
    forall j | 0 <= j < |own| ensures HasHeard(run, i, j) <==> HasHeard(run[..|run| - 1], i, j) {
      HeardMore(run, i, j);
    }
  }

  lemma ViewAfterHearing(own: seq<Announce>, run: seq<Happening>, i: nat, s: nat, n: Node, t: uint32)
    requires run != [] && i < |own| && s < |own| && DistinctClocks(own) && View(own, run[..|run| - 1], i, n)
    requires var last := run[|run| - 1]; last.Delivery? && last.source == s && last.target == i
    ensures View(own, run, i, Received(n, own[s], PortOf(own[s].identity), t))
  {
    var shorter := run[..|run| - 1];
    forall j | 0 <= j < |own|
      ensures HasHeard(run, i, j) <==> HasHeard(shorter, i, j) || j == s
    {
      HeardMore(run, i, j);
    }
    assert HasHeard(shorter, i, i);
    assert own[s].identity == n.me.identity ==> s == i;
    ReceivedTakesLeast(n, own[s], PortOf(own[s].identity), t);
    var m := Received(n, own[s], PortOf(own[s].identity), t);
    var j :| 0 <= j < |own| && HasHeard(shorter, i, j) && n.best == own[j];
    assert HasHeard(run, i, if m.best == own[s] then s else j);
  }

  predicate EveryoneHeardEveryone(own: seq<Announce>, run: seq<Happening>) {
    forall i: nat, j: nat :: i < |own| && j < |own| ==> HasHeard(run, i, j)
  }

  /**
   In a network of endpoints with distinct clock identities, whatever the order and multiplicity of deliveries,
   once everyone has heard everyone, all hold the same best vector, it is the least of all, and exactly one
   endpoint, the one that owns it, is not a slave.
   */
  lemma GrandmasterAgreement(own: seq<Announce>, run: seq<Happening>) returns (leader: nat)
    requires own != [] && DistinctClocks(own) && NoTimeouts(own, run) && EveryoneHeardEveryone(own, run)
    ensures leader < |own| == |Network(own, run)|
    ensures forall i :: 0 <= i < |own| ==>
      var n := Network(own, run)[i];
      n.best == own[leader] && Rank(own[leader]) <= Rank(own[i]) && (n.role != Slave <==> i == leader)
  {
    ViewsHold(own, run, 0);
    var net := Network(own, run);
    leader :| 0 <= leader < |own| && net[0].best == own[leader];
    forall i | 0 <= i < |own|
      ensures net[i].best == own[leader] && Rank(own[leader]) <= Rank(own[i]) && (net[i].role != Slave <==> i == leader)
    {
      ViewsHold(own, run, i);
      assert HasHeard(run, 0, i) && HasHeard(run, i, leader);
      var j :| 0 <= j < |own| && net[i].best == own[j];
      assert HasHeard(run, 0, j);
      if j != leader {
        RankInjective(own[j], own[leader]);
      }
      if i != leader {
        RankInjective(own[i], own[leader]);
      }
    }
  }

  // ---------- failover ----------

  /** Real times of the periodic calls, each at most `gap` after the one before, the first that long after `start`. */
  predicate Paced(start: int, gap: int, times: seq<int>) {
    forall k :: 0 <= k < |times| ==> Before(start, times, k) <= times[k] <= Before(start, times, k) + gap
  }

  function Before(start: int, times: seq<int>, k: nat): int
    requires k <= |times|
  {
    if k == 0 then start else times[k - 1]
  }

  lemma PacedPrefix(start: int, gap: int, times: seq<int>)
    requires times != [] && Paced(start, gap, times)
    ensures Paced(start, gap, times[..|times| - 1])
    ensures var before := Before(start, times, |times| - 1); before <= times[|times| - 1] <= before + gap
  {
    var shorter := times[..|times| - 1];
    forall k | 0 <= k < |shorter| ensures Before(start, shorter, k) <= shorter[k] <= Before(start, shorter, k) + gap {
      assert Before(start, shorter, k) == Before(start, times, k) && shorter[k] == times[k];
    }
  }

  function PeriodicAll(n: Node, times: seq<int>, legacy: bool): Node {
    if times == [] then n
    else Periodic(PeriodicAll(n, times[..|times| - 1], legacy), Wrap32(times[|times| - 1]), legacy)
  }

  lemma TimeoutIsReal(t: int, heard: int)
    requires -TWO_TO_31 < t - (heard + RECV_ANNOUNCE_TIMEOUT) < TWO_TO_31
    ensures TimeAfter(Wrap32(t), Wrap32(Wrap32(heard) + RECV_ANNOUNCE_TIMEOUT)) <==> t > heard + RECV_ANNOUNCE_TIMEOUT
  {
    assert Wrap32(Wrap32(heard) + RECV_ANNOUNCE_TIMEOUT) == Wrap32(heard + RECV_ANNOUNCE_TIMEOUT);
    TimeAfterIsReal(t, heard + RECV_ANNOUNCE_TIMEOUT);
  }

  /** How far a node that hears nothing has come at time `now`; `doubt` is when it began to doubt. */
  predicate Phase(n: Node, heard: int, gap: int, doubt: int, now: int) {
    match n.role
    case Slave => n.heardValid && n.heard == Wrap32(heard) && heard <= now <= heard + RECV_ANNOUNCE_TIMEOUT
    case Uncertain =>
      n.heardValid && n.heard == Wrap32(doubt) && doubt <= now <= doubt + RECV_ANNOUNCE_TIMEOUT
      && heard + RECV_ANNOUNCE_TIMEOUT < doubt <= heard + RECV_ANNOUNCE_TIMEOUT + gap
    case Master => now > heard + 2 * RECV_ANNOUNCE_TIMEOUT
  }

  lemma PhaseStep(n: Node, heard: int, gap: int, doubt: int, before: int, now: int, legacy: bool) returns (later: int)
    requires 0 <= gap && RECV_ANNOUNCE_TIMEOUT + gap < TWO_TO_31
    requires Phase(n, heard, gap, doubt, before) && before <= now <= before + gap
    ensures Phase(Periodic(n, Wrap32(now), legacy), heard, gap, later, now)
  {
    later := doubt;
    match n.role
    case Slave =>
      TimeoutIsReal(now, heard);
      later := now;
    case Uncertain =>
      TimeoutIsReal(now, doubt);
    case Master =>
  }

  lemma {:induction false} PhaseAfter(n: Node, heard: int, gap: int, times: seq<int>, legacy: bool) returns (doubt: int)
    requires n.role.Slave? && n.heardValid && n.heard == Wrap32(heard)
    requires 0 <= gap && RECV_ANNOUNCE_TIMEOUT + gap < TWO_TO_31 && Paced(heard, gap, times)
    ensures Phase(PeriodicAll(n, times, legacy), heard, gap, doubt, if times == [] then heard else times[|times| - 1])
    decreases |times|
  {
    if times == [] {
      doubt := heard;
    } else {
      var shorter := times[..|times| - 1];
      PacedPrefix(heard, gap, times);
      var d := PhaseAfter(n, heard, gap, shorter, legacy);
      var before := Before(heard, times, |times| - 1);
      doubt := PhaseStep(PeriodicAll(n, shorter, legacy), heard, gap, d, before, times[|times| - 1], legacy);
    }
  }

  /**
   Failover: a slave that last heard its master at `heard` and hears nothing more, with periodic calls at most
   `gap` apart on the wrapping clock, is a master at every call more than two timeouts plus `gap` later, so within
   two timeouts plus two gaps, and at no call within two timeouts.
   */
  lemma FailoverIsBounded(n: Node, heard: int, gap: int, times: seq<int>, legacy: bool)
    requires n.role.Slave? && n.heardValid && n.heard == Wrap32(heard)
    requires 0 <= gap && RECV_ANNOUNCE_TIMEOUT + gap < TWO_TO_31
    requires times != [] && Paced(heard, gap, times)
    ensures var now, role := times[|times| - 1], PeriodicAll(n, times, legacy).role;
            && (now > heard + 2 * RECV_ANNOUNCE_TIMEOUT + gap ==> role == Master)
            && (role == Master ==> now > heard + 2 * RECV_ANNOUNCE_TIMEOUT)
            && (role == Slave <==> now <= heard + RECV_ANNOUNCE_TIMEOUT)
  {
    var doubt := PhaseAfter(n, heard, gap, times, legacy);
  }
}
