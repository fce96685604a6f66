/**
 When a slave stays a slave: what restarts its announce timer, over whole runs of one endpoint and of a network
 (module_gptp/src/gptp.c).
 */
module GptpLiveness {
  import opened Bytes
  import opened Wrappers
  import opened GptpBmca

  // ---------- the time last heard ----------

  /** The announcement is one of clock `identity` from port `master`. */
  predicate IsFrom(c: Call, master: PortId, identity: Identity) {
    c.Hears? && c.source == master && c.a.identity == identity
  }

  /** The time of the latest announcement of a clock from a port. */
  function LatestFrom(calls: seq<Call>, master: PortId, identity: Identity): Option<uint32> {
    if calls == [] then None
    else
      var c := calls[|calls| - 1];
      if IsFrom(c, master, identity) then Some(c.t) else LatestFrom(calls[..|calls| - 1], master, identity)
  }

  lemma HeardByCall(n: Node, c: Call)
    requires RoleInvariant(n)
    ensures var m := Called(n, c);
            m.role.Slave? ==> m.heardValid && if IsFrom(c, m.masterPort, m.best.identity) then m.heard == c.t
                                              else m.heard == n.heard && n.role.Slave? && m.masterPort == n.masterPort
                                                   && m.best.identity == n.best.identity
  {
  }

  /**
   After every sequence of calls a slave's timer runs from the latest announcement of its grandmaster from its master
   port: every one of these restarts it, and nothing from another port or of another clock does.
   */
  lemma {:induction false} TimerRunsFromLatest(me: Announce, t: uint32, calls: seq<Call>)
    ensures var n := AfterCalls(Initial(me, t), calls);
            n.role.Slave? ==> n.heardValid && LatestFrom(calls, n.masterPort, n.best.identity) == Some(n.heard)
  {
    if calls == [] {
    } else {
      var shorter := calls[..|calls| - 1];
      TimerRunsFromLatest(me, t, shorter);
      RolesInEveryRun(me, t, shorter);
      HeardByCall(AfterCalls(Initial(me, t), shorter), calls[|calls| - 1]);
    }
  }

  // ---------- a slave that hears its master ----------

  /** A call at a real time, of which the endpoint sees the low 32 bits. */
  datatype Moment = Announced(a: Announce, source: PortId, at: int) | Polled(at: int, legacy: bool)

  function CallAt(x: Moment): Call {
    match x
    case Announced(a, source, at) => Hears(a, source, Wrap32(at))
    case Polled(at, legacy) => Ticks(Wrap32(at), legacy)
  }

  function AfterMoments(n: Node, run: seq<Moment>): Node {
    if run == [] then n else Called(AfterMoments(n, run[..|run| - 1]), CallAt(run[|run| - 1]))
  }

  /** When `n` last heard its grandmaster from its master port, having last done so at `heard` before the run. */
  function LastHeard(n: Node, heard: int, run: seq<Moment>): int {
    if run == [] then heard
    else
      var x := run[|run| - 1];
      if IsFrom(CallAt(x), n.masterPort, n.best.identity) then x.at else LastHeard(n, heard, run[..|run| - 1])
  }

  /** No announcement is better than what the node holds. */
  predicate NothingBetter(n: Node, run: seq<Moment>) {
    forall k :: 0 <= k < |run| && run[k].Announced? ==> !Adopts(n, run[k].a)
  }

  /** A periodic call comes at `at`, less than half a wrap behind the time the timeout counts from. */
  predicate Comparable(heard: int, at: int) {
    -TWO_TO_31 < at - (heard + RECV_ANNOUNCE_TIMEOUT) < TWO_TO_31
  }

  predicate AllComparable(n: Node, heard: int, run: seq<Moment>) {
    forall k :: 0 <= k < |run| && run[k].Polled? ==> Comparable(LastHeard(n, heard, run[..k]), run[k].at)
  }

  /** Every periodic call comes at most one timeout after the grandmaster was last heard. */
  predicate AllInTime(n: Node, heard: int, run: seq<Moment>) {
    forall k :: 0 <= k < |run| && run[k].Polled? ==> run[k].at <= LastHeard(n, heard, run[..k]) + RECV_ANNOUNCE_TIMEOUT
  }

  lemma InTimeSnoc(n: Node, heard: int, run: seq<Moment>)
    requires run != []
    ensures var shorter, x := run[..|run| - 1], run[|run| - 1];
            AllInTime(n, heard, run)
            <==> AllInTime(n, heard, shorter)
                 && (x.Polled? ==> x.at <= LastHeard(n, heard, shorter) + RECV_ANNOUNCE_TIMEOUT)
  {
    var shorter := run[..|run| - 1];
    forall k | 0 <= k < |shorter| ensures run[k] == shorter[k] && run[..k] == shorter[..k] {
    }
    assert run[..|run| - 1] == shorter;
  }

  lemma PrefixFits(n: Node, heard: int, run: seq<Moment>)
    requires run != [] && NothingBetter(n, run) && AllComparable(n, heard, run)
    ensures NothingBetter(n, run[..|run| - 1]) && AllComparable(n, heard, run[..|run| - 1])
  {
    var shorter := run[..|run| - 1];
    forall k | 0 <= k < |shorter| ensures run[k] == shorter[k] && run[..k] == shorter[..k] {
    }
  }

  /** Still a slave of the same master, with the timer at `heard`. */
  predicate Follows(m: Node, n: Node, heard: int) {
    && m.role.Slave? && m.heardValid && m.heard == Wrap32(heard)
    && m.me == n.me && m.best == n.best && m.masterPort == n.masterPort
  }

  lemma FollowsOn(m: Node, n: Node, heard: int, x: Moment)
    requires Follows(m, n, heard)
    requires if x.Announced? then !Adopts(n, x.a) else Comparable(heard, x.at)
    ensures var next := Called(m, CallAt(x));
            if x.Announced? then
              Follows(next, n, if IsFrom(CallAt(x), n.masterPort, n.best.identity) then x.at else heard)
            else if x.at <= heard + RECV_ANNOUNCE_TIMEOUT then Follows(next, n, heard)
            else next.role.Uncertain?
  {
    if x.Polled? {
      TimeoutIsReal(x.at, heard);
    }
  }

  /**
   On the wrapping clock, a slave that hears nothing better follows its master through the whole run as long as each
   periodic call comes at most one timeout after it last heard its grandmaster from its master port.
   */
  lemma {:induction false} SlaveWhileHeard(n: Node, heard: int, run: seq<Moment>)
    requires Follows(n, n, heard) && NothingBetter(n, run) && AllComparable(n, heard, run) && AllInTime(n, heard, run)
    ensures Follows(AfterMoments(n, run), n, LastHeard(n, heard, run))
  {
    if run == [] {
    } else {
      var shorter := run[..|run| - 1];
      PrefixFits(n, heard, run);
      InTimeSnoc(n, heard, run);
      SlaveWhileHeard(n, heard, shorter);
      FollowsOn(AfterMoments(n, shorter), n, LastHeard(n, heard, shorter), run[|run| - 1]);
    }
  }

  /** And no longer: at the first call that comes later than that it begins to doubt. */
  lemma SlaveExactlyWhileHeard(n: Node, heard: int, run: seq<Moment>)
    requires run != [] && Follows(n, n, heard) && NothingBetter(n, run) && AllComparable(n, heard, run)
    requires AllInTime(n, heard, run[..|run| - 1])
    ensures AfterMoments(n, run).role.Slave? <==> AllInTime(n, heard, run)
    ensures !AllInTime(n, heard, run) ==> AfterMoments(n, run).role.Uncertain?
  {
    var shorter := run[..|run| - 1];
    PrefixFits(n, heard, run);
    InTimeSnoc(n, heard, run);
    SlaveWhileHeard(n, heard, shorter);
    FollowsOn(AfterMoments(n, shorter), n, LastHeard(n, heard, shorter), run[|run| - 1]);
  }

  // ---------- a network that stays in touch ----------

  /** When node `i` last heard node `j`. */
  function LatestDelivery(run: seq<Happening>, i: nat, j: nat): Option<uint32> {
    if run == [] then None
    else
      var h := run[|run| - 1];
      if h.Delivery? && h.source == j && h.target == i then Some(h.t) else LatestDelivery(run[..|run| - 1], i, j)
  }

  /** Whenever a node does its periodic work, whom it has heard it has heard at most a timeout before. */
  predicate InTouch(run: seq<Happening>) {
    run == [] ||
    (InTouch(run[..|run| - 1]) && (run[|run| - 1].Tick? ==> TickInTouch(run[..|run| - 1], run[|run| - 1])))
  }

  predicate TickInTouch(run: seq<Happening>, h: Happening)
    requires h.Tick?
  {
    forall k :: 0 <= k < |run| && run[k].Delivery? && run[k].target == h.node ==>
      var heard := LatestDelivery(run, h.node, run[k].source);
      heard.Some? && !TimeAfter(h.t, Wrap32(heard.value + RECV_ANNOUNCE_TIMEOUT))
  }

  lemma {:induction false} LatestIsThere(run: seq<Happening>, i: nat, j: nat)
    requires LatestDelivery(run, i, j).Some?
    ensures exists k :: 0 <= k < |run| && run[k].Delivery? && run[k].target == i && run[k].source == j
  {
    var h := run[|run| - 1];
    if !(h.Delivery? && h.source == j && h.target == i) {
      LatestIsThere(run[..|run| - 1], i, j);
    }
  }

  /** A node is no doubter, and as a slave its timer runs from the latest delivery of the node whose vector it holds. */
  ghost predicate TimedBy(own: seq<Announce>, run: seq<Happening>, i: nat, n: Node) {
    && !n.role.Uncertain?
    && (n.role.Slave? ==> exists j: nat :: TimedByNode(own, run, i, n, j))
  }

  predicate TimedByNode(own: seq<Announce>, run: seq<Happening>, i: nat, n: Node, j: nat) {
    && j < |own| && n.best == own[j] && n.masterPort == PortOf(own[j].identity) && n.heardValid
    && LatestDelivery(run, i, j) == Some(n.heard)
  }

  lemma NotTimedOut(own: seq<Announce>, run: seq<Happening>, n: Node, h: Happening)
    requires h.Tick? && TickInTouch(run, h) && TimedBy(own, run, h.node, n)
    ensures n.role.Master? || !TimedOut(n, h.t)
  {
    if n.role.Slave? {
      var j: nat :| TimedByNode(own, run, h.node, n, j);
      LatestIsThere(run, h.node, j);
    }
  }

  lemma TimedAfterDelivery(own: seq<Announce>, run: seq<Happening>, i: nat, n: Node, h: Happening)
    requires DistinctClocks(own) && i < |own| && n.me == own[i] && TimedBy(own, run, i, n)
    requires h.Delivery? && h.source < |own| && h.target == i
    ensures TimedBy(own, run + [h], i, Received(n, own[h.source], PortOf(own[h.source].identity), h.t))
  {
    var a := own[h.source];
    var m := Received(n, a, PortOf(a.identity), h.t);
    assert (run + [h])[..|run|] == run;
    if m.role.Slave? {
      if m.best == a && m.masterPort == PortOf(a.identity) {
        assert TimedByNode(own, run + [h], i, m, h.source);
      } else {
        var j: nat :| TimedByNode(own, run, i, n, j);
        assert TimedByNode(own, run + [h], i, m, j);
      }
    }
  }

  lemma TimedAfterOther(own: seq<Announce>, run: seq<Happening>, i: nat, n: Node, h: Happening, m: Node)
    requires TimedBy(own, run, i, n) && (h.Delivery? && h.source < |own| ==> h.target != i)
    requires m.role == n.role && m.best == n.best && m.masterPort == n.masterPort && m.heardValid == n.heardValid
    requires m.heard == n.heard
    ensures TimedBy(own, run + [h], i, m)
  {
    assert (run + [h])[..|run|] == run;
    if m.role.Slave? {
      var j: nat :| TimedByNode(own, run, i, n, j);
      assert TimedByNode(own, run + [h], i, m, j);
    }
  }

  lemma InTimeTick(n: Node, t: uint32, legacy: bool)
    requires n.role.Master? || !TimedOut(n, t)
    ensures var m := Periodic(n, t, legacy);
            m.role == n.role && m.best == n.best && m.masterPort == n.masterPort && m.heardValid == n.heardValid
            && m.heard == n.heard
  {
  }

  lemma {:induction false} TimedInEveryRun(own: seq<Announce>, run: seq<Happening>, i: nat)
    requires i < |own| && DistinctClocks(own) && InTouch(run)
    ensures |Network(own, run)| == |own| && TimedBy(own, run, i, Network(own, run)[i])
  {
    OwnersStay(own, run, i);
    if run == [] {
    } else {
      var shorter, h := run[..|run| - 1], run[|run| - 1];
      TimedInEveryRun(own, shorter, i);
      OwnersStay(own, shorter, i);
      var net := Network(own, shorter);
      NodeAfter(net, h, i);
      assert run == shorter + [h];
      if h.Delivery? && h.source < |own| && h.target == i {
        OwnersStay(own, shorter, h.source);
        TimedAfterDelivery(own, shorter, i, net[i], h);
      } else {
        if h.Tick? && h.node == i {
          NotTimedOut(own, shorter, net[i], h);
          InTimeTick(net[i], h.t, h.legacy);
        }
        TimedAfterOther(own, shorter, i, net[i], h, Network(own, run)[i]);
      }
    }
  }

  lemma {:induction false} NetworkKeepsSize(own: seq<Announce>, run: seq<Happening>)
    ensures |Network(own, run)| == |own|
  {
    if run == [] {
    } else {
      NetworkKeepsSize(own, run[..|run| - 1]);
    }
  }

  lemma {:induction false} InTouchHasNoTimeouts(own: seq<Announce>, run: seq<Happening>)
    requires DistinctClocks(own) && InTouch(run)
    ensures NoTimeouts(own, run)
  {
    if run == [] {
    } else {
      var shorter, h := run[..|run| - 1], run[|run| - 1];
      InTouchHasNoTimeouts(own, shorter);
      NetworkKeepsSize(own, shorter);
      if h.Tick? && h.node < |own| {
        TimedInEveryRun(own, shorter, h.node);
        NotTimedOut(own, shorter, Network(own, shorter)[h.node], h);
      }
    }
  }

  /**
   A network whose nodes keep hearing each other agrees, and stays in agreement: if at every periodic call whom a node
   has heard it has heard at most a timeout before, then once everyone has heard everyone all hold the least vector, and
   exactly its owner is not a slave.
   */
  lemma AgreementInTouch(own: seq<Announce>, run: seq<Happening>) returns (leader: nat)
    requires own != [] && DistinctClocks(own) && InTouch(run) && EveryoneHeardEveryone(own, run)
    ensures leader < |own| == |Network(own, run)|
    ensures forall i :: 0 <= i < |own| ==>
      var n := Network(own, run)[i];
      n.best == own[leader] && Rank(own[leader]) <= Rank(own[i]) && (n.role != Slave <==> i == leader)
  {
    InTouchHasNoTimeouts(own, run);
    leader := GrandmasterAgreement(own, run);
  }
}
