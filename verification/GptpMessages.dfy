/**
 Sync and path delay messages: which of them are taken together, what is measured from them, and the pair of times that
 the conversions refer to (module_gptp/src/gptp.c).
 */
module GptpMessages {
  import opened Bytes
  import opened Wrappers
  import opened GptpTime
  import opened GptpSync
  import opened GptpBmca
  import opened GptpRate

  type uint16 = x: int | 0 <= x < TWO_TO_16

  /** The messages `ptp_recv` takes measurements from; announcements and requests are not among them. */
  datatype Message =
    | SyncMessage(source: PortId, id: uint16, ingress: uint32)
    | FollowUp(source: PortId, id: uint16, origin: PtpTimestamp, correction: int)
    | DelayResponse(source: PortId, id: uint16, receipt: PtpTimestamp, ingress: uint32)
    | DelayFollowUp(source: PortId, id: uint16, egress: PtpTimestamp)

  /** What is remembered of a sync until its follow-up, and of a delay request until the end of its exchange. */
  datatype Pairing = Pairing(
    syncHeard: bool, syncId: uint16, syncAt: uint32,
    asked: bool, askId: uint16, askedAt: uint32,
    answered: bool, answerId: uint16, answeredAt: uint32, receipt: PtpTimestamp)

  /** What a message leads to: a pair for the rate, the four times of a delay, or nothing. */
  datatype Outcome =
    | Nothing
    | Synced(master: PtpTimestamp, local: uint32)
    | DelayTimes(receipt: PtpTimestamp, egress: PtpTimestamp, sentAt: uint32, receivedAt: uint32)

  /** The origin of a sync with the correction of its follow-up, which counts in parts of two to the 16. */
  function Corrected64(origin: PtpTimestamp, correction: int): PtpTimestamp {
    Offset64(origin, ShiftRight(correction, TWO_TO_16))
  }

  /** Whose delay messages count: in legacy mode only the master's. */
  predicate Counts(source: PortId, masterPort: PortId, legacy: bool) {
    !legacy || source == masterPort
  }

  /** The measuring branches of `ptp_recv`. */
  function Heard(p: Pairing, m: Message, masterPort: PortId, legacy: bool): (Pairing, Outcome) {
    match m
    case SyncMessage(source, id, ingress) =>
      (if source == masterPort then p.(syncHeard := true, syncId := id, syncAt := ingress) else p, Nothing)
    case FollowUp(source, id, origin, correction) =>
      (p.(syncHeard := false),
       if p.syncHeard && p.syncId == id && source == masterPort then Synced(Corrected64(origin, correction), p.syncAt)
       else Nothing)
    case DelayResponse(source, id, receipt, ingress) =>
      (if !Counts(source, masterPort, legacy) then p
       else if p.asked && p.askId == id then
         p.(asked := false, answered := true, answerId := id, answeredAt := ingress, receipt := receipt)
       else p.(asked := false), Nothing)
    case DelayFollowUp(source, id, egress) =>
      (if Counts(source, masterPort, legacy) then p.(answered := false) else p,
       if Counts(source, masterPort, legacy) && p.answered && p.answerId == id
       then DelayTimes(p.receipt, egress, p.askedAt, p.answeredAt) else Nothing)
  }

  /** `send_ptp_pdelay_req_msg`: the next number, and the time the request goes out. */
  function Asking(p: Pairing, at: uint32): Pairing {
    p.(asked := true, askId := (p.askId + 1) % TWO_TO_16, askedAt := at)
  }

  /** The estimates after a measurement. */
  function Estimated(s: SyncState, o: Outcome): SyncState {
    match o
    case Nothing => s
    case Synced(master, local) => Adjusted(s, Sample(master, local))
    case DelayTimes(receipt, egress, sentAt, receivedAt) =>
      WithDelay(s, MeasuredDelay(s, Diff(egress, receipt), Wrap32(receivedAt - sentAt)))
  }

  /** A local time and the PTP time that goes with it, which all conversions refer to. */
  datatype Reference = Reference(local: uint32, ptp: PtpTimestamp)

  /** `update_reference_timestamps`: the master's time, and what the message took to get here. */
  function ReferenceAfter(r: Reference, s: SyncState, o: Outcome): Reference {
    if o.Synced? then Reference(o.local, Offset64(o.master, s.delay)) else r
  }

  const REFERENCE_PERIOD: int := 500_000_000

  /** `periodic_update_reference_timestamps`: an old reference is moved up to the present. */
  function Moved(r: Reference, s: SyncState, now: uint32): Reference {
    var d := Signed32(now - r.local);
    if d > REFERENCE_PERIOD then Reference(now, Offset64(r.ptp, LocalToPtpInterval(s, d))) else r
  }

  class PtpReceiver {
    var receivedSync: bool
    var receivedSyncId: uint16
    var receivedSyncTs: uint32
    var pdelayRequestSent: bool
    var pdelayReqSeqId: uint16
    var pdelayRequestSentTs: uint32
    var receivedPdelay: bool
    var receivedPdelayId: uint16
    var pdelayRespIngressTs: uint32
    var pdelayRequestReceiptTs: PtpTimestamp
    var referenceLocalTs: uint32
    var referencePtpTs: PtpTimestamp
    const clock: SyncClock

    function Current(): Pairing
      reads this
    {
      Pairing(receivedSync, receivedSyncId, receivedSyncTs, pdelayRequestSent, pdelayReqSeqId, pdelayRequestSentTs,
              receivedPdelay, receivedPdelayId, pdelayRespIngressTs, pdelayRequestReceiptTs)
    }

    function CurrentReference(): Reference
      reads this
    {
      Reference(referenceLocalTs, referencePtpTs)
    }

    /** The zeroed globals the program starts with. */
    constructor (clock: SyncClock)
      ensures this.clock == clock && Current() == Idle() && CurrentReference() == Reference(0, PtpTimestamp(0, 0))
    {
      this.clock := clock;
      receivedSync, receivedSyncId, receivedSyncTs := false, 0, 0;
      pdelayRequestSent, pdelayReqSeqId, pdelayRequestSentTs := false, 0, 0;
      receivedPdelay, receivedPdelayId, pdelayRespIngressTs := false, 0, 0;
      pdelayRequestReceiptTs := PtpTimestamp(0, 0);
      referenceLocalTs, referencePtpTs := 0, PtpTimestamp(0, 0);
    }

    method SendDelayRequest(at: uint32)
      modifies this`pdelayRequestSent, this`pdelayReqSeqId, this`pdelayRequestSentTs
      ensures Current() == Asking(old(Current()), at)
    {
      pdelayReqSeqId := (pdelayReqSeqId + 1) % TWO_TO_16;
      pdelayRequestSentTs := at;
      pdelayRequestSent := true;
    }

    /** A follow-up of the master's sync: the rate first, then the reference. */
    method TakeSync(master: PtpTimestamp)
      modifies this`referenceLocalTs, this`referencePtpTs, clock
      ensures clock.Current() == Adjusted(old(clock.Current()), Sample(master, receivedSyncTs))
      ensures CurrentReference() == Reference(receivedSyncTs, Offset64(master, old(clock.Current()).delay))
    {
      clock.UpdateAdjust(master, receivedSyncTs);
      referenceLocalTs := receivedSyncTs;
      referencePtpTs := Offset64(master, clock.pathDelay);
    }

    method ReceiveFollowUp(m: Message, masterPort: PortId, legacy: bool)
      requires m.FollowUp?
      modifies this`receivedSync, this`referenceLocalTs, this`referencePtpTs, clock
      ensures Took(m, masterPort, legacy, old(Current()), old(CurrentReference()), old(clock.Current()))
    {
      if receivedSync && receivedSyncId == m.id && m.source == masterPort {
        TakeSync(Corrected64(m.origin, m.correction));
      }
      receivedSync := false;
    }

    method ReceiveResponse(m: Message, masterPort: PortId, legacy: bool)
      requires m.DelayResponse?
      modifies this
      ensures Took(m, masterPort, legacy, old(Current()), old(CurrentReference()), old(clock.Current()))
    {
      if !legacy || m.source == masterPort {
        if pdelayRequestSent && pdelayReqSeqId == m.id {
          receivedPdelay, receivedPdelayId, pdelayRespIngressTs := true, m.id, m.ingress;
          pdelayRequestReceiptTs := m.receipt;
        }
        pdelayRequestSent := false;
      }
    }

    method ReceiveDelayFollowUp(m: Message, masterPort: PortId, legacy: bool)
      requires m.DelayFollowUp?
      modifies this`receivedPdelay, clock
      ensures Took(m, masterPort, legacy, old(Current()), old(CurrentReference()), old(clock.Current()))
    {
      if !legacy || m.source == masterPort {
        if receivedPdelay && receivedPdelayId == m.id {
          clock.UpdatePathDelay(pdelayRequestReceiptTs, m.egress, pdelayRequestSentTs, pdelayRespIngressTs);
        }
        receivedPdelay := false;
      }
    }

    /** The message has been taken: what is remembered, the estimates and the reference are what it leads to. */
    ghost predicate Took(m: Message, masterPort: PortId, legacy: bool, p: Pairing, r: Reference, s: SyncState)
      reads this, clock
    {
      var (next, o) := Heard(p, m, masterPort, legacy);
      Current() == next && clock.Current() == Estimated(s, o) && CurrentReference() == ReferenceAfter(r, s, o)
    }

    /** The measuring branches of `ptp_recv`. */
    method Receive(m: Message, masterPort: PortId, legacy: bool)
      modifies this, clock
      ensures Took(m, masterPort, legacy, old(Current()), old(CurrentReference()), old(clock.Current()))
    {
      match m {
        case SyncMessage(source, id, ingress) =>
          if source == masterPort {
            receivedSync, receivedSyncId, receivedSyncTs := true, id, ingress;
          }
        case FollowUp(_, _, _, _) => ReceiveFollowUp(m, masterPort, legacy);
        case DelayResponse(_, _, _, _) => ReceiveResponse(m, masterPort, legacy);
        case DelayFollowUp(_, _, _) => ReceiveDelayFollowUp(m, masterPort, legacy);
      }
    }

    method MoveReference(now: uint32)
      modifies this`referenceLocalTs, this`referencePtpTs
      ensures CurrentReference() == Moved(old(CurrentReference()), clock.Current(), now)
    {
      var d := Signed32(now - referenceLocalTs);
      if d > REFERENCE_PERIOD {
        var ptpDiff := LocalToPtpInterval(clock.Current(), d);
        referenceLocalTs := now;
        referencePtpTs := Offset64(referencePtpTs, ptpDiff);
      }
    }
  }

  function Idle(): Pairing {
    Pairing(false, 0, 0, false, 0, 0, false, 0, 0, PtpTimestamp(0, 0))
  }

  // ---------- whole runs ----------

  /** A message, with the master port and the mode at the time, or a request that goes out. */
  datatype Event = Message(m: Message, masterPort: PortId, legacy: bool) | Request(at: uint32)

  function PairingAfter(run: seq<Event>): Pairing {
    if run == [] then Idle()
    else
      var p := PairingAfter(run[..|run| - 1]);
      match run[|run| - 1]
      case Message(m, masterPort, legacy) => Heard(p, m, masterPort, legacy).0
      case Request(at) => Asking(p, at)
  }

  /** What comes of message `m` after the run. */
  function OutcomeOf(run: seq<Event>, m: Message, masterPort: PortId, legacy: bool): Outcome {
    Heard(PairingAfter(run), m, masterPort, legacy).1
  }

  // ---------- syncs and their follow-ups ----------

  predicate IsSync(e: Event) {
    e.Message? && e.m.SyncMessage? && e.m.source == e.masterPort
  }

  /** The latest sync from the master at the time, if no follow-up of any kind came behind it. */
  function WaitingSync(run: seq<Event>): Option<nat> {
    if run == [] then None
    else
      var n := |run| - 1;
      if IsSync(run[n]) then Some(n)
      else if run[n].Message? && run[n].m.FollowUp? then None
      else WaitingSync(run[..n])
  }

  lemma {:induction false} WaitingIsSync(run: seq<Event>)
    ensures var j := WaitingSync(run); j.Some? ==> j.value < |run| && IsSync(run[j.value])
  {
    if run == [] {
    } else {
      WaitingIsSync(run[..|run| - 1]);
    }
  }

  lemma {:induction false} SyncIsAwaited(run: seq<Event>)
    ensures var p, j := PairingAfter(run), WaitingSync(run);
            && (p.syncHeard <==> j.Some?)
            && (j.Some? ==> j.value < |run| && IsSync(run[j.value])
                            && p.syncId == run[j.value].m.id && p.syncAt == run[j.value].m.ingress)
  {
    if run == [] {
    } else {
      SyncIsAwaited(run[..|run| - 1]);
    }
  }

  /**
   In every run of messages, lost, repeated or out of order, the rate is measured from a follow-up exactly if it comes
   from the master and has the number of the sync that waits, and then with the time at which that sync came in. No
   sync is taken twice, as any follow-up ends the wait.
   */
  lemma SyncedExactlyWhen(run: seq<Event>, m: Message, masterPort: PortId, legacy: bool)
    requires m.FollowUp?
    ensures var o, j := OutcomeOf(run, m, masterPort, legacy), WaitingSync(run);
            && (o.Synced? <==> j.Some? && j.value < |run| && IsSync(run[j.value]) && run[j.value].m.id == m.id
                               && m.source == masterPort)
            && (o.Synced? ==> o.local == run[j.value].m.ingress && o.master == Corrected64(m.origin, m.correction))
    ensures WaitingSync(run + [Message(m, masterPort, legacy)]).None?
  {
    SyncIsAwaited(run);
  }

  /** The sync and its follow-up are of one clock exactly if the master port has not changed between them. */
  lemma OneMasterExactlyWhen(run: seq<Event>, m: Message, masterPort: PortId, legacy: bool)
    requires m.FollowUp? && OutcomeOf(run, m, masterPort, legacy).Synced?
    ensures WaitingSync(run).Some? && WaitingSync(run).value < |run|
    ensures var e := run[WaitingSync(run).value];
            IsSync(e) && (e.m.source == m.source <==> e.masterPort == masterPort)
  {
    SyncIsAwaited(run);
  }

  // ---------- the exchange of a path delay ----------

  predicate IsResponse(e: Event) {
    e.Message? && e.m.DelayResponse? && Counts(e.m.source, e.masterPort, e.legacy)
  }

  predicate IsDelayFollowUp(e: Event) {
    e.Message? && e.m.DelayFollowUp? && Counts(e.m.source, e.masterPort, e.legacy)
  }

  /** How many requests have gone out: the latest one has this number, modulo 2 to the 16. */
  function Requests(run: seq<Event>): nat {
    if run == [] then 0 else Requests(run[..|run| - 1]) + if run[|run| - 1].Request? then 1 else 0
  }

  /** The latest request, whether it was answered or not. */
  function LastRequest(run: seq<Event>): Option<nat> {
    if run == [] then None
    else if run[|run| - 1].Request? then Some((|run| - 1) as nat) else LastRequest(run[..|run| - 1])
  }

  /** The latest request, if no response came behind it. */
  function OpenRequest(run: seq<Event>): Option<nat> {
    if run == [] then None
    else
      var n := |run| - 1;
      if run[n].Request? then Some(n) else if IsResponse(run[n]) then None else OpenRequest(run[..n])
  }

  /** A request and its response, with the response's number, and no end of an exchange behind them. */
  function AnsweredRequest(run: seq<Event>): Option<(nat, nat)> {
    if run == [] then None
    else
      var n := |run| - 1;
      if IsDelayFollowUp(run[n]) then None
      else if IsResponse(run[n]) && OpenRequest(run[..n]).Some? && run[n].m.id == Requests(run[..n]) % TWO_TO_16 then
        Some((OpenRequest(run[..n]).value, n))
      else AnsweredRequest(run[..n])
  }

  lemma {:induction false} NumberIsKnown(run: seq<Event>)
    ensures PairingAfter(run).askId == Requests(run) % TWO_TO_16
  {
    if run == [] {
    } else {
      NumberIsKnown(run[..|run| - 1]);
      NextNumber(Requests(run[..|run| - 1]));
    }
  }

  lemma {:induction false} RequestIsKnown(run: seq<Event>)
    ensures var p := PairingAfter(run);
            && (p.asked <==> OpenRequest(run).Some?)
            && (LastRequest(run).Some? ==>
                  LastRequest(run).value < |run| && run[LastRequest(run).value].Request?
                  && p.askedAt == run[LastRequest(run).value].at)
            && (OpenRequest(run).Some? ==> OpenRequest(run) == LastRequest(run))
  {
    if run == [] {
    } else {
      RequestIsKnown(run[..|run| - 1]);
    }
  }

  lemma NextNumber(n: nat)
    ensures (n % TWO_TO_16 + 1) % TWO_TO_16 == (n + 1) % TWO_TO_16
  {
  }

  /** A request before its response, and the response as it is remembered. */
  predicate Exchange(p: Pairing, run: seq<Event>, i: nat, j: nat) {
    && i < j < |run| && run[i].Request? && IsResponse(run[j])
    && p.answerId == run[j].m.id && p.answeredAt == run[j].m.ingress && p.receipt == run[j].m.receipt
  }

  lemma {:induction false} AnswerIsKnown(run: seq<Event>)
    ensures var p, x := PairingAfter(run), AnsweredRequest(run);
            (p.answered <==> x.Some?)
            && (x.Some? ==> Exchange(p, run, x.value.0, x.value.1) && LastRequest(run).Some?
                            && x.value.0 <= LastRequest(run).value)
  {
    if run == [] {
    } else {
      AnswerIsKnown(run[..|run| - 1]);
      RequestIsKnown(run[..|run| - 1]);
      NumberIsKnown(run[..|run| - 1]);
    }
  }

  /**
   In every run a delay is measured from a follow-up exactly if it has the number of a response that answered the
   latest request of its time, with the receipt and the arrival of that response, but with the departure of whatever
   request went out last.
   */
  lemma DelayMeasuredExactlyWhen(run: seq<Event>, m: Message, masterPort: PortId, legacy: bool)
    requires m.DelayFollowUp?
    ensures var o, x := OutcomeOf(run, m, masterPort, legacy), AnsweredRequest(run);
            && (x.Some? ==> x.value.0 < x.value.1 < |run| && IsResponse(run[x.value.1]) && run[x.value.0].Request?
                            && LastRequest(run).Some? && LastRequest(run).value < |run|
                            && run[LastRequest(run).value].Request?)
            && (o.DelayTimes? <==> Counts(m.source, masterPort, legacy) && x.Some? && run[x.value.1].m.id == m.id)
            && (o.DelayTimes? ==>
                  var answer := run[x.value.1].m;
                  o == DelayTimes(answer.receipt, m.egress, run[LastRequest(run).value].at, answer.ingress))
  {
    AnswerIsKnown(run);
    RequestIsKnown(run);
  }

  /** No request goes out between the response and its follow-up. */
  predicate NoneInBetween(run: seq<Event>, j: nat) {
    forall k :: j <= k < |run| ==> !run[k].Request?
  }

  lemma {:induction false} LastRequestIs(run: seq<Event>, i: nat)
    requires LastRequest(run) == Some(i)
    ensures i < |run| && run[i].Request? && forall k :: i < k < |run| ==> !run[k].Request?
  {
    var n := |run| - 1;
    if run[n].Request? {
    } else {
      LastRequestIs(run[..n], i);
      assert forall k :: 0 <= k < n ==> run[k] == run[..n][k];
    }
  }

  lemma {:induction false} AnswersTheLatest(run: seq<Event>)
    requires AnsweredRequest(run).Some?
    ensures var (i, j) := AnsweredRequest(run).value;
            i < j < |run| && run[i].Request? && forall k :: i < k < j ==> !run[k].Request?
  {
    var n := |run| - 1;
    if IsResponse(run[n]) && OpenRequest(run[..n]).Some? && run[n].m.id == Requests(run[..n]) % TWO_TO_16 {
      RequestIsKnown(run[..n]);
      LastRequestIs(run[..n], OpenRequest(run[..n]).value);
      assert forall k :: 0 <= k < n ==> run[k] == run[..n][k];
    } else {
      AnswersTheLatest(run[..n]);
      var (i, j) := AnsweredRequest(run[..n]).value;
      assert AnsweredRequest(run).value == (i, j) && run[i] == run[..n][i];
      forall k | i < k < j ensures !run[k].Request? {
        assert run[k] == run[..n][k];
      }
    }
  }

  /** So the four times belong together exactly if no request went out between the response and its follow-up. */
  lemma TimesBelongTogetherExactlyWhen(run: seq<Event>)
    requires AnsweredRequest(run).Some?
    ensures var (i, j) := AnsweredRequest(run).value; LastRequest(run) == Some(i) <==> NoneInBetween(run, j)
  {
    AnswersTheLatest(run);
    AnswerIsKnown(run);
    var (i, j) := AnsweredRequest(run).value;
    var l := LastRequest(run).value;
    LastRequestIs(run, l);
    assert run[l].Request? && run[i].Request? && i <= l;
  }

  /**
   A run in which they do not: request 1 at 1000, its response at 2000, request 2 at 3000, and only then the follow-up
   of the first. On a link of 500 ticks each way, with an answer in no time, the delay comes out as more than 21
   seconds.
   */
  lemma OverlappingRequest(port: PortId)
    ensures var run := [Request(1000), Message(DelayResponse(port, 1, PtpTimestamp(0, 7000), 2000), port, false),
                        Request(3000)];
            var m := DelayFollowUp(port, 1, PtpTimestamp(0, 7000));
            OutcomeOf(run, m, port, false) == DelayTimes(PtpTimestamp(0, 7000), PtpTimestamp(0, 7000), 3000, 2000)
    ensures forall s: SyncState :: !s.adjustValid ==>
              MeasuredDelay(s, Diff(PtpTimestamp(0, 7000), PtpTimestamp(0, 7000)), Wrap32(2000 - 3000))
              == 21_474_831_480
  {
    assert Diff(PtpTimestamp(0, 7000), PtpTimestamp(0, 7000)) == 0;
    assert Wrap32(2000 - 3000) == 4_294_966_296;
    var a, c := Request(1000), Request(3000);
    var b := Message(DelayResponse(port, 1, PtpTimestamp(0, 7000), 2000), port, false);
    assert [a][..0] == [] && [a, b][..1] == [a] && [a, b, c][..2] == [a, b];
    var p := Asking(Idle(), 1000);
    assert PairingAfter([a]) == p;
    var q := Heard(p, b.m, port, false).0;
    assert PairingAfter([a, b]) == q;
    assert PairingAfter([a, b, c]) == Asking(q, 3000);
  }

  // ---------- the reference ----------

  lemma StampMoved(ns: nat, offset: nat)
    requires ns < TWO_TO_63 * NANOSECONDS_PER_SECOND && offset < TWO_TO_63
    ensures Nanos(StampOf(ns)) == ns && Nanos(Offset64(StampOf(ns), offset)) == ns + offset
  {
    OffsetValue(StampOf(ns), offset);
  }

  /**
   After a follow-up of real master time `ns` the reference is the local time the sync came in, and the master's time
   then, but for what the estimate of the link's delay is off.
   */
  lemma ReferenceIsReal(r: Reference, s: SyncState, ns: nat, ticks: nat, delay: int)
    requires ns < TWO_TO_63 * NANOSECONDS_PER_SECOND
    ensures var t := ReferenceAfter(r, s, Synced(StampOf(ns), Wrap32(ticks)));
            t.local == Wrap32(ticks) && Nanos(t.ptp) - (ns + delay) == s.delay - delay
  {
    StampMoved(ns, s.delay);
  }

  /**
   Without follow-ups the reference is moved up after five seconds: `d` ticks on, by the nanoseconds that really went
   by at the master, up to the slack of the conversion; otherwise it stays.
   */
  lemma MovedReferenceIsReal(r: Reference, s: SyncState, ticks: int, d: int, elapsed: int, p: int, q: int, units: nat)
    returns (y: int)
    requires r.local == Wrap32(ticks) && Roomy(r.ptp) && REFERENCE_PERIOD < d < TWO_TO_31
    requires p > 0 && q > 0 && SameInterval(elapsed, 10 * d, p, q)
    requires s.adjustValid && Abs(RateError(s.adjust, p, q)) <= units * p && Moderate(s.adjust)
    ensures var t := Moved(r, s, Wrap32(ticks + d));
            t.local == Wrap32(ticks + d) && Nanos(t.ptp) == Nanos(r.ptp) + y
    ensures p * q * K * Abs(y - elapsed) <= Slack(10 * d, p, q, units)
  {
    TicksDiff(ticks + d, ticks);
    y := LocalToPtpInterval(s, d);
    ConvertedInterval(s, d);
    CorrectedIsReal(10 * d, elapsed, s.adjust, p, q, units);
    CorrectedBounds(10 * d, s.adjust);
    IntervalFits(10 * d, s.adjust, y);
    OffsetValue(r.ptp, y);
  }

  lemma IntervalFits(x: int, adjust: int, y: int)
    requires 0 <= x <= 10 * TWO_TO_31 && Moderate(adjust) && y * K <= x * (K + adjust) < y * K + K
    ensures 0 <= y < TWO_TO_63
  {
    ProductMonotone(x, K + adjust, 10 * TWO_TO_31, 2 * K);
  }

  lemma YoungReferenceStays(r: Reference, s: SyncState, ticks: int, d: int)
    requires r.local == Wrap32(ticks) && -TWO_TO_31 <= d <= REFERENCE_PERIOD
    ensures Moved(r, s, Wrap32(ticks + d)) == r
  {
    TicksDiff(ticks + d, ticks);
  }
}
