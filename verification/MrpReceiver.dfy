/**
 The packet parser of MRP, and what a whole transmission means at the other end
 (module_avb_srp/src/avb_mrp.c, module_avb_srp/src/avb_srp.c, module_avb_srp/src/avb_mvrp.c).
 */
module MrpReceiver {
  import opened Bytes
  import opened Seqs
  import opened Wrappers
  import opened MrpEvents
  import opened MrpPdu
  import opened MrpDeclarations
  import opened MrpViews

  /** One value of a vector, with its events. */
  method ReadValue(buf: array<byte>, kind: AttributeType, fvl: byte, msg: nat, n: nat, i: nat) returns (v: Indication)
    requires msg + VectorLength(kind, fvl, n) <= buf.Length && i < n
    ensures v == ValueAt(buf[..], kind, fvl, msg, n, i)
  {
    var threePackedLen := (n + 2) / 3;
    var events := msg + 2 + fvl;
    var three := DecodeThreePacked(buf[events + i / 3], i % 3);
    var four: FourEvent := 0;
    if kind.Listener? {
      four := DecodeFourPacked(buf[events + threePackedLen + i / 4], i % 4);
    }
    assert buf[..][msg + 2..events] == buf[msg + 2..events];
    v := Value(kind, buf[msg + 2..events], i, three, four);
  }

  /** The loop over the values of one vector. */
  method ProcessVector(buf: array<byte>, kind: AttributeType, fvl: byte, msg: nat, n: nat)
    returns (said: seq<Indication>)
    requires msg + VectorLength(kind, fvl, n) <= buf.Length
    ensures said == VectorValues(buf[..], kind, fvl, msg, n)
  {
    said := [];
    var i := 0;
    while i < n
      invariant 0 <= i <= n
      invariant |said| == i
      invariant forall k: nat :: k < i ==> said[k] == ValueAt(buf[..], kind, fvl, msg, n, k)
    {
      var v := ReadValue(buf, kind, fvl, msg, n, i);
      said := said + [v];
      i := i + 1;
    }
  }

  /** `b` is what is heard in all, when `said` is heard before `a`. */
  predicate Precedes(said: seq<Indication>, a: Heard, b: Heard) {
    b.said == said + a.said && b.next == a.next
  }

  lemma PrecedesBoth(s: seq<Indication>, t: seq<Indication>, a: Heard, b: Heard, c: Heard)
    requires Precedes(t, a, b) && Precedes(s, b, c)
    ensures Precedes(s + t, a, c)
  {
  }

  /** The leave-all flag of one vector, then its values. */
  method SayVector(buf: array<byte>, kind: AttributeType, fvl: byte, msg: nat, n: nat)
    returns (said: seq<Indication>)
    requires msg + VectorLength(kind, fvl, n) <= buf.Length
    ensures said == VectorSaid(buf[..], kind, fvl, msg, n)
  {
    said := [];
    if buf[msg] / 32 != 0 {
      said := said + [LeaveAll(kind)];
    }
    var values := ProcessVector(buf, kind, fvl, msg, n);
    said := said + values;
  }

  /** The body of the inner loop: one vector, and where the next one starts. */
  method ProcessOneVector(buf: array<byte>, end: nat, kind: AttributeType, fvl: byte, msg: nat)
    returns (said: seq<Indication>, next: Option<nat>)
    requires msg < end < buf.Length && (buf[msg] != 0 || buf[msg + 1] != 0)
    ensures ParseVector(buf[..], end, kind, fvl, msg) == Heard(said, next)
  {
    var n := VectorCount(buf[msg], buf[msg + 1]);
    var len := VectorLength(kind, fvl, n);
    if msg + len > end {
      return [], None;
    }
    said := SayVector(buf, kind, fvl, msg, n);
    next := Some(msg + len);
  }

  /** The inner loop: the vectors of one message; `None` when a vector would run over the end. */
  method ProcessVectors(buf: array<byte>, end: nat, kind: AttributeType, fvl: byte, start: nat)
    returns (said: seq<Indication>, next: Option<nat>)
    requires end < buf.Length
    ensures Heard(said, next) == ParseVectors(buf[..], end, kind, fvl, start)
  {
    said := [];
    var msg := start;
    ghost var s := buf[..];
    ghost var whole := ParseVectors(s, end, kind, fvl, start);
    while msg < end && (buf[msg] != 0 || buf[msg + 1] != 0)
      invariant msg >= start
      invariant Precedes(said, ParseVectors(s, end, kind, fvl, msg), whole)
      decreases if msg < end then end - msg else 0
    {
      ghost var before, rest := said, ParseVectors(s, end, kind, fvl, msg);
      var spoken, after := ProcessOneVector(buf, end, kind, fvl, msg);
      said := said + spoken;
      VectorsStep(s, end, kind, fvl, msg, Heard(spoken, after));
      if after.None? {
        return said, None;
      }
      PrecedesBoth(before, spoken, ParseVectors(s, end, kind, fvl, after.value), rest, whole);
      msg := after.value;
    }
    VectorsStop(s, end, kind, fvl, msg);
    next := Some(msg);
  }

  lemma MessagesStop(app: Application, buf: seq<byte>, end: nat, msg: nat)
    requires end < |buf| && !(msg < end && (buf[msg] != 0 || buf[msg + 1] != 0))
    ensures ParseMessages(app, HasLengths(app), buf, end, msg) == []
  {
  }

  /** The body of the outer loop: one message, and where the next one starts. */
  method ProcessMessage(buf: array<byte>, app: Application, len: nat, msg: nat)
    returns (said: seq<Indication>, next: Option<nat>)
    requires msg < len < buf.Length && (buf[msg] != 0 || buf[msg + 1] != 0)
    ensures next.Some? ==> msg < next.value
    ensures ParseMessage(app, HasLengths(app), buf[..], len, msg) == Heard(said, next)
  {
    var fvl := buf[msg + 1];
    var kind := DecodeType(app, buf[msg]);
    if kind.None? {
      return [], None;
    }
    said, next := ProcessVectors(buf, len, kind.value, fvl, msg + HeaderLength(HasLengths(app)));
    next := BehindMark(next);
  }

  /** `avb_mrp_process_packet`: `buf` starts at the protocol version; byte `len` may be looked at. */
  method ProcessPacket(buf: array<byte>, app: Application, len: nat) returns (said: seq<Indication>)
    requires len < buf.Length
    ensures said == ParseMessages(app, HasLengths(app), buf[..], len, 1)
  {
    said := [];
    var msg := 1;
    ghost var s := buf[..];
    ghost var whole := ParseMessages(app, HasLengths(app), s, len, 1);
    while msg < len && (buf[msg] != 0 || buf[msg + 1] != 0)
      invariant msg >= 1
      invariant whole == said + ParseMessages(app, HasLengths(app), s, len, msg)
      decreases if msg < len then len - msg else 0
    {
      ghost var before := said;
      var spoken, next := ProcessMessage(buf, app, len, msg);
      said := said + spoken;
      MessagesStep(app, HasLengths(app), s, len, msg, Heard(spoken, next));
      if next.None? {
        return;
      }
      Assoc(before, spoken, ParseMessages(app, HasLengths(app), s, len, next.value));
      msg := next.value;
    }
    MessagesStop(app, s, len, msg);
  }

  // ---------- a whole transmission ----------

  /** `rx` holds a received frame from its protocol version on; whatever else it holds, `end` is behind the frame. */
  predicate Receives(rx: seq<byte>, end: nat, frame: seq<byte>) {
    && |frame| >= BODY
    && |frame| - BODY + 1 <= end < |rx|
    && rx[1..|frame| - BODY + 1] == frame[BODY..]
  }

  /** A frame that was sent is heard as its messages meant it. */
  lemma FrameHeard(app: Application, ms: seq<Message>, frame: seq<byte>, rx: seq<byte>, end: nat)
    requires AllAudible(app, ms) && ms != [] && FrameOf(app, ms, frame) && Receives(rx, end, frame)
    ensures ParseMessages(app, HasLengths(app), rx, end, 1) == SaidAll(ms)
  {
    var lengths := HasLengths(app);
    var body := OnWireAll(lengths, ms);
    var zeros := Zeros(|frame| - BODY - |body|);
    assert body + zeros == body + [0, 0] + zeros[2..];
    assert Stands(rx, 1, body + [0, 0] + zeros[2..]);
    StandsSplit(rx, 1, body + [0, 0], zeros[2..]);
    assert Carries(lengths, ms, rx, end, 1);
    RoundTrip(app, lengths, ms, rx, end, 1);
  }

  lemma {:induction false} DeclareAllAudible(app: Application, ms: seq<Message>, ds: seq<Declaration>)
    requires AllAudible(app, ms) && Longest(ms) + |ds| < 256
    requires AllFor(ds, app)
    ensures AllAudible(app, DeclareAll(ms, ds))
    ensures ds != [] || ms != [] ==> DeclareAll(ms, ds) != []
    decreases |ds|
  {
    if ds != [] {
      var d := ds[0];
      DeclareLengthens(ms, d.attribute, d.event);
      DeclareKeeps(app, ms, d.attribute, d.event);
      DeclareAllAudible(app, Declare(ms, d.attribute, d.event), ds[1..]);
    }
  }

  lemma LeaveAllSaysSo(kind: AttributeType, ms: seq<Message>, said: seq<Indication>)
    requires SaidAll(ms) == said
    ensures SaidAll([EmptyMessage(kind, true)] + ms) == [LeaveAll(kind)] + said
  {
    var all := [EmptyMessage(kind, true)] + ms;
    SaidCons(all);
    assert all[1..] == ms;
    assert Said(EmptyMessage(kind, true)) == [LeaveAll(kind)];
  }

  /** A leave-all round begins with one LeaveAll for each type of the application. */
  lemma LeaveAllsSaySo(app: Application)
    ensures SaidAll(LeaveAlls(app))
            == if app.Srp?
               then [LeaveAll(TalkerAdvertise), LeaveAll(TalkerFailed), LeaveAll(Listener), LeaveAll(Domain)]
               else [LeaveAll(VidVector)]
  {
    if app.Srp? {
      LeaveAllSaysSo(Domain, [], []);
      LeaveAllSaysSo(Listener, [EmptyMessage(Domain, true)], [LeaveAll(Domain)]);
      LeaveAllSaysSo(TalkerFailed, [EmptyMessage(Listener, true), EmptyMessage(Domain, true)],
                     [LeaveAll(Listener), LeaveAll(Domain)]);
      LeaveAllSaysSo(TalkerAdvertise,
                     [EmptyMessage(TalkerFailed, true), EmptyMessage(Listener, true), EmptyMessage(Domain, true)],
                     [LeaveAll(TalkerFailed), LeaveAll(Listener), LeaveAll(Domain)]);
    } else {
      LeaveAllSaysSo(VidVector, [], []);
      assert LeaveAlls(app) == [EmptyMessage(VidVector, true)] + [];
    }
  }

  lemma {:induction false} LeaveAllsRegisterNothing(sight: Sight, said: seq<Indication>)
    requires forall i :: 0 <= i < |said| ==> said[i].LeaveAll?
    ensures Registered(sight, said) == multiset{}
  {
    if said == [] {
    } else {
      LeaveAllsRegisterNothing(sight, said[1..]);
    }
  }

  /** What is in a frame before the first declaration registers nothing. */
  lemma StartRegistersNothing(sight: Sight, app: Application, leaveAll: bool)
    ensures Registered(sight, SaidAll(if leaveAll then LeaveAlls(app) else [])) == multiset{}
  {
    if leaveAll {
      LeaveAllsSaySo(app);
      LeaveAllsRegisterNothing(sight, SaidAll(LeaveAlls(app)));
    }
  }

  /**
   What one transmit opportunity declares is what every receiver of the frame registers: each
   declaration once, with its identifier, event and parameter, and nothing else.
   */
  lemma TransmissionRegistered(sight: Sight, app: Application, leaveAll: bool, ds: seq<Declaration>, frame: seq<byte>,
                               rx: seq<byte>, end: nat)
    requires |ds| < 256 && (ds != [] || leaveAll)
    requires AllFor(ds, app)
    requires FrameOf(app, DeclareAll(if leaveAll then LeaveAlls(app) else [], ds), frame) && Receives(rx, end, frame)
    ensures Registered(sight, ParseMessages(app, HasLengths(app), rx, end, 1)) == DeclaredAll(sight, ds)
  {
    var start := if leaveAll then LeaveAlls(app) else [];
    DeclareAllAudible(app, start, ds);
    FrameHeard(app, DeclareAll(start, ds), frame, rx, end);
    DeclaredIsRegistered(sight, start, ds);
    StartRegistersNothing(sight, app, leaveAll);
  }

  // ---------- delivery to the receiver's attributes ----------

  /** `msg_match`: the indication is for attribute `a`. */
  predicate Matches(a: Attribute, said: Indication) {
    && said.Value? && said.kind == KindOf(a)
    && !said.kind.Domain?
    && (said.kind.Listener? ==> said.four == READY)
    && IdentifierAt(said.kind, said.first, said.index) == Identifier(a)
  }

  /** How often the state machine of `a` is given event `e`. */
  function Delivered(said: seq<Indication>, a: Attribute, e: ThreeEvent): nat {
    if said == [] then 0
    else (if Matches(a, said[0]) && said[0].three == e then 1 else 0) + Delivered(said[1..], a, e)
  }

  /** Only Listener values come with a parameter. */
  predicate PlainParameters(said: seq<Indication>) {
    forall i :: 0 <= i < |said| ==> said[i].Value? && !said[i].kind.Listener? ==> said[i].four == 0
  }

  lemma {:induction false} DeliveredAsRegistered(said: seq<Indication>, a: Attribute, e: ThreeEvent)
    requires PlainParameters(said) && !a.DomainAttribute?
    ensures Delivered(said, a, e) == Registered(ById, said)[Declared(ById, Declaration(a, e))]
  {
    if said != [] {
      DeliveredAsRegistered(said[1..], a, e);
    }
  }

  lemma {:induction false} SaidPlainly(ms: seq<Message>)
    ensures PlainParameters(SaidAll(ms))
  {
    if ms != [] {
      SaidCons(ms);
      SaidPlainly(ms[1..]);
    }
  }

  /**
   Each attribute of a receiver is given each event exactly as often as it was declared for that
   attribute: merging into vectors neither loses an event nor gives it to another attribute.
   */
  lemma DeliveredAsDeclared(app: Application, leaveAll: bool, ds: seq<Declaration>, frame: seq<byte>, rx: seq<byte>,
                            end: nat, a: Attribute, e: ThreeEvent)
    requires |ds| < 256 && (ds != [] || leaveAll) && !a.DomainAttribute?
    requires AllFor(ds, app)
    requires FrameOf(app, DeclareAll(if leaveAll then LeaveAlls(app) else [], ds), frame) && Receives(rx, end, frame)
    ensures Delivered(ParseMessages(app, HasLengths(app), rx, end, 1), a, e)
            == DeclaredAll(ById, ds)[Declared(ById, Declaration(a, e))]
  {
    var start := if leaveAll then LeaveAlls(app) else [];
    TransmissionRegistered(ById, app, leaveAll, ds, frame, rx, end);
    DeclareAllAudible(app, start, ds);
    FrameHeard(app, DeclareAll(start, ds), frame, rx, end);
    SaidPlainly(DeclareAll(start, ds));
    DeliveredAsRegistered(SaidAll(DeclareAll(start, ds)), a, e);
  }

  /** The limit of 255 values is the code's: a longer vector's eight-bit count says something else. */
  lemma CountExact(m: Message)
    ensures VectorCount(List(m)[0], List(m)[1]) == |m.threes| <==> |m.threes| < 256
  {
  }
}
