/**
 Two stations: the attributes that one of them offers at a transmit opportunity, the frame they go out in, and what
 the attributes of another one make of it (module_avb_srp/src/avb_mrp.c).
 */
module MrpStations {
  import opened Bytes
  import opened Wrappers
  import opened MrpEvents
  import opened MrpPdu
  import opened MrpDeclarations
  import opened MrpTransmitter
  import opened MrpViews
  import opened MrpReceiver
  import opened MrpAttributeList
  import S = MrpStateMachine

  /** The slots of a station hold these attributes. */
  predicate Described(list: AttributeList, info: seq<Attribute>) {
    |info| == |list.types| && forall k :: 0 <= k < |info| ==> list.types[k] == KindOf(info[k])
  }

  predicate Active(s: S.State) {
    !s.applicant.Unused? && !s.applicant.Disabled?
  }

  // ---------- the station that sends ----------

  /** The types whose attributes are asked at an opportunity of the application. */
  function KindsOf(app: Application): seq<AttributeType> {
    if app.Srp? then [TalkerAdvertise, Listener, Domain] else [VidVector]
  }

  function Among(kinds: seq<AttributeType>): AttributeType -> bool {
    (kind: AttributeType) => kind in kinds
  }

  function TxEvent(leaveAll: bool): S.Event {
    if leaveAll then S.TxLeaveAll else S.Tx
  }

  /** What the attributes hand over, one type after the other. */
  function HandedFor(list: AttributeList, s: seq<int>, was: seq<S.State>, e: S.Event, kinds: seq<AttributeType>)
    : seq<(int, ThreeEvent)>
  {
    if kinds == [] then []
    else
      HandedFor(list, s, was, e, kinds[..|kinds| - 1]) + list.Handed(s, was, e, Only(kinds[|kinds| - 1]))
  }

  /** Attribute `k` is active and says `event`. */
  predicate Says(was: seq<S.State>, k: int, e: S.Event, event: ThreeEvent) {
    0 <= k < |was| && Active(was[k]) && S.Sent(was[k], e) == Some(event)
  }

  lemma InParts<T>(a: seq<T>, b: seq<T>, x: T)
    ensures x in a + b <==> x in a || x in b
  {
  }

  lemma InLast<T>(a: seq<T>, x: T)
    requires a != []
    ensures x in a <==> x in a[..|a| - 1] || x == a[|a| - 1]
  {
  }

  lemma {:induction false} HandedExactly(list: AttributeList, s: seq<int>, was: seq<S.State>, e: S.Event,
                                         kind: AttributeType, k: int, event: ThreeEvent)
    requires |was| == |list.types|
    ensures (k, event) in list.Handed(s, was, e, Only(kind))
            <==> k in s && Says(was, k, e, event) && list.types[k] == kind
  {
    if s == [] {
    } else {
      var n := |s| - 1;
      HandedExactly(list, s[..n], was, e, kind, k, event);
      InLast(s, k);
      InParts(list.Handed(s[..n], was, e, Only(kind)), list.HandedBy(s[n], was, e, Only(kind)), (k, event));
    }
  }

  lemma {:induction false} HandedForExactly(list: AttributeList, s: seq<int>, was: seq<S.State>, e: S.Event,
                                            kinds: seq<AttributeType>, k: int, event: ThreeEvent)
    requires |was| == |list.types|
    ensures (k, event) in HandedFor(list, s, was, e, kinds)
            <==> k in s && Says(was, k, e, event) && list.types[k] in kinds
  {
    if kinds == [] {
    } else {
      var n := |kinds| - 1;
      HandedForExactly(list, s, was, e, kinds[..n], k, event);
      HandedExactly(list, s, was, e, kinds[n], k, event);
      if 0 <= k < |was| {
        InLast(kinds, list.types[k]);
      }
      InParts(HandedFor(list, s, was, e, kinds[..n]), list.Handed(s, was, e, Only(kinds[n])), (k, event));
    }
  }

  /** All that is handed over names slots of the station. */
  predicate InSlots(handed: seq<(int, ThreeEvent)>, n: nat) {
    forall i :: 0 <= i < |handed| ==> 0 <= handed[i].0 < n
  }

  function Declarations(handed: seq<(int, ThreeEvent)>, info: seq<Attribute>): seq<Declaration>
    requires InSlots(handed, |info|)
  {
    seq(|handed|, i requires 0 <= i < |handed| => Declaration(info[handed[i].0], handed[i].1))
  }

  lemma HandedInSlots(list: AttributeList, s: seq<int>, was: seq<S.State>, e: S.Event, kinds: seq<AttributeType>)
    requires |was| == |list.types|
    ensures InSlots(HandedFor(list, s, was, e, kinds), |list.types|)
  {
    var handed := HandedFor(list, s, was, e, kinds);
    forall i | 0 <= i < |handed| ensures 0 <= handed[i].0 < |list.types| {
      assert (handed[i].0, handed[i].1) in handed;
      HandedForExactly(list, s, was, e, kinds, handed[i].0, handed[i].1);
    }
  }

  lemma {:induction false} OneEach(list: AttributeList, s: seq<int>, was: seq<S.State>, e: S.Event, x: AttributeType,
                                   y: AttributeType, z: AttributeType)
    requires x != y && y != z && x != z
    ensures |list.Handed(s, was, e, Only(x))| + |list.Handed(s, was, e, Only(y))| + |list.Handed(s, was, e, Only(z))|
            <= |s|
  {
    if s == [] {
    } else {
      OneEach(list, s[..|s| - 1], was, e, x, y, z);
    }
  }

  lemma HandedForSnoc(list: AttributeList, s: seq<int>, was: seq<S.State>, e: S.Event, kinds: seq<AttributeType>,
                      kind: AttributeType)
    ensures HandedFor(list, s, was, e, kinds + [kind])
            == HandedFor(list, s, was, e, kinds) + list.Handed(s, was, e, Only(kind))
  {
    assert (kinds + [kind])[..|kinds|] == kinds;
  }

  lemma HandedForApp(list: AttributeList, s: seq<int>, was: seq<S.State>, e: S.Event, app: Application)
    ensures |HandedFor(list, s, was, e, KindsOf(app))| <= |s|
  {
    var none: seq<AttributeType> := [];
    assert HandedFor(list, s, was, e, none) == [];
    if app.Srp? {
      HandedForSnoc(list, s, was, e, none, TalkerAdvertise);
      HandedForSnoc(list, s, was, e, none + [TalkerAdvertise], Listener);
      HandedForSnoc(list, s, was, e, none + [TalkerAdvertise] + [Listener], Domain);
      OneEach(list, s, was, e, TalkerAdvertise, Listener, Domain);
      assert none + [TalkerAdvertise] + [Listener] + [Domain] == KindsOf(app);
    } else {
      HandedForSnoc(list, s, was, e, none, VidVector);
      OneEach(list, s, was, e, TalkerAdvertise, Listener, VidVector);
      assert none + [VidVector] == KindsOf(app);
    }
  }

  /** What an attribute of another type does makes no difference. */
  lemma {:induction false} HandedAlike(list: AttributeList, s: seq<int>, was: seq<S.State>, now: seq<S.State>,
                                       e: S.Event, kind: AttributeType)
    requires |was| == |now| == |list.types|
    requires forall k :: 0 <= k < |was| && list.types[k] == kind ==> now[k] == was[k]
    ensures list.Handed(s, was, e, Only(kind)) == list.Handed(s, now, e, Only(kind))
  {
    if s == [] {
    } else {
      HandedAlike(list, s[..|s| - 1], was, now, e, kind);
    }
  }

  lemma SteppedBoth(list: AttributeList, k: int, st: S.State, e: S.Event, kinds: seq<AttributeType>,
                    kind: AttributeType)
    requires 0 <= k < |list.types| && kind !in kinds
    ensures list.Stepped(k, list.Stepped(k, st, e, Among(kinds)), e, Only(kind))
            == list.Stepped(k, st, e, Among(kinds + [kind]))
    ensures list.types[k] == kind ==> list.Stepped(k, st, e, Among(kinds)) == st
  {
    assert Among(kinds + [kind])(list.types[k]) <==> list.types[k] in kinds || list.types[k] == kind;
  }

  /** One type more is asked. */
  lemma AskedOneMore(list: AttributeList, was: seq<S.State>, now: seq<S.State>, next: seq<S.State>, s: seq<int>,
                     e: S.Event, kinds: seq<AttributeType>, kind: AttributeType)
    requires list.Visited(was, now, s, e, Among(kinds)) && list.Visited(now, next, s, e, Only(kind)) && kind !in kinds
    ensures list.Visited(was, next, s, e, Among(kinds + [kind]))
    ensures HandedFor(list, s, was, e, kinds + [kind])
            == HandedFor(list, s, was, e, kinds) + list.Handed(s, now, e, Only(kind))
  {
    forall k | 0 <= k < |was|
      ensures next[k] == if k in s then list.Stepped(k, was[k], e, Among(kinds + [kind])) else was[k]
      ensures list.types[k] == kind ==> now[k] == was[k]
    {
      SteppedBoth(list, k, was[k], e, kinds, kind);
    }
    HandedAlike(list, s, was, now, e, kind);
    HandedForSnoc(list, s, was, e, kinds, kind);
  }

  /** The messages of a frame before the first declaration. */
  function Opening(app: Application, leaveAll: bool): seq<Message> {
    if leaveAll then LeaveAlls(app) else []
  }

  /** The frame carries what the attributes of the application have to say in states `was`, in the order of the list. */
  ghost predicate SentAs(list: AttributeList, info: seq<Attribute>, s: seq<int>, was: seq<S.State>, app: Application,
                         leaveAll: bool, frame: seq<byte>)
  {
    var handed := HandedFor(list, s, was, TxEvent(leaveAll), KindsOf(app));
    InSlots(handed, |info|) && FrameOf(app, DeclareAll(Opening(app, leaveAll), Declarations(handed, info)), frame)
  }

  lemma HandedBelongs(list: AttributeList, info: seq<Attribute>, s: seq<int>, was: seq<S.State>, e: S.Event,
                      app: Application)
    requires |was| == |list.types| && Described(list, info)
    ensures var handed := HandedFor(list, s, was, e, KindsOf(app));
            InSlots(handed, |info|) && AllFor(Declarations(handed, info), app)
  {
    var handed := HandedFor(list, s, was, e, KindsOf(app));
    HandedInSlots(list, s, was, e, KindsOf(app));
    forall i | 0 <= i < |handed| ensures BelongsTo(KindOf(info[handed[i].0]), app) {
      assert (handed[i].0, handed[i].1) in handed;
      HandedForExactly(list, s, was, e, KindsOf(app), handed[i].0, handed[i].1);
    }
  }

  /** The attributes of these types have been asked since `was`, and have handed over `handed`. */
  ghost predicate Asked(list: AttributeList, was: seq<S.State>, now: seq<S.State>, s: seq<int>, e: S.Event,
                        kinds: seq<AttributeType>, handed: seq<(int, ThreeEvent)>)
  {
    list.Visited(was, now, s, e, Among(kinds)) && handed == HandedFor(list, s, was, e, kinds)
  }

  lemma NoneAsked(list: AttributeList, was: seq<S.State>, s: seq<int>, e: S.Event)
    requires |was| == |list.types|
    ensures Asked(list, was, was, s, e, [], [])
  {
  }

  /** One type more. */
  method AskType(list: AttributeList, kind: AttributeType, e: S.Event, sofar: seq<(int, ThreeEvent)>,
                 ghost kinds: seq<AttributeType>, ghost was: seq<S.State>, ghost s: seq<int>)
    returns (handed: seq<(int, ThreeEvent)>)
    requires list.Lists(s) && list.Own() && kind !in kinds && Asked(list, was, list.States(), s, e, kinds, sofar)
    modifies list.attrs
    ensures Asked(list, was, list.States(), s, e, kinds + [kind], handed)
  {
    ghost var now := list.States();
    var more := list.AttributeTypeEvent(kind, e, s);
    AskedOneMore(list, was, now, list.States(), s, e, kinds, kind);
    handed := sofar + more;
  }

  /** The types one after the other. */
  lemma KindsInTurn()
    ensures [] + [TalkerAdvertise] + [Listener] + [Domain] == KindsOf(Srp) && [] + [VidVector] == KindsOf(Mvrp)
  {
  }

  method AskStreams(list: AttributeList, e: S.Event, ghost s: seq<int>) returns (handed: seq<(int, ThreeEvent)>)
    requires list.Lists(s) && list.Own()
    modifies list.attrs
    ensures Asked(list, old(list.States()), list.States(), s, e, KindsOf(Srp), handed)
  {
    ghost var was := list.States();
    handed := AskStreamEnds(list, e, s);
    handed := AskType(list, Domain, e, handed, [] + [TalkerAdvertise] + [Listener], was, s);
    KindsInTurn();
  }

  method AskStreamEnds(list: AttributeList, e: S.Event, ghost s: seq<int>) returns (handed: seq<(int, ThreeEvent)>)
    requires list.Lists(s) && list.Own()
    modifies list.attrs
    ensures Asked(list, old(list.States()), list.States(), s, e, [] + [TalkerAdvertise] + [Listener], handed)
  {
    ghost var was := list.States();
    handed := AskTalkers(list, e, s);
    handed := AskType(list, Listener, e, handed, [] + [TalkerAdvertise], was, s);
  }

  method AskTalkers(list: AttributeList, e: S.Event, ghost s: seq<int>) returns (handed: seq<(int, ThreeEvent)>)
    requires list.Lists(s) && list.Own()
    modifies list.attrs
    ensures list.Lists(s) && list.Own()
    ensures Asked(list, old(list.States()), list.States(), s, e, [] + [TalkerAdvertise], handed)
  {
    NoneAsked(list, list.States(), s, e);
    handed := AskType(list, TalkerAdvertise, e, [], [], list.States(), s);
  }

  /** The attributes of an application are asked, type by type. */
  method Ask(list: AttributeList, app: Application, e: S.Event, ghost s: seq<int>)
    returns (handed: seq<(int, ThreeEvent)>)
    requires list.Lists(s) && list.Own()
    modifies list.attrs
    ensures Asked(list, old(list.States()), list.States(), s, e, KindsOf(app), handed)
  {
    if app == Srp {
      handed := AskStreams(list, e, s);
    } else {
      NoneAsked(list, list.States(), s, e);
      handed := AskType(list, VidVector, e, [], [], list.States(), s);
      KindsInTurn();
    }
  }

  /** The frame of one application. */
  method Opportunity(list: AttributeList, info: seq<Attribute>, builder: PduBuilder, app: Application, leaveAll: bool,
                     ghost s: seq<int>) returns (frame: seq<byte>)
    requires list.Lists(s) && list.Own() && Described(list, info) && builder.buf as object != list.next
    requires builder.Valid() && builder.ms == [] && builder.sendPtr == BODY
    requires |s| < 256 && BODY + LEAVE_ALL_ROOM + ROOM * |s| + 4 <= builder.buf.Length
    modifies list.attrs, builder`sendPtr, builder`ms, builder`app, builder.buf
    ensures builder.Valid() && builder.ms == [] && builder.sendPtr == BODY && list.Lists(s)
    ensures list.Visited(old(list.States()), list.States(), s, TxEvent(leaveAll), Among(KindsOf(app)))
    ensures SentAs(list, info, s, old(list.States()), app, leaveAll, frame)
  {
    ghost var was := list.States();
    var handed := Ask(list, app, TxEvent(leaveAll), s);
    HandedForApp(list, s, was, TxEvent(leaveAll), app);
    HandedBelongs(list, info, s, was, TxEvent(leaveAll), app);
    frame := builder.TransmitOpportunity(app, leaveAll, Declarations(handed, info));
  }

  /** SRP and VLAN attributes do not get in each other's way. */
  lemma AskedBoth(list: AttributeList, info: seq<Attribute>, s: seq<int>, was: seq<S.State>, now: seq<S.State>,
                  next: seq<S.State>, leaveAll: bool, frame: seq<byte>)
    requires list.Visited(was, now, s, TxEvent(leaveAll), Among(KindsOf(Srp)))
    requires list.Visited(now, next, s, TxEvent(leaveAll), Among(KindsOf(Mvrp)))
    requires SentAs(list, info, s, now, Mvrp, leaveAll, frame)
    ensures SentAs(list, info, s, was, Mvrp, leaveAll, frame)
    ensures list.Visited(was, next, s, TxEvent(leaveAll), Among(KindsOf(Srp) + KindsOf(Mvrp)))
  {
    var e, none: seq<AttributeType> := TxEvent(leaveAll), [];
    forall k | 0 <= k < |now| && k in s
      ensures list.Stepped(k, now[k], e, Among(KindsOf(Mvrp))) == list.Stepped(k, now[k], e, Only(VidVector))
    {
      assert Among(KindsOf(Mvrp))(list.types[k]) <==> list.types[k] == VidVector;
    }
    AskedOneMore(list, was, now, next, s, e, KindsOf(Srp), VidVector);
    forall k | 0 <= k < |was| && list.types[k] == VidVector ensures now[k] == was[k] {
      assert !Among(KindsOf(Srp))(list.types[k]);
    }
    HandedAlike(list, s, was, now, e, VidVector);
    HandedForSnoc(list, s, was, e, none, VidVector);
    HandedForSnoc(list, s, now, e, none, VidVector);
    assert none + [VidVector] == KindsOf(Mvrp);
  }

  lemma SameMembers(list: AttributeList, was: seq<S.State>, now: seq<S.State>, before: (int, int) -> bool, s: seq<int>,
                    e: S.Event, meant: AttributeType -> bool)
    requires list.Visited(was, now, Rearranged(before, s), e, meant)
    ensures list.Visited(was, now, s, e, meant)
  {
    RearrangedIsPermutation(before, s);
    forall k ensures k in Rearranged(before, s) <==> k in s {
      assert k in multiset(Rearranged(before, s)) <==> k in multiset(s);
    }
  }

  lemma SortedOnce(before: (int, int) -> bool, s: seq<int>)
    ensures |Rearranged(before, s)| == |s|
  {
    RearrangedIsPermutation(before, s);
    assert |multiset(Rearranged(before, s))| == |multiset(s)|;
  }

  /**
   The join timer of `mrp_periodic`: the attributes are sorted, and those of SRP and then those of MVRP say what they
   have to say, each in a frame.
   */
  method JoinTimerElapsed(list: AttributeList, info: seq<Attribute>, builder: PduBuilder, before: (int, int) -> bool,
                          leaveAll: bool, ghost s: seq<int>) returns (srp: seq<byte>, mvrp: seq<byte>)
    requires list.Lists(s) && list.Own() && Described(list, info) && builder.buf as object != list.next
    requires builder.Valid() && builder.ms == [] && builder.sendPtr == BODY
    requires |s| < 256 && BODY + LEAVE_ALL_ROOM + ROOM * |s| + 4 <= builder.buf.Length
    modifies list`first, list.next, list.attrs, builder`sendPtr, builder`ms, builder`app, builder.buf
    ensures list.Lists(Rearranged(before, s))
    ensures list.Visited(old(list.States()), list.States(), s, TxEvent(leaveAll), Among(KindsOf(Srp) + KindsOf(Mvrp)))
    ensures SentAs(list, info, Rearranged(before, s), old(list.States()), Srp, leaveAll, srp)
    ensures SentAs(list, info, Rearranged(before, s), old(list.States()), Mvrp, leaveAll, mvrp)
  {
    ghost var was, sorted := list.States(), Rearranged(before, s);
    list.SortAttrs(before, s);
    SortedOnce(before, s);
    assert list.States() == was;
    srp := Opportunity(list, info, builder, Srp, leaveAll, sorted);
    ghost var now := list.States();
    mvrp := Opportunity(list, info, builder, Mvrp, leaveAll, sorted);
    AskedBoth(list, info, sorted, was, now, list.States(), leaveAll, mvrp);
    SameMembers(list, was, list.States(), before, s, TxEvent(leaveAll), Among(KindsOf(Srp) + KindsOf(Mvrp)));
  }

  // ---------- the station that hears ----------

  /** What one indication does to an attribute: a LeaveAll to those on the list, a value to those it matches. */
  function Answered(st: S.State, i: Indication, a: Attribute, listed: bool): S.State {
    if !Active(st) then st
    else
      match i
      case LeaveAll(kind) => if listed && kind == KindOf(a) then S.After(st, S.LeaveAllHeard) else st
      case Value(_, _, _, three, four) => if Matches(a, i) then S.After(st, S.Received(three, four)) else st
  }

  function Answer(st: S.State, said: seq<Indication>, a: Attribute, listed: bool): S.State
    decreases |said|
  {
    if said == [] then st else Answer(Answered(st, said[0], a, listed), said[1..], a, listed)
  }

  /** Every attribute has answered one indication. */
  ghost predicate AllAnswered(was: seq<S.State>, now: seq<S.State>, i: Indication, info: seq<Attribute>, s: seq<int>) {
    && |was| == |now| == |info|
    && forall k :: 0 <= k < |was| ==> now[k] == Answered(was[k], i, info[k], k in s)
  }

  /** Every attribute has heard all of it. */
  ghost predicate AllHave(was: seq<S.State>, now: seq<S.State>, said: seq<Indication>, info: seq<Attribute>,
                          s: seq<int>)
  {
    && |was| == |now| == |info|
    && forall k :: 0 <= k < |was| ==> now[k] == Answer(was[k], said, info[k], k in s)
  }

  /** `msg_match` and `mrp_in` for one attribute. */
  method HearOne(list: AttributeList, info: seq<Attribute>, i: Indication, k: nat)
    requires list.Own() && Described(list, info) && k < |info| && i.Value?
    modifies list.attrs[k]
    ensures list.States() == old(list.States())[k := Answered(old(list.States())[k], i, info[k], false)]
  {
    var attr := list.attrs[k];
    if attr.applicantState != S.Unused && attr.applicantState != S.Disabled && Matches(info[k], i) {
      attr.MrpIn(i.three, i.four);
    }
  }

  /** One indication, for all attributes. */
  method HearIndication(list: AttributeList, info: seq<Attribute>, i: Indication, ghost s: seq<int>)
    requires list.Lists(s) && list.Own() && Described(list, info)
    modifies list.attrs
    ensures AllAnswered(old(list.States()), list.States(), i, info, s)
  {
    if i.LeaveAll? {
      var handed := list.AttributeTypeEvent(i.kind, S.ReceiveLeaveAll, s);
    } else {
      for j := 0 to |list.attrs|
        invariant forall k :: 0 <= k < |info| ==>
          list.States()[k]
          == if k < j then Answered(old(list.States())[k], i, info[k], false) else old(list.States())[k]
      {
        HearOne(list, info, i, j);
      }
    }
  }

  lemma AnswerMoves(was: seq<S.State>, now: seq<S.State>, next: seq<S.State>, said: seq<Indication>, i: nat,
                    info: seq<Attribute>, s: seq<int>)
    requires i < |said| && AllAnswered(now, next, said[i], info, s) && HearsOn(was, now, said, i, info, s)
    ensures HearsOn(was, next, said, i + 1, info, s)
  {
    forall k | 0 <= k < |was|
      ensures Answer(next[k], said[i + 1..], info[k], k in s) == Answer(was[k], said, info[k], k in s)
    {
      assert said[i..][1..] == said[i + 1..];
      assert Answer(now[k], said[i..], info[k], k in s) == Answer(was[k], said, info[k], k in s);
    }
  }

  /** With the first `i` indications heard, the rest leads where all of them do. */
  ghost predicate HearsOn(was: seq<S.State>, now: seq<S.State>, said: seq<Indication>, i: nat, info: seq<Attribute>,
                          s: seq<int>)
  {
    && |was| == |now| == |info| && i <= |said|
    && forall k :: 0 <= k < |was| ==>
         Answer(now[k], said[i..], info[k], k in s) == Answer(was[k], said, info[k], k in s)
  }

  /** `avb_mrp_process_packet`: the frame is parsed, and each indication goes to the attributes it is for. */
  method Receive(list: AttributeList, info: seq<Attribute>, buf: array<byte>, app: Application, len: nat,
                 ghost s: seq<int>)
    requires list.Lists(s) && list.Own() && Described(list, info) && len < buf.Length
    modifies list.attrs
    ensures AllHave(old(list.States()), list.States(), ParseMessages(app, HasLengths(app), buf[..], len, 1), info, s)
  {
    var said := ProcessPacket(buf, app, len);
    ghost var was := list.States();
    assert said[0..] == said;
    for i := 0 to |said|
      invariant HearsOn(was, list.States(), said, i, info, s)
    {
      ghost var now := list.States();
      HearIndication(list, info, said[i], s);
      AnswerMoves(was, now, list.States(), said, i, info, s);
    }
  }

  // ---------- what a frame leaves registered ----------

  /** No LeaveAll comes behind a value of its type. */
  predicate LeaveAllsLead(said: seq<Indication>) {
    forall i, j :: 0 <= i < j < |said| && said[i].Value? && said[j].LeaveAll? ==> said[i].kind != said[j].kind
  }

  /** How often the attribute is given an event that registers. */
  function Registrations(said: seq<Indication>, a: Attribute): nat {
    Delivered(said, a, NEW) + Delivered(said, a, JOIN_IN) + Delivered(said, a, JOIN_MT)
  }

  /** One attribute of a receiver: it registers what is declared, and drops what a LeaveAll is not followed by. */
  lemma {:induction false} AnswerRegisters(st: S.State, said: seq<Indication>, a: Attribute)
    requires Active(st) && LeaveAllsLead(said) && Delivered(said, a, LV) == 0
    ensures var r := Answer(st, said, a, true);
            Active(r)
            && (r.registrar.In? <==>
                  Registrations(said, a) > 0 || (st.registrar.In? && LeaveAll(KindOf(a)) !in said))
    decreases |said|
  {
    if said == [] {
    } else {
      var rest := said[1..];
      forall i, j | 0 <= i < j < |rest| && rest[i].Value? && rest[j].LeaveAll? ensures rest[i].kind != rest[j].kind {
        assert said[i + 1] == rest[i] && said[j + 1] == rest[j];
      }
      AnswerRegisters(Answered(st, said[0], a, true), rest, a);
      assert said == [said[0]] + rest;
    }
  }

  /** A LeaveAll of a type stands in its first message only. */
  predicate Leads(ms: seq<Message>) {
    forall i, j :: 0 <= i < j < |ms| && ms[j].leaveAll ==> ms[i].kind != ms[j].kind
  }

  predicate Announces(ms: seq<Message>, kind: AttributeType) {
    exists i :: 0 <= i < |ms| && ms[i].leaveAll && ms[i].kind == kind
  }

  /** The same types and leave-all flags, and perhaps one message more, without one. */
  predicate SameHeaders(ms: seq<Message>, r: seq<Message>) {
    && |ms| <= |r| <= |ms| + 1
    && (forall i :: 0 <= i < |ms| ==> r[i].kind == ms[i].kind && r[i].leaveAll == ms[i].leaveAll)
    && (|ms| < |r| ==> !r[|ms|].leaveAll)
  }

  lemma HeadersCons(m: Message, n: Message, ms: seq<Message>, r: seq<Message>)
    requires SameHeaders(ms, r) && n.kind == m.kind && n.leaveAll == m.leaveAll
    ensures SameHeaders([m] + ms, [n] + r)
  {
    forall i | 0 < i <= |ms|
      ensures ([n] + r)[i].kind == ([m] + ms)[i].kind && ([n] + r)[i].leaveAll == ([m] + ms)[i].leaveAll
    {
      assert ([n] + r)[i] == r[i - 1] && ([m] + ms)[i] == ms[i - 1];
    }
  }

  lemma {:induction false} DeclareKeepsHeaders(ms: seq<Message>, a: Attribute, event: ThreeEvent)
    ensures SameHeaders(ms, Declare(ms, a, event))
  {
    if ms == [] {
    } else {
      assert ms == [ms[0]] + ms[1..];
      if Mergeable(ms[0], a) {
        HeadersCons(ms[0], AddValue(ms[0], a, event), ms[1..], ms[1..]);
      } else {
        DeclareKeepsHeaders(ms[1..], a, event);
        HeadersCons(ms[0], ms[0], ms[1..], Declare(ms[1..], a, event));
      }
    }
  }

  lemma HeadersDecide(ms: seq<Message>, r: seq<Message>, kind: AttributeType)
    requires SameHeaders(ms, r) && Leads(ms)
    ensures Leads(r) && (Announces(r, kind) <==> Announces(ms, kind))
  {
    if i :| 0 <= i < |ms| && ms[i].leaveAll && ms[i].kind == kind {
      assert r[i].leaveAll;
    }
    if i :| 0 <= i < |r| && r[i].leaveAll && r[i].kind == kind {
      assert ms[i].leaveAll;
    }
  }

  lemma {:induction false} DeclareAllKeepsOrder(ms: seq<Message>, ds: seq<Declaration>, kind: AttributeType)
    requires Leads(ms)
    ensures Leads(DeclareAll(ms, ds)) && (Announces(DeclareAll(ms, ds), kind) <==> Announces(ms, kind))
    decreases |ds|
  {
    if ds == [] {
    } else {
      var next := Declare(ms, ds[0].attribute, ds[0].event);
      DeclareKeepsHeaders(ms, ds[0].attribute, ds[0].event);
      HeadersDecide(ms, next, kind);
      DeclareAllKeepsOrder(next, ds[1..], kind);
    }
  }

  lemma AnnouncesCons(ms: seq<Message>, kind: AttributeType)
    requires ms != []
    ensures Announces(ms, kind) <==> (ms[0].leaveAll && ms[0].kind == kind) || Announces(ms[1..], kind)
    ensures Leads(ms) ==> Leads(ms[1..]) && !Announces(ms[1..], ms[0].kind)
  {
    var rest := ms[1..];
    if i :| 0 <= i < |rest| && rest[i].leaveAll && rest[i].kind == kind {
      assert ms[i + 1].leaveAll;
    }
    if i :| 0 <= i < |ms| && ms[i].leaveAll && ms[i].kind == kind && i > 0 {
      assert rest[i - 1].leaveAll;
    }
  }

  lemma {:induction false} SaidInOrder(ms: seq<Message>, kind: AttributeType)
    requires Leads(ms)
    ensures LeaveAllsLead(SaidAll(ms)) && (LeaveAll(kind) in SaidAll(ms) <==> Announces(ms, kind))
  {
    if ms == [] {
      assert SaidAll(ms) == [];
    } else {
      SaidCons(ms);
      AnnouncesCons(ms, kind);
      SaidInOrder(ms[1..], kind);
      SaidInOrder(ms[1..], ms[0].kind);
      FirstSaid(ms[0], SaidAll(ms[1..]), kind);
    }
  }

  /** One message more in front, of a type of which no LeaveAll follows. */
  lemma FirstSaid(m: Message, rest: seq<Indication>, kind: AttributeType)
    requires LeaveAllsLead(rest) && LeaveAll(m.kind) !in rest
    ensures LeaveAllsLead(Said(m) + rest)
    ensures LeaveAll(kind) in Said(m) + rest <==> (m.leaveAll && m.kind == kind) || LeaveAll(kind) in rest
  {
    var all, n := Said(m) + rest, |Said(m)|;
    forall i, j | 0 <= i < j < |all| && all[i].Value? && all[j].LeaveAll? ensures all[i].kind != all[j].kind {
      if i >= n {
        assert rest[i - n] == all[i] && rest[j - n] == all[j];
      } else {
        assert j >= n && all[j] == rest[j - n];
      }
    }
    if m.leaveAll {
      assert all[0] == LeaveAll(m.kind);
    }
  }

  lemma OpeningAnnounces(app: Application, leaveAll: bool, a: Attribute)
    requires BelongsTo(KindOf(a), app)
    ensures Leads(Opening(app, leaveAll)) && (Announces(Opening(app, leaveAll), KindOf(a)) <==> leaveAll)
  {
    var ms := LeaveAlls(app);
    if leaveAll {
      assert ms[if KindOf(a).Listener? then 2 else if KindOf(a).Domain? then 3 else 0].leaveAll;
    }
  }

  predicate SameAs(b: Attribute, a: Attribute) {
    KindOf(b) == KindOf(a) && Identifier(b) == Identifier(a)
  }

  /** Some attribute of the station says `event` of `a`. */
  predicate SomeoneSays(info: seq<Attribute>, s: seq<int>, was: seq<S.State>, e: S.Event, a: Attribute,
                        event: ThreeEvent)
  {
    exists k :: k in s && 0 <= k < |info| && SameAs(info[k], a) && Says(was, k, e, event)
  }

  lemma {:induction false} CountedIsThere(ds: seq<Declaration>, x: Registration)
    ensures DeclaredAll(ById, ds)[x] > 0 <==> exists i :: 0 <= i < |ds| && Declared(ById, ds[i]) == x
  {
    if ds == [] {
    } else {
      CountedIsThere(ds[1..], x);
      if i :| 0 <= i < |ds[1..]| && Declared(ById, ds[1..][i]) == x {
        assert Declared(ById, ds[i + 1]) == x;
      }
      if i :| 0 < i < |ds| && Declared(ById, ds[i]) == x {
        assert Declared(ById, ds[1..][i - 1]) == x;
      }
    }
  }

  lemma SameRegistration(b: Attribute, a: Attribute, said: ThreeEvent, event: ThreeEvent)
    ensures Declared(ById, Declaration(b, said)) == Declared(ById, Declaration(a, event))
            <==> SameAs(b, a) && said == event
  {
  }

  /** Among what was handed over is `event` for an attribute that is the same as `a`. */
  predicate HandsOver(handed: seq<(int, ThreeEvent)>, info: seq<Attribute>, a: Attribute, event: ThreeEvent)
    requires InSlots(handed, |info|)
  {
    exists i :: 0 <= i < |handed| && SameAs(info[handed[i].0], a) && handed[i].1 == event
  }

  lemma CountedIsHanded(handed: seq<(int, ThreeEvent)>, info: seq<Attribute>, a: Attribute, event: ThreeEvent)
    requires InSlots(handed, |info|)
    ensures DeclaredAll(ById, Declarations(handed, info))[Declared(ById, Declaration(a, event))] > 0
            <==> HandsOver(handed, info, a, event)
  {
    var ds, x := Declarations(handed, info), Declared(ById, Declaration(a, event));
    CountedIsThere(ds, x);
    forall i | 0 <= i < |ds|
      ensures Declared(ById, ds[i]) == x <==> SameAs(info[handed[i].0], a) && handed[i].1 == event
    {
      SameRegistration(info[handed[i].0], a, handed[i].1, event);
    }
  }

  lemma SaidIsHanded(list: AttributeList, info: seq<Attribute>, s: seq<int>, was: seq<S.State>, e: S.Event,
                     kinds: seq<AttributeType>, handed: seq<(int, ThreeEvent)>, k: int, a: Attribute, event: ThreeEvent)
    requires |was| == |list.types| && Described(list, info) && KindOf(a) in kinds
    requires handed == HandedFor(list, s, was, e, kinds) && InSlots(handed, |info|)
    requires k in s && 0 <= k < |info| && SameAs(info[k], a) && Says(was, k, e, event)
    ensures HandsOver(handed, info, a, event)
  {
    HandedForExactly(list, s, was, e, kinds, k, event);
    var i :| 0 <= i < |handed| && handed[i] == (k, event);
  }

  lemma HandedIsSaid(list: AttributeList, info: seq<Attribute>, s: seq<int>, was: seq<S.State>, e: S.Event,
                     kinds: seq<AttributeType>, handed: seq<(int, ThreeEvent)>, a: Attribute, event: ThreeEvent)
    requires |was| == |list.types| && Described(list, info) && KindOf(a) in kinds
    requires handed == HandedFor(list, s, was, e, kinds) && InSlots(handed, |info|)
    ensures HandsOver(handed, info, a, event) <==> SomeoneSays(info, s, was, e, a, event)
  {
    if k :| k in s && 0 <= k < |info| && SameAs(info[k], a) && Says(was, k, e, event) {
      SaidIsHanded(list, info, s, was, e, kinds, handed, k, a, event);
    } else if i :| 0 <= i < |handed| && SameAs(info[handed[i].0], a) && handed[i].1 == event {
      assert handed[i] in handed;
      HandedForExactly(list, s, was, e, kinds, handed[i].0, event);
    }
  }

  /** What is delivered to an attribute of the receiver is what some attribute of the sender says of it. */
  lemma DeliveredIsSaid(list: AttributeList, info: seq<Attribute>, s: seq<int>, was: seq<S.State>, app: Application,
                        leaveAll: bool, frame: seq<byte>, rx: seq<byte>, end: nat, a: Attribute, event: ThreeEvent)
    requires |was| == |list.types| && Described(list, info) && |s| < 256
    requires !a.DomainAttribute? && BelongsTo(KindOf(a), app)
    requires SentAs(list, info, s, was, app, leaveAll, frame) && Receives(rx, end, frame)
    ensures Delivered(ParseMessages(app, HasLengths(app), rx, end, 1), a, event) > 0
            <==> SomeoneSays(info, s, was, TxEvent(leaveAll), a, event)
  {
    var e := TxEvent(leaveAll);
    var ds := Declarations(HandedFor(list, s, was, e, KindsOf(app)), info);
    HandedForApp(list, s, was, e, app);
    HandedBelongs(list, info, s, was, e, app);
    DeliveredAsDeclared(app, leaveAll, ds, frame, rx, end, a, event);
    CountedIsHanded(HandedFor(list, s, was, e, KindsOf(app)), info, a, event);
    HandedIsSaid(list, info, s, was, e, KindsOf(app), HandedFor(list, s, was, e, KindsOf(app)), a, event);
  }

  lemma HeardInOrder(list: AttributeList, info: seq<Attribute>, s: seq<int>, was: seq<S.State>, app: Application,
                     leaveAll: bool, frame: seq<byte>, rx: seq<byte>, end: nat, a: Attribute)
    requires |was| == |list.types| && Described(list, info) && |s| < 256 && BelongsTo(KindOf(a), app)
    requires SentAs(list, info, s, was, app, leaveAll, frame) && Receives(rx, end, frame)
    ensures var said := ParseMessages(app, HasLengths(app), rx, end, 1);
            LeaveAllsLead(said) && (LeaveAll(KindOf(a)) in said <==> leaveAll)
  {
    var e := TxEvent(leaveAll);
    var ds, start := Declarations(HandedFor(list, s, was, e, KindsOf(app)), info), Opening(app, leaveAll);
    HandedForApp(list, s, was, e, app);
    HandedBelongs(list, info, s, was, e, app);
    DeclareAllAudible(app, start, ds);
    FrameHeard(app, DeclareAll(start, ds), frame, rx, end);
    OpeningAnnounces(app, leaveAll, a);
    DeclareAllKeepsOrder(start, ds, KindOf(a));
    SaidInOrder(DeclareAll(start, ds), KindOf(a));
  }

  /**
   One frame from one station to another, exactly: unless the sender takes it back in the same frame, an attribute is
   registered at the receiver afterwards if and only if some attribute of the sender says New or Join of it, or it was
   registered before and the frame does not begin with LeaveAll.
   */
  lemma FrameRegisters(list: AttributeList, info: seq<Attribute>, s: seq<int>, was: seq<S.State>, app: Application,
                       leaveAll: bool, frame: seq<byte>, rx: seq<byte>, end: nat, a: Attribute, other: S.State)
    requires |was| == |list.types| && Described(list, info) && |s| < 256
    requires !a.DomainAttribute? && BelongsTo(KindOf(a), app) && Active(other)
    requires SentAs(list, info, s, was, app, leaveAll, frame) && Receives(rx, end, frame)
    requires !SomeoneSays(info, s, was, TxEvent(leaveAll), a, LV)
    ensures var e, r := TxEvent(leaveAll), Answer(other, ParseMessages(app, HasLengths(app), rx, end, 1), a, true);
            r.registrar.In? <==>
              || SomeoneSays(info, s, was, e, a, NEW) || SomeoneSays(info, s, was, e, a, JOIN_IN)
              || SomeoneSays(info, s, was, e, a, JOIN_MT) || (other.registrar.In? && !leaveAll)
  {
    DeliveredIsSaid(list, info, s, was, app, leaveAll, frame, rx, end, a, NEW);
    DeliveredIsSaid(list, info, s, was, app, leaveAll, frame, rx, end, a, JOIN_IN);
    DeliveredIsSaid(list, info, s, was, app, leaveAll, frame, rx, end, a, JOIN_MT);
    DeliveredIsSaid(list, info, s, was, app, leaveAll, frame, rx, end, a, LV);
    HeardInOrder(list, info, s, was, app, leaveAll, frame, rx, end, a);
    AnswerRegisters(other, ParseMessages(app, HasLengths(app), rx, end, 1), a);
  }

  /** An applicant that declares says New or Join, unless it is quiet, or passive in a leave-all round. */
  lemma WantedSpeaks(start: S.State, run: seq<S.Input>, leaveAll: bool)
    requires S.Wanted(run)
    ensures S.SentAfter(start, run, leaveAll) in {Some(NEW), Some(JOIN_IN), Some(JOIN_MT)}
            <==> if leaveAll then !S.Run(start, run).applicant.VP? else !S.Run(start, run).applicant.QA?
    ensures Active(S.Run(start, run))
  {
    S.DeclaresWhatIsWanted(start, run);
    S.NeverQuietByHearing(start, run);
  }

  /**
   From the request to the registration: an attribute that is wanted at one station, and that is not quiet by then nor
   passive in a leave-all round, is registered at every station that receives the next frame, whatever else either of
   them has been through, as long as no other attribute of the sender takes the same one back.
   */
  lemma WantedIsRegistered(list: AttributeList, info: seq<Attribute>, s: seq<int>, was: seq<S.State>, app: Application,
                           leaveAll: bool, frame: seq<byte>, rx: seq<byte>, end: nat, k: int, a: Attribute,
                           start: S.State, run: seq<S.Input>, other: S.State)
    requires |was| == |list.types| && Described(list, info) && |s| < 256
    requires !a.DomainAttribute? && BelongsTo(KindOf(a), app) && Active(other)
    requires SentAs(list, info, s, was, app, leaveAll, frame) && Receives(rx, end, frame)
    requires k in s && 0 <= k < |info| && SameAs(info[k], a) && was[k] == S.Run(start, run) && S.Wanted(run)
    requires if leaveAll then !was[k].applicant.VP? else !was[k].applicant.QA?
    requires !SomeoneSays(info, s, was, TxEvent(leaveAll), a, LV)
    ensures Answer(other, ParseMessages(app, HasLengths(app), rx, end, 1), a, true).registrar.In?
  {
    WantedSpeaks(start, run, leaveAll);
    var event := S.SentAfter(start, run, leaveAll).value;
    assert Says(was, k, TxEvent(leaveAll), event);
    FrameRegisters(list, info, s, was, app, leaveAll, frame, rx, end, a, other);
  }
}
