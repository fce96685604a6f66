/**
 Which message of a PDU a declaration is merged into, and the proof that a receiver registers
 exactly what was declared (module_avb_srp/src/avb_srp.c, module_avb_srp/src/avb_mvrp.c).
 */
module MrpDeclarations {
  import opened Bytes
  import opened MrpEvents
  import opened MrpPdu
  import opened Seqs
  import opened Wrappers

  type uint16 = x: int | 0 <= x < TWO_TO_16
  type uint48 = x: int | 0 <= x < 0x1_0000_0000_0000
  type uint64 = x: int | 0 <= x < TWO_TO_64

  /** The part of an attribute's `attribute_info` that goes on the wire. */
  datatype Attribute =
    | TalkerAttribute(streamId: uint64, dest: uint48, vlan: uint16, frameSize: uint16)
    | ListenerAttribute(streamId: uint64)
    | DomainAttribute
    | VidAttribute(vid: uint16)

  function KindOf(a: Attribute): AttributeType {
    match a
    case TalkerAttribute(_, _, _, _) => TalkerAdvertise
    case ListenerAttribute(_) => Listener
    case DomainAttribute => Domain
    case VidAttribute(_) => VidVector
  }

  const DEFAULT_VLAN: uint16 := 2
  const MAX_INTERVAL_FRAMES: uint16 := 1
  const ACCUMULATED_LATENCY: nat := 150000

  /** Traffic class priority 3 in the top three bits, then rank 1. */
  const TSPEC: byte := 0x70

  function FirstValue(a: Attribute): (s: seq<byte>)
    ensures |s| == FirstValueLength(KindOf(a))
  {
    match a
    case TalkerAttribute(id, dest, vlan, frameSize) =>
      BeBytes(id, 8) + BeBytes(dest, 6) + Be16(vlan) + Be16(frameSize)
      + Be16(MAX_INTERVAL_FRAMES) + [TSPEC] + BeBytes(ACCUMULATED_LATENCY, 4)
    case ListenerAttribute(id) => BeBytes(id, 8)
    case DomainAttribute => [6, 3] + Be16(DEFAULT_VLAN)
    case VidAttribute(vid) => Be16(vid)
  }

  /** Bytes `lo..hi` of a first value that has them. */
  function Part(s: seq<byte>, lo: nat, hi: nat): seq<byte> {
    if lo <= hi <= |s| then s[lo..hi] else []
  }

  /** `a` is the value that comes `n` places after the first value of a vector. */
  predicate Continues(first: seq<byte>, n: nat, a: Attribute) {
    match a
    case TalkerAttribute(id, dest, vlan, frameSize) =>
      && BeNat(Part(first, 8, 14)) + n == dest
      && (BeNat(Part(first, 0, 8)) + n) % TWO_TO_64 == id
      && Signed16(BeNat(Part(first, 14, 16)) % TWO_TO_16) == vlan
      && Signed16(BeNat(Part(first, 16, 18)) % TWO_TO_16) == frameSize
    case ListenerAttribute(id) => (BeNat(Part(first, 0, 8)) + n) % TWO_TO_64 == id
    case DomainAttribute => false
    case VidAttribute(_) => false
  }

  predicate Mergeable(m: Message, a: Attribute) {
    && m.kind == KindOf(a)
    && (m.threes == [] || Continues(m.first, |m.threes|, a))
  }

  /** Listeners are always declared ready. */
  function Parameters(kind: AttributeType): seq<FourEvent> {
    if kind.Listener? then [READY] else []
  }

  /** Message `m` with one more value; the value that opens the vector sets the first value. */
  function AddValue(m: Message, a: Attribute, event: ThreeEvent): Message {
    m.(first := if m.threes == [] then FirstValue(a) else m.first,
       threes := m.threes + [event],
       fours := m.fours + Parameters(m.kind))
  }

  function EmptyMessage(kind: AttributeType, leaveAll: bool): (m: Message)
    ensures WellFormed(m)
  {
    Message(kind, leaveAll, seq(FirstValueLength(kind), i => 0), [], [])
  }

  /** The messages after a declaration: merged into the first that takes it, else in one of its own. */
  function Declare(ms: seq<Message>, a: Attribute, event: ThreeEvent): seq<Message> {
    if ms == [] then [AddValue(EmptyMessage(KindOf(a), false), a, event)]
    else if Mergeable(ms[0], a) then [AddValue(ms[0], a, event)] + ms[1..]
    else [ms[0]] + Declare(ms[1..], a, event)
  }

  datatype Declaration = Declaration(attribute: Attribute, event: ThreeEvent)

  /** The length of the longest vector. */
  function Longest(ms: seq<Message>): nat {
    if ms == [] then 0
    else if |ms[0].threes| > Longest(ms[1..]) then |ms[0].threes| else Longest(ms[1..])
  }

  predicate AllWellFormed(ms: seq<Message>) {
    forall i :: 0 <= i < |ms| ==> WellFormed(ms[i])
  }

  lemma {:induction false} DeclareLengthens(ms: seq<Message>, a: Attribute, event: ThreeEvent)
    ensures 1 <= Longest(Declare(ms, a, event)) <= Longest(ms) + 1
  {
    if ms == [] || Mergeable(ms[0], a) {
    } else {
      DeclareLengthens(ms[1..], a, event);
    }
  }

  lemma AddedIsAudible(m: Message, a: Attribute, event: ThreeEvent)
    requires WellFormed(m) && Mergeable(m, a) && |m.threes| < 255
    ensures Audible(AddValue(m, a, event)) && AddValue(m, a, event).kind == m.kind
  {
  }

  lemma {:induction false} DeclareKeepsWellFormed(ms: seq<Message>, a: Attribute, event: ThreeEvent)
    requires Longest(ms) < 255 && AllWellFormed(ms)
    ensures AllWellFormed(Declare(ms, a, event))
  {
    if ms == [] {
      AddedIsAudible(EmptyMessage(KindOf(a), false), a, event);
    } else if Mergeable(ms[0], a) {
      AddedIsAudible(ms[0], a, event);
    } else {
      DeclareKeepsWellFormed(ms[1..], a, event);
    }
  }

  lemma AudibleCons(app: Application, m: Message, ms: seq<Message>)
    requires Audible(m) && BelongsTo(m.kind, app) && AllAudible(app, ms)
    ensures AllAudible(app, [m] + ms)
  {
  }

  lemma {:induction false} DeclareKeeps(app: Application, ms: seq<Message>, a: Attribute, event: ThreeEvent)
    requires Longest(ms) < 255 && AllAudible(app, ms) && BelongsTo(KindOf(a), app)
    ensures AllAudible(app, Declare(ms, a, event))
  {
    if ms == [] {
      var added := AddValue(EmptyMessage(KindOf(a), false), a, event);
      AddedIsAudible(EmptyMessage(KindOf(a), false), a, event);
      assert Declare(ms, a, event) == [added];
    } else if Mergeable(ms[0], a) {
      AddedIsAudible(ms[0], a, event);
      AudibleCons(app, AddValue(ms[0], a, event), ms[1..]);
    } else {
      DeclareKeeps(app, ms[1..], a, event);
      AudibleCons(app, ms[0], Declare(ms[1..], a, event));
    }
  }

  /** All declarations of one transmit opportunity, in order. */
  function DeclareAll(ms: seq<Message>, ds: seq<Declaration>): seq<Message>
    decreases |ds|
  {
    if ds == [] then ms else DeclareAll(Declare(ms, ds[0].attribute, ds[0].event), ds[1..])
  }

  // ---------- what a receiver registers ----------

  /** The identifier of value `i` of a vector, as the `match` functions compute it. */
  function IdentifierAt(kind: AttributeType, first: seq<byte>, i: nat): nat {
    match kind
    case VidVector => BeNat(Part(first, 0, 2)) + i
    case Domain => 0
    case _ => (BeNat(Part(first, 0, 8)) + i) % TWO_TO_64
  }

  function Identifier(a: Attribute): nat {
    match a
    case TalkerAttribute(id, _, _, _) => id
    case ListenerAttribute(id) => id
    case DomainAttribute => 0
    case VidAttribute(vid) => vid
  }

  /**
   The attribute that value `i` of a vector stands for, read from the bytes of the first value; `None` if there is no
   such attribute. Stream id and destination count up along a talker vector, VLAN and frame size are shared.
   */
  function AttributeAt(kind: AttributeType, first: seq<byte>, i: nat): Option<Attribute> {
    match kind
    case TalkerAdvertise | TalkerFailed =>
      var dest := BeNat(Part(first, 8, 14)) + i;
      if dest < 0x1_0000_0000_0000 then
        Some(TalkerAttribute((BeNat(Part(first, 0, 8)) + i) % TWO_TO_64, dest, BeNat(Part(first, 14, 16)) % TWO_TO_16,
                             BeNat(Part(first, 16, 18)) % TWO_TO_16))
      else None
    case Listener => Some(ListenerAttribute((BeNat(Part(first, 0, 8)) + i) % TWO_TO_64))
    case Domain => if i == 0 && first == FirstValue(DomainAttribute) then Some(DomainAttribute) else None
    case VidVector =>
      var vid := BeNat(Part(first, 0, 2)) + i;
      if vid < TWO_TO_16 then Some(VidAttribute(vid)) else None
  }

  /** A value is looked at for its identifier, as a receiver of this program does, or for the whole attribute. */
  datatype Sight = ById | Whole

  datatype Reading = Identified(id: nat) | Read(attribute: Option<Attribute>)

  function ReadingAt(sight: Sight, kind: AttributeType, first: seq<byte>, i: nat): Reading {
    match sight
    case ById => Identified(IdentifierAt(kind, first, i))
    case Whole => Read(AttributeAt(kind, first, i))
  }

  function ReadingOf(sight: Sight, a: Attribute): Reading {
    match sight
    case ById => Identified(Identifier(a))
    case Whole => Read(Some(a))
  }

  /** An attribute event as it is seen at the other end. */
  datatype Registration = Registration(kind: AttributeType, value: Reading, three: ThreeEvent, four: FourEvent)

  function Registered(sight: Sight, said: seq<Indication>): multiset<Registration> {
    if said == [] then multiset{}
    else
      (match said[0]
       case LeaveAll(_) => multiset{}
       case Value(kind, first, i, three, four) =>
         multiset{Registration(kind, ReadingAt(sight, kind, first, i), three, four)})
      + Registered(sight, said[1..])
  }

  function Declared(sight: Sight, d: Declaration): Registration {
    var kind := KindOf(d.attribute);
    Registration(kind, ReadingOf(sight, d.attribute), d.event, if kind.Listener? then READY else 0)
  }

  function DeclaredAll(sight: Sight, ds: seq<Declaration>): multiset<Registration> {
    if ds == [] then multiset{} else multiset{Declared(sight, ds[0])} + DeclaredAll(sight, ds[1..])
  }

  lemma {:induction false} RegisteredAppend(sight: Sight, a: seq<Indication>, b: seq<Indication>)
    ensures Registered(sight, a + b) == Registered(sight, a) + Registered(sight, b)
  {
    if a == [] {
      assert a + b == b;
    } else {
      assert (a + b)[1..] == a[1..] + b;
      RegisteredAppend(sight, a[1..], b);
    }
  }

  lemma TalkerParts(a: Attribute)
    requires a.TalkerAttribute?
    ensures var s := FirstValue(a);
            && s[..8] == BeBytes(a.streamId, 8) && s[8..14] == BeBytes(a.dest, 6)
            && s[14..16] == Be16(a.vlan) && s[16..18] == Be16(a.frameSize) && s[18..20] == Be16(MAX_INTERVAL_FRAMES)
            && s[20] == TSPEC && s[21..] == BeBytes(ACCUMULATED_LATENCY, 4)
  {
  }

  /** The numbers that fields of a first value hold. */
  lemma FieldValues(id: uint64, dest: uint48, x: uint16)
    ensures BeNat(BeBytes(id, 8)) == id && BeNat(BeBytes(dest, 6)) == dest && BeNat(Be16(x)) == x
  {
    PowersOf256();
    BeRoundTrip(id, 8);
    BeRoundTrip(dest, 6);
    Be16Value(x);
  }

  lemma ConstantFields()
    ensures BeNat(Be16(MAX_INTERVAL_FRAMES)) == 1 && TSPEC / 32 == 3 && TSPEC / 16 % 2 == 1
    ensures BeNat(BeBytes(ACCUMULATED_LATENCY, 4)) == 150_000
  {
    PowersOf256();
    Be16Value(MAX_INTERVAL_FRAMES);
    assert Pow256(4) == 256 * 256 * Pow256(2);
    BeRoundTrip(ACCUMULATED_LATENCY, 4);
  }

  /** The first value of a talker, field by field: priority 3 and rank 1 in the TSpec, 150 microseconds of latency. */
  lemma TalkerLayout(a: Attribute)
    requires a.TalkerAttribute?
    ensures var s := FirstValue(a);
            && BeNat(s[..8]) == a.streamId && BeNat(s[8..14]) == a.dest
            && BeNat(s[14..16]) == a.vlan && BeNat(s[16..18]) == a.frameSize
            && BeNat(s[18..20]) == 1 && s[20] / 32 == 3 && s[20] / 16 % 2 == 1 && BeNat(s[21..]) == 150_000
  {
    TalkerParts(a);
    FieldValues(a.streamId, a.dest, a.vlan);
    FieldValues(a.streamId, a.dest, a.frameSize);
    ConstantFields();
  }

  lemma ReadFromFields(sight: Sight, s: seq<byte>, a: Attribute)
    requires a.TalkerAttribute? && |s| == 25
    requires BeNat(s[..8]) == a.streamId && BeNat(s[8..14]) == a.dest
    requires BeNat(s[14..16]) == a.vlan && BeNat(s[16..18]) == a.frameSize
    ensures ReadingAt(sight, TalkerAdvertise, s, 0) == ReadingOf(sight, a)
  {
    assert Part(s, 0, 8) == s[..8] && Part(s, 8, 14) == s[8..14];
    assert Part(s, 14, 16) == s[14..16] && Part(s, 16, 18) == s[16..18];
    ReadAs(s, a, BeNat(s[..8]), BeNat(s[8..14]), BeNat(s[14..16]), BeNat(s[16..18]));
  }

  lemma ReadAs(s: seq<byte>, a: Attribute, id: nat, dest: nat, vlan: nat, frameSize: nat)
    requires id == BeNat(Part(s, 0, 8)) && dest == BeNat(Part(s, 8, 14))
    requires vlan == BeNat(Part(s, 14, 16)) && frameSize == BeNat(Part(s, 16, 18))
    requires a.TalkerAttribute? && id == a.streamId && dest == a.dest && vlan == a.vlan && frameSize == a.frameSize
    ensures AttributeAt(TalkerAdvertise, s, 0) == Some(a) && IdentifierAt(TalkerAdvertise, s, 0) == Identifier(a)
  {
  }

  lemma TalkerReading(sight: Sight, a: Attribute)
    requires a.TalkerAttribute?
    ensures ReadingAt(sight, TalkerAdvertise, FirstValue(a), 0) == ReadingOf(sight, a)
  {
    TalkerLayout(a);
    ReadFromFields(sight, FirstValue(a), a);
  }

  /** The first value of an attribute reads back as that attribute. */
  lemma FirstReading(sight: Sight, a: Attribute)
    ensures ReadingAt(sight, KindOf(a), FirstValue(a), 0) == ReadingOf(sight, a)
  {
    match a
    case TalkerAttribute(_, _, _, _) =>
      TalkerReading(sight, a);
    case ListenerAttribute(id) =>
      assert Part(FirstValue(a), 0, 8) == BeBytes(id, 8);
      StreamIdRoundTrip(id);
    case DomainAttribute =>
    case VidAttribute(vid) =>
      assert Part(FirstValue(a), 0, 2) == Be16(vid);
      Be16Value(vid);
  }

  lemma StreamIdRoundTrip(id: uint64)
    ensures BeNat(BeBytes(id, 8)) % TWO_TO_64 == id
  {
    PowersOf256();
    BeRoundTrip(id, 8);
  }

  /**
   The attributes that share vectors: all listeners, and the talkers whose VLAN and frame size the signed comparison of
   the source can find equal.
   */
  predicate Shares(a: Attribute) {
    match a
    case TalkerAttribute(_, _, vlan, frameSize) => vlan < 0x8000 && frameSize < 0x8000
    case ListenerAttribute(_) => true
    case DomainAttribute => false
    case VidAttribute(_) => false
  }

  /**
   A declaration is merged into a vector exactly when the value it would become there reads back as that attribute, in
   all of its fields.
   */
  lemma MergesExactlyWhen(m: Message, a: Attribute)
    requires m.kind == KindOf(a) && m.threes != []
    ensures Mergeable(m, a) <==> Shares(a) && AttributeAt(m.kind, m.first, |m.threes|) == Some(a)
  {
  }

  /** The value a declaration adds to a message reads as what was declared. */
  lemma MergedReading(sight: Sight, m: Message, a: Attribute, event: ThreeEvent)
    requires Mergeable(m, a)
    ensures var r := AddValue(m, a, event);
            ReadingAt(sight, r.kind, r.first, |m.threes|) == ReadingOf(sight, a)
  {
    if m.threes == [] {
      FirstReading(sight, a);
    } else {
      MergesExactlyWhen(m, a);
    }
  }

  lemma Be16Value(v: nat)
    requires v < TWO_TO_16
    ensures BeNat(Be16(v)) == v
  {
    var s := Be16(v);
    assert s[..1] == [s[0]];
    assert BeNat([s[0]]) == 256 * BeNat([s[0]][..0]) + s[0];
  }

  lemma SaidAppend(m: Message, a: Attribute, event: ThreeEvent)
    requires WellFormed(m) && Mergeable(m, a) && |m.threes| < 255
    ensures var r := AddValue(m, a, event);
            WellFormed(r) && Said(r) == Said(m) + [SaidValue(r, |m.threes|)]
  {
    var r, n := AddValue(m, a, event), |m.threes|;
    forall i: nat | i < n ensures SaidValue(r, i) == SaidValue(m, i) {
      SameValue(m, r, i);
    }
    OneMoreSaid(m, r, n);
  }

  lemma SameValue(m: Message, r: Message, i: nat)
    requires i < |m.threes| < |r.threes| && r.kind == m.kind && r.first == m.first && r.threes[i] == m.threes[i]
    requires |m.fours| <= |r.fours| && (i < |m.fours| ==> r.fours[i] == m.fours[i])
    requires m.kind.Listener? ==> i < |m.fours|
    ensures SaidValue(r, i) == SaidValue(m, i)
  {
  }

  /** The values of a message and one more. */
  lemma OneMoreSaid(m: Message, r: Message, n: nat)
    requires n == |m.threes| && |r.threes| == n + 1 && r.leaveAll == m.leaveAll && r.kind == m.kind
    requires forall i: nat :: i < n ==> SaidValue(r, i) == SaidValue(m, i)
    ensures Said(r) == Said(m) + [SaidValue(r, n)]
  {
    var before := seq(n, i requires 0 <= i < n => SaidValue(m, i));
    var after := seq(n + 1, i requires 0 <= i < n + 1 => SaidValue(r, i));
    assert after == before + [SaidValue(r, n)];
    var leave := if m.leaveAll then [LeaveAll(m.kind)] else [];
    assert Said(m) == leave + before && Said(r) == leave + after;
    Assoc(leave, before, [SaidValue(r, n)]);
  }

  lemma AddValueRegistered(sight: Sight, m: Message, a: Attribute, event: ThreeEvent)
    requires WellFormed(m) && Mergeable(m, a) && |m.threes| < 255
    ensures Registered(sight, Said(AddValue(m, a, event)))
            == Registered(sight, Said(m)) + multiset{Declared(sight, Declaration(a, event))}
  {
    var r := AddValue(m, a, event);
    MergedReading(sight, m, a, event);
    SaidAppend(m, a, event);
    var added := SaidValue(r, |m.threes|);
    RegisteredAppend(sight, Said(m), [added]);
    RegisteredOne(sight, added, Declaration(a, event));
  }

  lemma RegisteredOne(sight: Sight, said: Indication, d: Declaration)
    requires said.Value? && said.kind == KindOf(d.attribute)
    requires ReadingAt(sight, said.kind, said.first, said.index) == ReadingOf(sight, d.attribute)
    requires said.three == d.event && said.four == (if said.kind.Listener? then READY else 0)
    ensures Registered(sight, [said]) == multiset{Declared(sight, d)}
  {
    assert [said][1..] == [];
  }

  /** What is registered from a PDU is what its first message and the others say. */
  lemma RegisteredCons(sight: Sight, m: Message, tail: seq<Message>)
    ensures Registered(sight, SaidAll([m] + tail)) == Registered(sight, Said(m)) + Registered(sight, SaidAll(tail))
  {
    var ms := [m] + tail;
    assert ms[1..] == tail;
    SaidCons(ms);
    RegisteredAppend(sight, Said(m), SaidAll(tail));
  }

  /** Adding a value to one message of a PDU. */
  lemma OneMoreRegistered(sight: Sight, m: Message, tail: seq<Message>, a: Attribute, event: ThreeEvent)
    requires WellFormed(m) && Mergeable(m, a) && |m.threes| < 255
    ensures Registered(sight, SaidAll([AddValue(m, a, event)] + tail))
            == Registered(sight, SaidAll([m] + tail)) + multiset{Declared(sight, Declaration(a, event))}
  {
    AddValueRegistered(sight, m, a, event);
    RegisteredCons(sight, m, tail);
    RegisteredCons(sight, AddValue(m, a, event), tail);
  }

  lemma EmptySaysNothing(sight: Sight, kind: AttributeType)
    ensures Registered(sight, SaidAll([EmptyMessage(kind, false)])) == multiset{}
  {
    var m := EmptyMessage(kind, false);
    RegisteredCons(sight, m, []);
    assert [m] + [] == [m] && Said(m) == [];
  }

  lemma {:induction false} DeclareRegistered(sight: Sight, ms: seq<Message>, a: Attribute, event: ThreeEvent)
    requires AllWellFormed(ms) && Longest(ms) < 255
    ensures Registered(sight, SaidAll(Declare(ms, a, event)))
            == Registered(sight, SaidAll(ms)) + multiset{Declared(sight, Declaration(a, event))}
  {
    if ms == [] {
      var m := EmptyMessage(KindOf(a), false);
      EmptySaysNothing(sight, KindOf(a));
      OneMoreRegistered(sight, m, [], a, event);
      assert [m] + [] == [m] && [AddValue(m, a, event)] + [] == Declare(ms, a, event);
    } else {
      var m, tail := ms[0], ms[1..];
      assert ms == [m] + tail;
      if Mergeable(m, a) {
        OneMoreRegistered(sight, m, tail, a, event);
      } else {
        DeclareRegistered(sight, tail, a, event);
        RegisteredCons(sight, m, tail);
        RegisteredCons(sight, m, Declare(tail, a, event));
      }
    }
  }

  /**
   Whatever is declared at one transmit opportunity, in whatever order and however it is merged
   into vectors, is registered once and unaltered, and nothing else is.
   */
  lemma {:induction false} DeclaredIsRegistered(sight: Sight, ms: seq<Message>, ds: seq<Declaration>)
    requires AllWellFormed(ms) && Longest(ms) + |ds| < 256
    ensures Registered(sight, SaidAll(DeclareAll(ms, ds))) == Registered(sight, SaidAll(ms)) + DeclaredAll(sight, ds)
    decreases |ds|
  {
    if ds == [] {
    } else {
      var d := ds[0];
      DeclareLengthens(ms, d.attribute, d.event);
      DeclareKeepsWellFormed(ms, d.attribute, d.event);
      DeclareRegistered(sight, ms, d.attribute, d.event);
      DeclaredIsRegistered(sight, Declare(ms, d.attribute, d.event), ds[1..]);
    }
  }
}
