/**
 MRP protocol data units: the byte layout of messages, what a receiver hears when it
 parses them, and the proof that the two agree
 (module_avb_srp/src/avb_mrp.c, module_avb_srp/src/avb_mrp_pdu.h).
 */
module MrpPdu {
  import opened Bytes
  import opened MrpEvents
  import opened Seqs
  import opened Wrappers

  datatype AttributeType = TalkerAdvertise | TalkerFailed | Listener | Domain | VidVector

  /** The application a PDU belongs to, told by its ethertype. */
  datatype Application = Srp | Mvrp

  function TypeCode(kind: AttributeType): byte {
    match kind
    case TalkerAdvertise => 1
    case TalkerFailed => 2
    case Listener => 3
    case Domain => 4
    case VidVector => 1
  }

  function DecodeType(app: Application, code: byte): Option<AttributeType> {
    match app
    case Srp =>
      if code == 1 then Some(TalkerAdvertise)
      else if code == 2 then Some(TalkerFailed)
      else if code == 3 then Some(Listener)
      else if code == 4 then Some(Domain)
      else None
    case Mvrp =>
      if code == 1 then Some(VidVector) else None
  }

  function FirstValueLength(kind: AttributeType): byte {
    match kind
    case TalkerAdvertise => 25
    case TalkerFailed => 34
    case Listener => 8
    case Domain => 4
    case VidVector => 2
  }

  predicate BelongsTo(kind: AttributeType, app: Application) {
    kind.VidVector? <==> app.Mvrp?
  }

  /**
   One message: its vector says which values it declares (the first one and its successors)
   and, value by value, the event declared; Listener vectors add a parameter for each.
   */
  datatype Message = Message(
    kind: AttributeType,
    leaveAll: bool,
    first: seq<byte>,
    threes: seq<ThreeEvent>,
    fours: seq<FourEvent>)

  predicate WellFormed(m: Message) {
    && |m.first| == FirstValueLength(m.kind)
    && |m.threes| < 256
    && |m.fours| == (if m.kind.Listener? then |m.threes| else 0)
  }

  /** A message that says something: the parser takes an empty vector header for an end mark. */
  predicate Audible(m: Message) {
    WellFormed(m) && (m.leaveAll || m.threes != [])
  }

  /** The attribute list: vector header, first value, packed vectors, end mark. */
  function ListBytes(high: byte, low: byte, first: seq<byte>, three: seq<byte>, four: seq<byte>): (s: seq<byte>)
    ensures |s| == 4 + |first| + |three| + |four|
  {
    [high, low] + first + three + four + [0, 0]
  }

  /** A whole message in a PDU under construction, with its AttributeListLength field. */
  function Layout(kind: AttributeType, high: byte, low: byte,
                  first: seq<byte>, three: seq<byte>, four: seq<byte>): (s: seq<byte>)
    ensures |s| == 8 + |first| + |three| + |four|
  {
    [TypeCode(kind), |first| % 256] + Be16((4 + |first| + |three| + |four|) % TWO_TO_16)
    + ListBytes(high, low, first, three, four)
  }

  function HighByte(leaveAll: bool): byte {
    if leaveAll then 0x20 else 0
  }

  function List(m: Message): seq<byte> {
    ListBytes(HighByte(m.leaveAll), |m.threes| % 256, m.first, Pack3(m.threes), Pack4(m.fours))
  }

  function Encode(m: Message): seq<byte> {
    Layout(m.kind, HighByte(m.leaveAll), |m.threes| % 256, m.first, Pack3(m.threes), Pack4(m.fours))
  }

  /** The form MVRP puts on the wire: no AttributeListLength. */
  function Strip(m: Message): seq<byte> {
    [TypeCode(m.kind), |m.first| % 256] + List(m)
  }

  /** A message with or without its AttributeListLength field. */
  function OnWire(lengths: bool, m: Message): seq<byte> {
    if lengths then Encode(m) else Strip(m)
  }

  function Wire(lengths: bool): Message -> seq<byte> {
    m => OnWire(lengths, m)
  }

  function OnWireAll(lengths: bool, ms: seq<Message>): seq<byte> {
    FlatMap(Wire(lengths), ms)
  }

  // ---------- parsing ----------

  /** What the parser tells the state machines, in order. */
  datatype Indication =
    | LeaveAll(kind: AttributeType)
    | Value(kind: AttributeType, first: seq<byte>, index: nat, three: ThreeEvent, four: FourEvent)

  function VectorCount(high: byte, low: byte): nat {
    high % 32 * 256 + low
  }

  function FourLength(kind: AttributeType, n: nat): nat {
    if kind.Listener? then (n + 3) / 4 else 0
  }

  function VectorLength(kind: AttributeType, fvl: byte, n: nat): nat {
    2 + fvl + (n + 2) / 3 + FourLength(kind, n)
  }

  /** Value `i` of the vector at `pos`. */
  function ValueAt(buf: seq<byte>, kind: AttributeType, fvl: byte, pos: nat, n: nat, i: nat): Indication
    requires i < n && pos + VectorLength(kind, fvl, n) <= |buf|
  {
    var events := pos + 2 + fvl;
    Value(kind, buf[pos + 2..events], i,
          Digit3(buf[events + i / 3], i % 3),
          if kind.Listener? then Digit4(buf[events + (n + 2) / 3 + i / 4], i % 4) else 0)
  }

  function VectorValues(buf: seq<byte>, kind: AttributeType, fvl: byte, pos: nat, n: nat): seq<Indication>
    requires pos + VectorLength(kind, fvl, n) <= |buf|
  {
    seq(n, i requires 0 <= i < n => ValueAt(buf, kind, fvl, pos, n, i))
  }

  function LeaveAllPart(kind: AttributeType, high: byte): seq<Indication> {
    if high / 32 != 0 then [LeaveAll(kind)] else []
  }

  /** What was heard, and where parsing goes on (`None`: the whole packet is given up). */
  datatype Heard = Heard(said: seq<Indication>, next: Option<nat>)

  /** What one vector says. */
  function VectorSaid(buf: seq<byte>, kind: AttributeType, fvl: byte, pos: nat, n: nat): seq<Indication>
    requires pos + VectorLength(kind, fvl, n) <= |buf|
  {
    LeaveAllPart(kind, buf[pos]) + VectorValues(buf, kind, fvl, pos, n)
  }

  /** The vector at `pos`, and where the next one is; a vector that would run over the end says nothing. */
  function ParseVector(buf: seq<byte>, end: nat, kind: AttributeType, fvl: byte, pos: nat): (r: Heard)
    requires pos < end < |buf|
    ensures r.next.Some? ==> pos < r.next.value <= end
  {
    var n := VectorCount(buf[pos], buf[pos + 1]);
    var after := pos + VectorLength(kind, fvl, n);
    if after > end then Heard([], None) else Heard(VectorSaid(buf, kind, fvl, pos, n), Some(after))
  }

  /** The vectors of one message, up to its end mark or the end of the packet. */
  function ParseVectors(buf: seq<byte>, end: nat, kind: AttributeType, fvl: byte, pos: nat): (r: Heard)
    requires end < |buf|
    ensures r.next.Some? ==> r.next.value >= pos
    decreases if pos < end then end - pos else 0
  {
    if pos < end && (buf[pos] != 0 || buf[pos + 1] != 0) then
      var first := ParseVector(buf, end, kind, fvl, pos);
      if first.next.None? then first
      else
        var rest := ParseVectors(buf, end, kind, fvl, first.next.value);
        Heard(first.said + rest.said, rest.next)
    else Heard([], Some(pos))
  }

  /** One vector of a message. */
  lemma VectorsStep(buf: seq<byte>, end: nat, kind: AttributeType, fvl: byte, pos: nat, first: Heard)
    requires pos < end < |buf| && (buf[pos] != 0 || buf[pos + 1] != 0)
    requires first == ParseVector(buf, end, kind, fvl, pos)
    ensures first.next.None? ==> ParseVectors(buf, end, kind, fvl, pos) == first
    ensures first.next.Some? ==> var rest := ParseVectors(buf, end, kind, fvl, first.next.value);
                                 ParseVectors(buf, end, kind, fvl, pos) == Heard(first.said + rest.said, rest.next)
  {
  }

  lemma VectorsStop(buf: seq<byte>, end: nat, kind: AttributeType, fvl: byte, pos: nat)
    requires end < |buf| && !(pos < end && (buf[pos] != 0 || buf[pos + 1] != 0))
    ensures ParseVectors(buf, end, kind, fvl, pos) == Heard([], Some(pos))
  {
  }

  /** Only SRP packets carry AttributeListLength fields. */
  predicate HasLengths(app: Application) {
    app.Srp?
  }

  function HeaderLength(lengths: bool): nat {
    if lengths then 4 else 2
  }

  /** The message behind a list that ends at `next`. */
  function BehindMark(next: Option<nat>): Option<nat> {
    if next.Some? then Some(next.value + 2) else None
  }

  /** The message at `pos`, and where the next one is; at a type that is not known the packet is given up. */
  function ParseMessage(app: Application, lengths: bool, buf: seq<byte>, end: nat, pos: nat): (r: Heard)
    requires pos < end < |buf|
    ensures r.next.Some? ==> r.next.value > pos
  {
    var kind := DecodeType(app, buf[pos]);
    if kind.None? then Heard([], None)
    else
      var vectors := ParseVectors(buf, end, kind.value, buf[pos + 1], pos + HeaderLength(lengths));
      Heard(vectors.said, BehindMark(vectors.next))
  }

  /** The messages from `pos` on, up to a zero type and length or the end of the packet. */
  function ParseMessages(app: Application, lengths: bool, buf: seq<byte>, end: nat, pos: nat): seq<Indication>
    requires end < |buf|
    decreases if pos < end then end - pos else 0
  {
    if pos < end && (buf[pos] != 0 || buf[pos + 1] != 0) then
      var message := ParseMessage(app, lengths, buf, end, pos);
      if message.next.None? then message.said
      else message.said + ParseMessages(app, lengths, buf, end, message.next.value)
    else []
  }

  /** One message of a packet. */
  lemma MessagesStep(app: Application, lengths: bool, s: seq<byte>, end: nat, msg: nat, first: Heard)
    requires msg < end < |s| && (s[msg] != 0 || s[msg + 1] != 0)
    requires first == ParseMessage(app, lengths, s, end, msg)
    ensures ParseMessages(app, lengths, s, end, msg)
            == if first.next.None? then first.said
               else first.said + ParseMessages(app, lengths, s, end, first.next.value)
  {
  }

  // ---------- what a message means ----------

  function SaidValue(m: Message, i: nat): Indication
    requires i < |m.threes|
  {
    Value(m.kind, m.first, i, m.threes[i], if m.kind.Listener? && i < |m.fours| then m.fours[i] else 0)
  }

  function Said(m: Message): seq<Indication> {
    (if m.leaveAll then [LeaveAll(m.kind)] else [])
    + seq(|m.threes|, i requires 0 <= i < |m.threes| => SaidValue(m, i))
  }

  function Saying(): Message -> seq<Indication> {
    m => Said(m)
  }

  function SaidAll(ms: seq<Message>): seq<Indication> {
    FlatMap(Saying(), ms)
  }

  // ---------- parsing undoes encoding ----------

  /** `part` stands in `buf` from `pos` on. */
  predicate Stands(buf: seq<byte>, pos: nat, part: seq<byte>) {
    pos + |part| <= |buf| && buf[pos..pos + |part|] == part
  }

  lemma StandsSplit(buf: seq<byte>, pos: nat, a: seq<byte>, b: seq<byte>)
    requires Stands(buf, pos, a + b)
    ensures Stands(buf, pos, a) && Stands(buf, pos + |a|, b)
  {
    var s := buf[pos..pos + |a + b|];
    assert s[..|a|] == a && s[|a|..] == b;
  }

  lemma StandsSplit3(buf: seq<byte>, pos: nat, a: seq<byte>, b: seq<byte>, c: seq<byte>)
    requires Stands(buf, pos, a + b + c)
    ensures Stands(buf, pos, a) && Stands(buf, pos + |a|, b + c)
  {
    assert a + b + c == a + (b + c);
    StandsSplit(buf, pos, a, b + c);
  }

  /** Where the parts of an attribute list stand. */
  lemma ListStands(buf: seq<byte>, pos: nat, high: byte, low: byte, first: seq<byte>, three: seq<byte>, four: seq<byte>)
    requires Stands(buf, pos, ListBytes(high, low, first, three, four))
    ensures buf[pos] == high && buf[pos + 1] == low
    ensures Stands(buf, pos + 2, first)
    ensures Stands(buf, pos + 2 + |first|, three)
    ensures Stands(buf, pos + 2 + |first| + |three|, four)
    ensures Stands(buf, pos + 2 + |first| + |three| + |four|, [0, 0])
  {
    var s := ListBytes(high, low, first, three, four);
    StandsSplit(buf, pos, [high, low] + first + three + four, [0, 0]);
    StandsSplit(buf, pos, [high, low] + first + three, four);
    StandsSplit(buf, pos, [high, low] + first, three);
    StandsSplit(buf, pos, [high, low], first);
    assert buf[pos] == buf[pos..pos + 2][0] && buf[pos + 1] == buf[pos..pos + 2][1];
  }

  /** `three` and `four` unpack to the events of `m`. */
  predicate Unpacks(m: Message, three: seq<byte>, four: seq<byte>)
    requires WellFormed(m)
  {
    && |three| == (|m.threes| + 2) / 3
    && |four| == FourLength(m.kind, |m.threes|)
    && (forall i: nat :: i < |m.threes| ==> UnpacksAt(m, three, four, i))
  }

  predicate UnpacksAt(m: Message, three: seq<byte>, four: seq<byte>, i: nat)
    requires WellFormed(m) && i < |m.threes|
    requires |three| == (|m.threes| + 2) / 3 && |four| == FourLength(m.kind, |m.threes|)
  {
    && Digit3(three[i / 3], i % 3) == m.threes[i]
    && (m.kind.Listener? ==> Digit4(four[i / 4], i % 4) == m.fours[i])
  }

  lemma PackUnpacks(m: Message)
    requires WellFormed(m)
    ensures Unpacks(m, Pack3(m.threes), Pack4(m.fours))
  {
    forall i: nat | i < |m.threes|
      ensures UnpacksAt(m, Pack3(m.threes), Pack4(m.fours), i)
    {
      UnpackThree(m.threes, i);
      if m.kind.Listener? {
        UnpackFour(m.fours, i);
      }
    }
  }

  lemma ValueReadBack(buf: seq<byte>, pos: nat, m: Message, three: seq<byte>, four: seq<byte>, i: nat)
    requires WellFormed(m) && i < |m.threes|
    requires Unpacks(m, three, four)
    requires Stands(buf, pos + 2, m.first)
    requires Stands(buf, pos + 2 + |m.first|, three)
    requires Stands(buf, pos + 2 + |m.first| + |three|, four)
    ensures ValueAt(buf, m.kind, |m.first|, pos, |m.threes|, i) == SaidValue(m, i)
  {
    var events := pos + 2 + |m.first|;
    var fours := events + |three|;
    assert UnpacksAt(m, three, four, i);
    assert buf[events + i / 3] == buf[events..fours][i / 3];
    if m.kind.Listener? {
      assert buf[fours + i / 4] == buf[fours..fours + |four|][i / 4];
    }
  }

  /** A vector followed by an end mark is the last of its message. */
  lemma LastVector(buf: seq<byte>, end: nat, kind: AttributeType, fvl: byte, pos: nat, n: nat)
    requires end < |buf| && pos < end
    requires (buf[pos] != 0 || buf[pos + 1] != 0) && n == VectorCount(buf[pos], buf[pos + 1])
    requires pos + VectorLength(kind, fvl, n) + 2 <= end
    requires Stands(buf, pos + VectorLength(kind, fvl, n), [0, 0])
    ensures ParseVectors(buf, end, kind, fvl, pos)
            == Heard(VectorSaid(buf, kind, fvl, pos, n), Some(pos + VectorLength(kind, fvl, n)))
  {
    var after := pos + VectorLength(kind, fvl, n);
    assert buf[after] == buf[after..after + 2][0] && buf[after + 1] == buf[after..after + 2][1];
    VectorsStop(buf, end, kind, fvl, after);
    var said := VectorSaid(buf, kind, fvl, pos, n);
    VectorsStep(buf, end, kind, fvl, pos, Heard(said, Some(after)));
    assert said + [] == said;
  }

  lemma ValuesReadBack(buf: seq<byte>, pos: nat, m: Message, three: seq<byte>, four: seq<byte>)
    requires WellFormed(m) && Unpacks(m, three, four)
    requires Stands(buf, pos + 2, m.first)
    requires Stands(buf, pos + 2 + |m.first|, three)
    requires Stands(buf, pos + 2 + |m.first| + |three|, four)
    requires buf[pos] == HighByte(m.leaveAll)
    ensures VectorSaid(buf, m.kind, |m.first|, pos, |m.threes|) == Said(m)
  {
    var n := |m.threes|;
    forall i: nat | i < n
      ensures ValueAt(buf, m.kind, |m.first|, pos, n, i) == SaidValue(m, i)
    {
      ValueReadBack(buf, pos, m, three, four, i);
    }
    assert VectorValues(buf, m.kind, |m.first|, pos, n) == seq(n, i requires 0 <= i < n => SaidValue(m, i));
  }

  /** The vector of an encoded message is heard as the message meant it, and parsing stops at its end mark. */
  lemma VectorHeard(buf: seq<byte>, end: nat, pos: nat, m: Message, three: seq<byte>, four: seq<byte>, after: nat)
    requires end < |buf| && Audible(m) && Unpacks(m, three, four)
    requires Stands(buf, pos, ListBytes(HighByte(m.leaveAll), |m.threes|, m.first, three, four))
    requires after == pos + 2 + |m.first| + |three| + |four| && after + 2 <= end
    ensures ParseVectors(buf, end, m.kind, |m.first|, pos) == Heard(Said(m), Some(after))
  {
    ListStands(buf, pos, HighByte(m.leaveAll), |m.threes|, m.first, three, four);
    LastVector(buf, end, m.kind, |m.first|, pos, |m.threes|);
    ValuesReadBack(buf, pos, m, three, four);
  }

  lemma MessageStands(lengths: bool, m: Message, buf: seq<byte>, pos: nat)
    requires WellFormed(m) && Stands(buf, pos, OnWire(lengths, m))
    ensures buf[pos] == TypeCode(m.kind) && buf[pos + 1] == |m.first|
    ensures Stands(buf, pos + HeaderLength(lengths), List(m))
    ensures |OnWire(lengths, m)| == HeaderLength(lengths) + |List(m)|
  {
    var h := HeaderLength(lengths);
    var header := OnWire(lengths, m)[..h];
    assert OnWire(lengths, m) == header + List(m);
    StandsSplit(buf, pos, header, List(m));
    assert buf[pos] == buf[pos..pos + h][0] && buf[pos + 1] == buf[pos..pos + h][1];
  }

  /** The parser hears message `m` at `pos` and stops at the end mark at `after`. */
  predicate IsHeard(lengths: bool, m: Message, buf: seq<byte>, end: nat, pos: nat, after: nat) {
    && pos < end < |buf|
    && buf[pos] == TypeCode(m.kind) && buf[pos + 1] == |m.first|
    && ParseVectors(buf, end, m.kind, |m.first|, pos + HeaderLength(lengths)) == Heard(Said(m), Some(after))
  }

  lemma MessageParsed(app: Application, lengths: bool, m: Message, buf: seq<byte>, end: nat, pos: nat, after: nat)
    requires BelongsTo(m.kind, app) && IsHeard(lengths, m, buf, end, pos, after)
    ensures buf[pos] != 0 && ParseMessage(app, lengths, buf, end, pos) == Heard(Said(m), Some(after + 2))
  {
  }

  lemma ListHeard(m: Message, buf: seq<byte>, end: nat, list: nat, after: nat)
    requires Audible(m) && end < |buf|
    requires Stands(buf, list, List(m)) && after + 2 == list + |List(m)| <= end
    ensures ParseVectors(buf, end, m.kind, |m.first|, list) == Heard(Said(m), Some(after))
  {
    PackUnpacks(m);
    VectorHeard(buf, end, list, m, Pack3(m.threes), Pack4(m.fours), after);
  }

  /** One encoded message is heard as it meant, up to its end mark. */
  lemma EncodedHeard(lengths: bool, m: Message, buf: seq<byte>, end: nat, pos: nat, after: nat)
    requires Audible(m) && end < |buf|
    requires Stands(buf, pos, OnWire(lengths, m)) && after + 2 == pos + |OnWire(lengths, m)| <= end
    ensures IsHeard(lengths, m, buf, end, pos, after)
  {
    MessageStands(lengths, m, buf, pos);
    ListHeard(m, buf, end, pos + HeaderLength(lengths), after);
  }

  predicate AllAudible(app: Application, ms: seq<Message>) {
    forall i :: 0 <= i < |ms| ==> Audible(ms[i]) && BelongsTo(ms[i].kind, app)
  }

  /** The messages `ms` and an end mark stand in `buf` from `pos` on, within the packet. */
  predicate Carries(lengths: bool, ms: seq<Message>, buf: seq<byte>, end: nat, pos: nat)
  {
    && end < |buf|
    && Stands(buf, pos, OnWireAll(lengths, ms) + [0, 0])
    && pos + |OnWireAll(lengths, ms)| + 2 <= end
  }

  lemma CarriesSplit(lengths: bool, ms: seq<Message>, buf: seq<byte>, end: nat, pos: nat)
    requires Carries(lengths, ms, buf, end, pos) && ms != []
    ensures Stands(buf, pos, OnWire(lengths, ms[0])) && pos + |OnWire(lengths, ms[0])| <= end
    ensures Carries(lengths, ms[1..], buf, end, pos + |OnWire(lengths, ms[0])|)
  {
    StandsSplit3(buf, pos, OnWire(lengths, ms[0]), OnWireAll(lengths, ms[1..]), [0, 0]);
  }

  lemma EndMarkEnds(app: Application, lengths: bool, buf: seq<byte>, end: nat, pos: nat)
    requires Carries(lengths, [], buf, end, pos)
    ensures ParseMessages(app, lengths, buf, end, pos) == []
  {
    assert buf[pos] == buf[pos..pos + 2][0] && buf[pos + 1] == buf[pos..pos + 2][1];
  }

  /** What is heard first, and where the rest is carried. */
  lemma FirstHeard(app: Application, lengths: bool, ms: seq<Message>, buf: seq<byte>, end: nat, pos: nat)
    returns (after: nat)
    requires ms != [] && AllAudible(app, ms) && Carries(lengths, ms, buf, end, pos)
    ensures Carries(lengths, ms[1..], buf, end, after + 2) && IsHeard(lengths, ms[0], buf, end, pos, after)
  {
    after := pos + |OnWire(lengths, ms[0])| - 2;
    CarriesSplit(lengths, ms, buf, end, pos);
    EncodedHeard(lengths, ms[0], buf, end, pos, after);
  }

  lemma FirstParsed(app: Application, lengths: bool, ms: seq<Message>, buf: seq<byte>, end: nat, pos: nat)
    returns (next: nat)
    requires ms != [] && AllAudible(app, ms) && Carries(lengths, ms, buf, end, pos)
    ensures Carries(lengths, ms[1..], buf, end, next)
    ensures ParseMessages(app, lengths, buf, end, pos) == Said(ms[0]) + ParseMessages(app, lengths, buf, end, next)
  {
    var after := FirstHeard(app, lengths, ms, buf, end, pos);
    MessageParsed(app, lengths, ms[0], buf, end, pos, after);
    next := after + 2;
    MessagesStep(app, lengths, buf, end, pos, Heard(Said(ms[0]), Some(next)));
  }

  lemma SaidCons(ms: seq<Message>)
    requires ms != []
    ensures SaidAll(ms) == Said(ms[0]) + SaidAll(ms[1..])
  {
  }

  /**
   MRPDU round trip: whatever messages were encoded, the parser hears exactly their
   leave-all flags and values, in order, and nothing of what follows the end mark.
   */
  lemma {:induction false} RoundTrip(app: Application, lengths: bool, ms: seq<Message>,
                                     buf: seq<byte>, end: nat, pos: nat)
    requires AllAudible(app, ms) && Carries(lengths, ms, buf, end, pos)
    ensures ParseMessages(app, lengths, buf, end, pos) == SaidAll(ms)
    decreases |ms|
  {
    if ms == [] {
      EndMarkEnds(app, lengths, buf, end, pos);
    } else {
      var next := FirstParsed(app, lengths, ms, buf, end, pos);
      RoundTrip(app, lengths, ms[1..], buf, end, next);
      SaidCons(ms);
    }
  }

  /**
   Stripping preserves meaning: what an MVRP receiver hears in the stripped PDU is what a parser
   that knows the AttributeListLength fields hears in the PDU before they are removed.
   */
  lemma StrippingPreservesMeaning(ms: seq<Message>, stripped: seq<byte>, endStripped: nat,
                                  full: seq<byte>, endFull: nat)
    requires AllAudible(Mvrp, ms)
    requires Carries(false, ms, stripped, endStripped, 1) && Carries(true, ms, full, endFull, 1)
    ensures ParseMessages(Mvrp, false, stripped, endStripped, 1) == ParseMessages(Mvrp, true, full, endFull, 1)
  {
    RoundTrip(Mvrp, false, ms, stripped, endStripped, 1);
    RoundTrip(Mvrp, true, ms, full, endFull, 1);
  }
}
