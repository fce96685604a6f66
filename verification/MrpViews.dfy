/**
 What a PDU looks like in the send buffer: a message in the middle of it, the messages one after the other, the length
 fields stripped, and the frame (module_avb_srp/src/avb_mrp.c).
 */
module MrpViews {
  import opened Bytes
  import opened Seqs
  import opened MrpEvents
  import opened MrpPdu
  import opened MrpDeclarations

  /** Where the first message starts: after the Ethernet header and the protocol version. */
  const BODY: nat := 15

  /** The most that one declaration can add: a whole talker message with one value. */
  const ROOM: nat := 34

  // ---------- a message in the middle of a buffer ----------

  /** The first four bytes of a message. */
  function Header(kind: AttributeType, fvl: byte, length: nat): (s: seq<byte>)
    requires length < TWO_TO_16
    ensures |s| == 4
  {
    [TypeCode(kind), fvl] + Be16(length)
  }

  /** A buffer seen as one message, in parts, between what precedes and what follows it. */
  datatype View = View(pre: seq<byte>, kind: AttributeType, high: byte, low: byte,
                       first: seq<byte>, three: seq<byte>, four: seq<byte>, post: seq<byte>)
  {
    predicate Fits() {
      |first| < 256 && |three| < 255 && |four| < 255
    }

    function Bytes(): seq<byte>
      requires |first| < 256 && |three| < 256 && |four| < 256
    {
      pre + (Header(kind, |first|, ListLength()) + ListBytes(high, low, first, three, four)) + post
    }

    function ListLength(): nat {
      4 + |first| + |three| + |four|
    }

    /** The packed vectors hold `low` values of `a`'s type. */
    predicate Takes(a: Attribute) {
      |three| == (low + 2) / 3 && |four| == FourLength(KindOf(a), low)
    }

    function WithFirst(a: Attribute): View {
      if low == 0 then this.(first := FirstValue(a)) else this
    }

    function WithEvents(a: Attribute, event: ThreeEvent): View
      requires Takes(a)
    {
      this.(three := Append3(three, low, event),
            four := if a.ListenerAttribute? then Append4(four, low, READY) else four)
    }

    function Added(a: Attribute, event: ThreeEvent): View
      requires Takes(a) && low < 255
    {
      WithFirst(a).WithEvents(a, event).(low := low + 1)
    }
  }

  /** The vector bytes one more value can take. */
  function Growth(a: Attribute): nat {
    if a.ListenerAttribute? then 2 else 1
  }

  /** `m` between `pre` and `post`. */
  function ViewOf(pre: seq<byte>, m: Message, post: seq<byte>): View
    requires WellFormed(m)
  {
    View(pre, m.kind, HighByte(m.leaveAll), |m.threes|, m.first, Pack3(m.threes), Pack4(m.fours), post)
  }

  /** The views between the three steps in which a value is added. */
  lemma AddedSteps(v: View, a: Attribute, event: ThreeEvent) returns (w: View, x: View)
    requires v.Fits() && v.Takes(a) && |v.first| == FirstValueLength(KindOf(a)) && v.low < 255
    ensures w == v.WithFirst(a) && w.Takes(a) && x == w.WithEvents(a, event)
    ensures w.Fits() && w.pre == v.pre && |w.first| == |v.first|
    ensures |x.first| < 256 && |x.three| < 256 && |x.four| < 256 && x.pre == v.pre && x.low == v.low
    ensures x.(low := x.low + 1) == v.Added(a, event)
  {
    w := v.WithFirst(a);
    x := w.WithEvents(a, event);
  }

  /** Adding a value to the view of a message gives the view of the message with that value. */
  lemma AddedView(pre: seq<byte>, m: Message, post: seq<byte>, a: Attribute, event: ThreeEvent)
    requires WellFormed(m) && Mergeable(m, a) && |m.threes| < 255
    ensures WellFormed(AddValue(m, a, event))
    ensures var v := ViewOf(pre, m, post);
            v.Takes(a) && v.Added(a, event) == ViewOf(pre, AddValue(m, a, event), post)
  {
    var r, v := AddValue(m, a, event), ViewOf(pre, m, post);
    Pack3Append(m.threes, event);
    assert r.threes == m.threes + [event];
    if a.ListenerAttribute? {
      Pack4Append(m.fours, READY);
      assert r.fours == m.fours + [READY];
    } else {
      assert r.fours == m.fours;
    }
    assert v.WithFirst(a).first == r.first;
  }

  /** A byte opened behind `a`, with the length field raised, gives the same message with `a` one byte longer. */
  lemma Grow(pre: seq<byte>, two: seq<byte>, length: nat, a: seq<byte>, b: seq<byte>, post: seq<byte>,
             s: seq<byte>, t: seq<byte>)
    requires |two| == 2 && length + 1 < TWO_TO_16
    requires s == pre + (two + Be16(length) + (a + b)) + post
    requires var at := |pre| + 4 + |a|;
             t == (s[..at] + [0] + s[at..])[|pre| + 2 := Be16(length + 1)[0]][|pre| + 3 := Be16(length + 1)[1]]
    ensures t == pre + (two + Be16(length + 1) + (a + [0] + b)) + post
  {
  }

  /** Overwriting one byte of `a` changes nothing else. */
  lemma Overwrite(pre: seq<byte>, four: seq<byte>, a: seq<byte>, b: seq<byte>, post: seq<byte>,
                  s: seq<byte>, i: nat, v: byte)
    requires |four| == 4 && i < |a|
    requires s == pre + (four + (a + b)) + post
    ensures s[|pre| + 4 + i := v] == pre + (four + (a[i := v] + b)) + post
  {
  }

  /** The buffer after `n` of the bytes were written at `at`. */
  function Stored(s: seq<byte>, at: nat, bytes: seq<byte>, n: nat): seq<byte>
    requires n <= |bytes| && at + n <= |s|
  {
    s[..at] + bytes[..n] + s[at + n..]
  }

  lemma StoredNext(s: seq<byte>, at: nat, bytes: seq<byte>, n: nat)
    requires n < |bytes| && at + n < |s|
    ensures |Stored(s, at, bytes, n)| == |s|
    ensures Stored(s, at, bytes, n)[at + n := bytes[n]] == Stored(s, at, bytes, n + 1)
  {
  }

  /** The buffer with a zero byte opened at `at` and `length` stored in the message at `msg`. */
  function Grown(s: seq<byte>, msg: nat, at: nat, length: nat): seq<byte>
    requires msg + 4 <= at <= |s| && length < TWO_TO_16
  {
    (s[..at] + [0] + s[at..])[msg + 2 := Be16(length)[0]][msg + 3 := Be16(length)[1]]
  }

  /** Opening a byte ahead of the end mark moves the end mark along with it. */
  lemma EndMarkKept(s: seq<byte>, msg: nat, at: nat, length: nat)
    requires 0 < length < TWO_TO_16 && msg + 4 <= at && at + 2 <= msg + 3 + length
    requires msg + 3 + length <= |s| && s[msg + 1 + length] == 0 && s[msg + 2 + length] == 0
    ensures var grown := Grown(s, msg, at, length);
            |grown| == |s| + 1 && grown[msg + 2 + length] == 0 && grown[msg + 3 + length] == 0
  {
  }

  lemma GrowThree(v: View, msg: nat, at: nat)
    requires v.Fits() && msg == |v.pre| && at == msg + 6 + |v.first| + |v.three|
    ensures at <= |v.Bytes()| && Grown(v.Bytes(), msg, at, v.ListLength() + 1) == v.(three := v.three + [0]).Bytes()
  {
    var a, b := [v.high, v.low] + v.first + v.three, v.four + [0, 0];
    assert ListBytes(v.high, v.low, v.first, v.three, v.four) == a + b;
    assert ListBytes(v.high, v.low, v.first, v.three + [0], v.four) == a + [0] + b;
    Grow(v.pre, [TypeCode(v.kind), |v.first| as byte], v.ListLength(), a, b, v.post, v.Bytes(),
         Grown(v.Bytes(), msg, at, v.ListLength() + 1));
  }

  lemma GrowFour(v: View, msg: nat, at: nat)
    requires v.Fits() && msg == |v.pre| && at == msg + 6 + |v.first| + |v.three| + |v.four|
    ensures at <= |v.Bytes()| && Grown(v.Bytes(), msg, at, v.ListLength() + 1) == v.(four := v.four + [0]).Bytes()
  {
    var a, b := [v.high, v.low] + v.first + v.three + v.four, [0, 0];
    assert ListBytes(v.high, v.low, v.first, v.three, v.four) == a + b;
    assert ListBytes(v.high, v.low, v.first, v.three, v.four + [0]) == a + [0] + b;
    Grow(v.pre, [TypeCode(v.kind), |v.first| as byte], v.ListLength(), a, b, v.post, v.Bytes(),
         Grown(v.Bytes(), msg, at, v.ListLength() + 1));
  }

  /** The view with a byte for value `v.low`, and how the buffer comes to it. */
  lemma OpenedThree(v: View, msg: nat, at: nat, opens: bool) returns (w: View)
    requires v.Fits() && |v.three| == (v.low + 2) / 3 && msg == |v.pre|
    requires at == msg + 6 + |v.first| + v.low / 3 && opens == (v.low % 3 == 0)
    ensures w == v.(three := Open3(v.three, v.low)) && v.low / 3 < |w.three|
    ensures |w.first| < 256 && |w.three| < 256 && |w.four| < 256
    ensures opens ==> at + 2 <= msg + 4 + v.ListLength() && msg + 4 <= at <= |v.Bytes()|
    ensures w.Bytes() == if opens then Grown(v.Bytes(), msg, at, v.ListLength() + 1) else v.Bytes()
  {
    w := v.(three := Open3(v.three, v.low));
    if opens {
      GrowThree(v, msg, at);
      assert w == v.(three := v.three + [0]);
    }
  }

  /** The view with a byte for value `v.low`, and how the buffer comes to it. */
  lemma OpenedFour(v: View, msg: nat, at: nat, opens: bool) returns (w: View)
    requires v.Fits() && |v.four| == (v.low + 3) / 4 && msg == |v.pre|
    requires at == msg + 6 + |v.first| + |v.three| + v.low / 4 && opens == (v.low % 4 == 0)
    ensures w == v.(four := Open4(v.four, v.low)) && v.low / 4 < |w.four|
    ensures |w.first| < 256 && |w.three| < 256 && |w.four| < 256
    ensures opens ==> at + 2 <= msg + 4 + v.ListLength() && msg + 4 <= at <= |v.Bytes()|
    ensures w.Bytes() == if opens then Grown(v.Bytes(), msg, at, v.ListLength() + 1) else v.Bytes()
  {
    w := v.(four := Open4(v.four, v.low));
    if opens {
      GrowFour(v, msg, at);
      assert w == v.(four := v.four + [0]);
    }
  }

  lemma OverwriteThree(v: View, i: nat, x: byte)
    requires |v.first| < 256 && |v.three| < 256 && |v.four| < 256 && i < |v.three|
    ensures v.Bytes()[|v.pre| + 6 + |v.first| + i := x] == v.(three := v.three[i := x]).Bytes()
  {
    var a, b := [v.high, v.low] + v.first + v.three, v.four + [0, 0];
    assert ListBytes(v.high, v.low, v.first, v.three, v.four) == a + b;
    assert ListBytes(v.high, v.low, v.first, v.three[i := x], v.four) == a[2 + |v.first| + i := x] + b;
    Overwrite(v.pre, Header(v.kind, |v.first|, v.ListLength()), a, b, v.post, v.Bytes(), 2 + |v.first| + i, x);
  }

  lemma OverwriteFour(v: View, i: nat, x: byte)
    requires |v.first| < 256 && |v.three| < 256 && |v.four| < 256 && i < |v.four|
    ensures v.Bytes()[|v.pre| + 6 + |v.first| + |v.three| + i := x] == v.(four := v.four[i := x]).Bytes()
  {
    var a, b := [v.high, v.low] + v.first + v.three + v.four, [0, 0];
    var j := 2 + |v.first| + |v.three| + i;
    assert ListBytes(v.high, v.low, v.first, v.three, v.four) == a + b;
    assert ListBytes(v.high, v.low, v.first, v.three, v.four[i := x]) == a[j := x] + b;
    Overwrite(v.pre, Header(v.kind, |v.first|, v.ListLength()), a, b, v.post, v.Bytes(), j, x);
  }

  lemma OverwriteCount(v: View, x: byte)
    requires |v.first| < 256 && |v.three| < 256 && |v.four| < 256
    ensures v.Bytes()[|v.pre| + 5 := x] == v.(low := x).Bytes()
  {
    var a, b := [v.high, v.low], v.first + v.three + v.four + [0, 0];
    assert ListBytes(v.high, v.low, v.first, v.three, v.four) == a + b;
    assert ListBytes(v.high, x, v.first, v.three, v.four) == a[1 := x] + b;
    Overwrite(v.pre, Header(v.kind, |v.first|, v.ListLength()), a, b, v.post, v.Bytes(), 1, x);
  }

  lemma OverwriteFirst(v: View, first: seq<byte>)
    requires |v.first| < 256 && |v.three| < 256 && |v.four| < 256 && |first| == |v.first|
    ensures var at := |v.pre| + 6;
            v.Bytes()[..at] + first + v.Bytes()[at + |first|..] == v.(first := first).Bytes()
  {
  }

  /** What the header fields of the message are. */
  lemma HeaderAt(v: View)
    requires |v.first| < 256 && |v.three| < 256 && |v.four| < 256
    ensures var s := v.Bytes(); var p := |v.pre|;
            && |s| == p + 4 + v.ListLength() + |v.post|
            && s[p] == TypeCode(v.kind) && s[p + 1] == |v.first|
            && s[p + 2] as int * 256 + s[p + 3] as int == v.ListLength()
            && s[p + 4] == v.high && s[p + 5] == v.low
            && s[p + 2 + v.ListLength()] == 0 && s[p + 3 + v.ListLength()] == 0
  {
  }

  lemma FirstAt(v: View)
    requires |v.first| < 256 && |v.three| < 256 && |v.four| < 256
    ensures var at := |v.pre| + 6; v.Bytes()[at..at + |v.first|] == v.first
  {
  }

  lemma ThreeAt(v: View, i: nat)
    requires |v.first| < 256 && |v.three| < 256 && |v.four| < 256 && i < |v.three|
    ensures v.Bytes()[|v.pre| + 6 + |v.first| + i] == v.three[i]
  {
  }

  lemma FourAt(v: View, i: nat)
    requires |v.first| < 256 && |v.three| < 256 && |v.four| < 256 && i < |v.four|
    ensures v.Bytes()[|v.pre| + 6 + |v.first| + |v.three| + i] == v.four[i]
  {
  }

  /** Event `n` added into its byte. */
  lemma PackedThree(w: View, n: nat, event: ThreeEvent)
    requires |w.first| < 256 && |w.three| < 256 && |w.four| < 256 && n / 3 < |w.three|
    ensures var s, at := w.Bytes(), |w.pre| + 6 + |w.first| + n / 3;
            && at < |s| && s[at] == w.three[n / 3]
            && s[at := (w.three[n / 3] + Place3(event, n % 3)) % 256] == w.(three := Added3(w.three, n, event)).Bytes()
  {
    HeaderAt(w);
    ThreeAt(w, n / 3);
    OverwriteThree(w, n / 3, (w.three[n / 3] + Place3(event, n % 3)) % 256);
  }

  lemma PackedFour(w: View, n: nat, event: FourEvent)
    requires |w.first| < 256 && |w.three| < 256 && |w.four| < 256 && n / 4 < |w.four|
    ensures var s, at := w.Bytes(), |w.pre| + 6 + |w.first| + |w.three| + n / 4;
            && at < |s| && s[at] == w.four[n / 4]
            && s[at := (w.four[n / 4] + Place4(event, n % 4)) % 256] == w.(four := Added4(w.four, n, event)).Bytes()
  {
    HeaderAt(w);
    FourAt(w, n / 4);
    OverwriteFour(w, n / 4, (w.four[n / 4] + Place4(event, n % 4)) % 256);
  }

  /** The first value, stored at `at` if there is none yet. */
  lemma FirstStored(v: View, a: Attribute, first: seq<byte>, at: nat, stores: bool) returns (w: View)
    requires v.Fits() && first == FirstValue(a) && |v.first| == |first|
    requires at == |v.pre| + 6 && stores == (v.low == 0)
    ensures w == v.WithFirst(a) && |w.first| < 256 && |w.three| < 256 && |w.four| < 256
    ensures at + |first| <= |v.Bytes()|
    ensures w.Bytes() == if stores then v.Bytes()[..at] + first + v.Bytes()[at + |first|..] else v.Bytes()
  {
    HeaderAt(v);
    w := v.WithFirst(a);
    if stores {
      OverwriteFirst(v, first);
    }
  }

  /** Opening a byte and adding the event into it is appending the event. */
  lemma AppendedThree(v: View, w: View, event: ThreeEvent)
    requires |v.three| == (v.low + 2) / 3 && w == v.(three := Open3(v.three, v.low)) && v.low / 3 < |w.three|
    ensures w.(three := Added3(w.three, v.low, event)) == v.(three := Append3(v.three, v.low, event))
  {
  }

  lemma AppendedFour(v: View, w: View, event: FourEvent)
    requires |v.four| == (v.low + 3) / 4 && w == v.(four := Open4(v.four, v.low)) && v.low / 4 < |w.four|
    ensures w.(four := Added4(w.four, v.low, event)) == v.(four := Append4(v.four, v.low, event))
  {
  }

  /** The buffer with a zero byte opened is what it was, moved up behind the byte. */
  lemma OpenedAt(s: seq<byte>, t: seq<byte>, at: nat)
    requires |t| == |s| + 1 && at <= |s| && t[at] == 0
    requires forall k :: 0 <= k < at ==> t[k] == s[k]
    requires forall k :: at < k <= |s| ==> t[k] == s[k - 1]
    ensures t == s[..at] + [0] + s[at..]
  {
    var target := s[..at] + [0] + s[at..];
    forall k | 0 <= k < |t| ensures t[k] == target[k] {
      if k > at {
        assert target[k] == s[at..][k - at - 1];
      }
    }
  }

  // ---------- a PDU in a buffer ----------

  predicate AllBelong(ms: seq<Message>, app: Application) {
    forall i :: 0 <= i < |ms| ==> BelongsTo(ms[i].kind, app)
  }

  /** One more message behind the others. */
  lemma MessageAppended(ms: seq<Message>, m: Message, app: Application)
    requires AllWellFormed(ms) && AllBelong(ms, app) && WellFormed(m) && BelongsTo(m.kind, app)
    ensures AllWellFormed(ms + [m]) && AllBelong(ms + [m], app)
    ensures OnWireAll(true, ms + [m]) == OnWireAll(true, ms) + OnWire(true, m)
  {
    FlatMapAppend(Wire(true), ms, [m]);
    FlatMapOne(Wire(true), m);
  }

  lemma {:induction false} LongestBounds(ms: seq<Message>, j: nat)
    requires j < |ms|
    ensures |ms[j].threes| <= Longest(ms)
  {
    if j > 0 {
      LongestBounds(ms[1..], j - 1);
    }
  }

  lemma LayoutParts(kind: AttributeType, high: byte, low: byte, first: seq<byte>, three: seq<byte>, four: seq<byte>,
                    fvl: byte, length: nat)
    requires |first| < 256 && |three| < 256 && |four| < 256
    requires fvl == |first| && length == 4 + |first| + |three| + |four|
    ensures Layout(kind, high, low, first, three, four)
            == Header(kind, fvl, length) + ListBytes(high, low, first, three, four)
  {
    assert |first| % 256 == fvl;
    assert length % TWO_TO_16 == length;
  }

  lemma ViewBytes(pre: seq<byte>, m: Message, post: seq<byte>)
    requires WellFormed(m)
    ensures ViewOf(pre, m, post).Bytes() == pre + Wire(true)(m) + post
  {
    var three, four := Pack3(m.threes), Pack4(m.fours);
    EncodedParts(m, three, four, ListBytes(HighByte(m.leaveAll), |m.threes|, m.first, three, four));
  }

  /** A message on the wire: its header, and its attribute list. */
  lemma EncodedParts(m: Message, three: seq<byte>, four: seq<byte>, list: seq<byte>)
    requires WellFormed(m) && three == Pack3(m.threes) && four == Pack4(m.fours)
    requires list == ListBytes(HighByte(m.leaveAll), |m.threes|, m.first, three, four)
    ensures |list| < TWO_TO_16 && |list| == 4 + |m.first| + |three| + |four|
    ensures OnWire(true, m) == Header(m.kind, |m.first|, |list|) + list
    ensures OnWire(false, m) == [TypeCode(m.kind), |m.first|] + list
  {
    var low, fvl := |m.threes|, |m.first|;
    assert low % 256 == low && fvl % 256 == fvl;
    assert Encode(m) == Layout(m.kind, HighByte(m.leaveAll), low, m.first, three, four);
    LayoutParts(m.kind, HighByte(m.leaveAll), low, m.first, three, four, fvl, |list|);
    assert List(m) == list;
  }

  lemma SliceSplit(s: seq<byte>, from: nat, a: seq<byte>, b: seq<byte>, c: seq<byte>)
    requires from <= |s| && s[from..] == a + (b + c)
    ensures from + |a| <= |s| && s == s[..from + |a|] + b + c && s[..from + |a|][from..] == a
  {
    assert s == s[..from] + s[from..];
  }

  /** A buffer that holds a PDU, seen as its message `j`. */
  lemma PduView(ms: seq<Message>, j: nat, s: seq<byte>) returns (v: View)
    requires j < |ms| && WellFormed(ms[j])
    requires |s| >= BODY && s[BODY..] == OnWireAll(true, ms)
    ensures var msg := BODY + |OnWireAll(true, ms[..j])|;
            && msg <= |s| && v == ViewOf(s[..msg], ms[j], OnWireAll(true, ms[j + 1..]))
            && s[..msg][BODY..] == OnWireAll(true, ms[..j])
    ensures s == v.Bytes()
  {
    var before, after := OnWireAll(true, ms[..j]), OnWireAll(true, ms[j + 1..]);
    FlatMapSplit(Wire(true), ms, j);
    SliceSplit(s, BODY, before, Wire(true)(ms[j]), after);
    var msg := BODY + |before|;
    v := ViewOf(s[..msg], ms[j], after);
    ViewBytes(s[..msg], ms[j], after);
  }

  lemma PduHere(ms: seq<Message>, j: nat, s: seq<byte>)
    requires j < |ms| && WellFormed(ms[j])
    requires |s| >= BODY && s[BODY..] == OnWireAll(true, ms)
    ensures var msg := BODY + |OnWireAll(true, ms[..j])|;
            msg + 1 < |s| && s[msg] != 0
  {
    var v := PduView(ms, j, s);
    HeaderAt(v);
  }

  lemma PrefixOnWire(ms: seq<Message>, j: nat)
    requires j < |ms|
    ensures OnWireAll(true, ms[..j + 1]) == OnWireAll(true, ms[..j]) + OnWire(true, ms[j])
  {
    FlatMapSplit(Wire(true), ms, j);
  }

  lemma LengthOnWire(m: Message)
    requires WellFormed(m)
    ensures |OnWire(true, m)| == 8 + |m.first| + |Pack3(m.threes)| + |Pack4(m.fours)|
  {
    EncodedParts(m, Pack3(m.threes), Pack4(m.fours), List(m));
  }

  /** The list length of message `j` leads to its end. */
  lemma MessageEnd(ms: seq<Message>, j: nat, s: seq<byte>, msg: nat)
    requires j < |ms| && WellFormed(ms[j])
    requires |s| >= BODY && s[BODY..] == OnWireAll(true, ms) && msg == BODY + |OnWireAll(true, ms[..j])|
    ensures msg + 4 <= |s|
    ensures msg + 4 + (s[msg + 2] as int * 256 + s[msg + 3] as int) == BODY + |OnWireAll(true, ms[..j + 1])| <= |s|
  {
    var v := PduView(ms, j, s);
    HeaderAt(v);
    PrefixOnWire(ms, j);
    LengthOnWire(ms[j]);
  }

  /** Replacing message `j` of a PDU in place gives the PDU with that message replaced. */
  lemma PduMerged(ms: seq<Message>, j: nat, m: Message, pre: seq<byte>, s: seq<byte>)
    requires j < |ms| && WellFormed(m)
    requires |pre| >= BODY && pre[BODY..] == OnWireAll(true, ms[..j])
    requires s == ViewOf(pre, m, OnWireAll(true, ms[j + 1..])).Bytes()
    ensures |s| >= BODY && s[BODY..] == OnWireAll(true, ms[..j] + [m] + ms[j + 1..])
  {
    var after := OnWireAll(true, ms[j + 1..]);
    FlatMapReplace(Wire(true), ms, j, m);
    ViewBytes(pre, m, after);
    Tail(pre, BODY, Wire(true)(m), after);
  }

  lemma Tail(pre: seq<byte>, from: nat, b: seq<byte>, c: seq<byte>)
    requires from <= |pre|
    ensures (pre + b + c)[from..] == pre[from..] + b + c
  {
  }

  /** None of the first `n` messages takes a declaration of `a`. */
  predicate NoneTakes(ms: seq<Message>, n: nat, a: Attribute) {
    n <= |ms| && forall i :: 0 <= i < n ==> !Mergeable(ms[i], a)
  }

  /** `Declare` by position: the first message that takes the value gets it. */
  lemma {:induction false} DeclareAt(ms: seq<Message>, j: nat, a: Attribute, event: ThreeEvent)
    requires j < |ms| && Mergeable(ms[j], a) && NoneTakes(ms, j, a)
    ensures Declare(ms, a, event) == ms[..j] + [AddValue(ms[j], a, event)] + ms[j + 1..]
  {
    if j > 0 {
      TailAt(ms, j);
      var tail, added := ms[1..], AddValue(ms[j], a, event);
      DeclareAt(tail, j - 1, a, event);
      assert [ms[0]] + (tail[..j - 1] + [added] + tail[j..]) == [ms[0]] + tail[..j - 1] + [added] + tail[j..];
    }
  }

  lemma {:induction false} DeclareNew(ms: seq<Message>, a: Attribute, event: ThreeEvent)
    requires NoneTakes(ms, |ms|, a)
    ensures Declare(ms, a, event) == ms + [AddValue(EmptyMessage(KindOf(a), false), a, event)]
  {
    if ms != [] {
      var tail, added := ms[1..], AddValue(EmptyMessage(KindOf(a), false), a, event);
      DeclareNew(tail, a, event);
      assert ms == [ms[0]] + tail;
      assert [ms[0]] + (tail + [added]) == [ms[0]] + tail + [added];
    }
  }

  lemma EmptyLayout(kind: AttributeType, leaveAll: bool, s: seq<byte>)
    requires |s| == 8 + FirstValueLength(kind)
    requires s[..6] == Header(kind, FirstValueLength(kind), FirstValueLength(kind) + 4) + [HighByte(leaveAll), 0]
    requires forall i :: 6 <= i < |s| ==> s[i] == 0
    ensures s == OnWire(true, EmptyMessage(kind, leaveAll))
  {
    var m, fvl := EmptyMessage(kind, leaveAll), FirstValueLength(kind);
    EventsOfNone();
    LayoutParts(kind, HighByte(leaveAll), 0, m.first, [], [], fvl, fvl + 4);
    assert s[6..] == m.first + [0, 0];
    EmptyParts(s, Header(kind, fvl, fvl + 4), HighByte(leaveAll), m.first);
  }

  lemma EventsOfNone()
    ensures Pack3([]) == [] && Pack4([]) == []
  {
  }

  lemma EmptyParts(s: seq<byte>, header: seq<byte>, high: byte, first: seq<byte>)
    requires |s| >= 6 && s[..6] == header + [high, 0] && s[6..] == first + [0, 0]
    ensures s == header + ListBytes(high, 0, first, [], [])
  {
    assert s == s[..6] + s[6..];
  }

  // ---------- stripping ----------

  function Zeros(n: nat): (s: seq<byte>)
    ensures |s| == n
  {
    seq(n, i => 0)
  }

  /** Two bytes deleted at `at`; what stood before `end` moves down, its last two bytes stay. */
  function Deleted(s: seq<byte>, at: nat, end: nat): (r: seq<byte>)
    requires at + 2 <= end <= |s|
    ensures |r| == |s|
  {
    s[..at] + s[at + 2..end] + s[end - 2..]
  }

  /** An empty sequence, or one whose last two bytes are zero. */
  predicate MarkEnds(s: seq<byte>) {
    |s| == 0 || (|s| >= 2 && s[|s| - 2] == 0 && s[|s| - 1] == 0)
  }

  lemma MarkEndsAppend(a: seq<byte>, b: seq<byte>)
    requires |a| >= 2 && MarkEnds(a) && MarkEnds(b)
    ensures MarkEnds(a + b)
  {
  }

  /** Every PDU ends in the end mark of its last message. */
  lemma {:induction false} EndsInMark(ms: seq<Message>)
    requires AllWellFormed(ms)
    ensures MarkEnds(OnWireAll(true, ms))
    decreases |ms|
  {
    if ms != [] {
      MessageParts(ms[0]);
      EndsInMark(ms[1..]);
      MarkEndsAppend(OnWire(true, ms[0]), OnWireAll(true, ms[1..]));
    }
  }

  /** The rest of a PDU from message `j` on. */
  lemma PduTail(ms: seq<Message>, j: nat)
    requires AllWellFormed(ms) && j < |ms|
    ensures OnWireAll(true, ms[j..]) == OnWire(true, ms[j]) + OnWireAll(true, ms[j + 1..])
    ensures OnWireAll(false, ms[..j + 1]) == OnWireAll(false, ms[..j]) + OnWire(false, ms[j])
    ensures MarkEnds(OnWireAll(true, ms[j + 1..]))
  {
    assert ms[j..][1..] == ms[j + 1..];
    FlatMapSplit(Wire(false), ms, j);
    EndsInMark(ms[j + 1..]);
  }

  /** Deleting bytes 2 and 3 of `wire` in place leaves the end mark of the last message behind once more. */
  lemma StripStep(before: seq<byte>, wire: seq<byte>, rest: seq<byte>, after: seq<byte>)
    requires |wire| >= 8 && MarkEnds(wire) && MarkEnds(rest)
    ensures Deleted(before + (wire + rest) + after, |before| + 2, |before| + |wire| + |rest|)
            == (before + (wire[..2] + wire[4..])) + rest + ([0, 0] + after)
  {
  }

  lemma StripRegroup(head: seq<byte>, a: seq<byte>, x: seq<byte>, rest: seq<byte>, j: nat, tail: seq<byte>)
    ensures (head + a + x) + rest + ([0, 0] + (Zeros(2 * j) + tail))
            == (head + (a + x)) + rest + (Zeros(2 * (j + 1)) + tail)
  {
    Assoc(head, a, x);
    Assoc([0, 0], Zeros(2 * j), tail);
    assert [0, 0] + Zeros(2 * j) == Zeros(2 * (j + 1));
  }

  /** The first `j` messages of the PDU have been stripped; the deleted bytes collect, as zeros, at its end. */
  predicate HalfStripped(ms: seq<Message>, j: nat, head: seq<byte>, tail: seq<byte>, s: seq<byte>, msg: nat, end: nat) {
    && j <= |ms|
    && msg == |head| + |OnWireAll(false, ms[..j])|
    && end == msg + |OnWireAll(true, ms[j..])|
    && s == (head + OnWireAll(false, ms[..j])) + OnWireAll(true, ms[j..]) + (Zeros(2 * j) + tail)
  }

  /** The scan of the loop that strips, at message `j` of `n`: it stops only behind the last one. */
  predicate ScansOn(n: nat, j: nat, s: seq<byte>, msg: nat, end: nat) {
    if j < n then msg + 1 < end <= |s| && (s[msg] != 0 || s[msg + 1] != 0) else msg == end
  }

  lemma StripScan(ms: seq<Message>, j: nat, head: seq<byte>, tail: seq<byte>, s: seq<byte>, msg: nat, end: nat)
    requires AllWellFormed(ms) && HalfStripped(ms, j, head, tail, s, msg, end)
    ensures ScansOn(|ms|, j, s, msg, end)
  {
    if j < |ms| {
      PduTail(ms, j);
      MessageParts(ms[j]);
    }
  }

  lemma StripDone(ms: seq<Message>, head: seq<byte>, tail: seq<byte>, s: seq<byte>, msg: nat, end: nat)
    requires HalfStripped(ms, |ms|, head, tail, s, msg, end)
    ensures end == |head| + |OnWireAll(false, ms)|
    ensures s == head + OnWireAll(false, ms) + Zeros(2 * |ms|) + tail
  {
    assert ms[..|ms|] == ms;
    Assoc(head + OnWireAll(false, ms), Zeros(2 * |ms|), tail);
  }

  lemma StripStart(s: seq<byte>, end: nat, ms: seq<Message>)
    requires BODY <= end <= |s| && s[BODY..end] == OnWireAll(true, ms)
    ensures HalfStripped(ms, 0, s[..BODY], s[end..], s, BODY, end)
  {
    assert ms[0..] == ms;
  }

  /** Where the length field of a message stands, and its end mark. */
  lemma MessageParts(m: Message)
    requires WellFormed(m)
    ensures var s := OnWire(true, m);
            && |s| >= 8 && MarkEnds(s) && s[0] != 0
            && s[2] as int * 256 + s[3] as int + 4 == |s|
            && OnWire(false, m) == s[..2] + s[4..]
  {
    var three, four := Pack3(m.threes), Pack4(m.fours);
    var list := ListBytes(HighByte(m.leaveAll), |m.threes|, m.first, three, four);
    EncodedParts(m, three, four, list);
    ListEnds(list, HighByte(m.leaveAll), |m.threes|, m.first, three, four);
    HeaderParts([TypeCode(m.kind), |m.first|], |list|, list, OnWire(true, m));
  }

  lemma ListEnds(list: seq<byte>, high: byte, low: byte, first: seq<byte>, three: seq<byte>, four: seq<byte>)
    requires list == ListBytes(high, low, first, three, four)
    ensures |list| >= 4 && MarkEnds(list)
  {
  }

  lemma HeaderParts(two: seq<byte>, length: nat, list: seq<byte>, s: seq<byte>)
    requires |two| == 2 && two[0] != 0 && length < TWO_TO_16 && |list| >= 4 && MarkEnds(list)
    requires s == two + Be16(length) + list
    ensures |s| == 4 + |list| && MarkEnds(s) && s[0] != 0 && s[2] as int * 256 + s[3] as int == length
    ensures s[..2] + s[4..] == two + list
  {
    assert s[2] == Be16(length)[0] && s[3] == Be16(length)[1];
  }

  // ---------- frames ----------

  /** What the leave-all headers of both applications need at most. */
  const LEAVE_ALL_ROOM: nat := 103

  function LeaveAlls(app: Application): (ms: seq<Message>)
    ensures AllAudible(app, ms) && Longest(ms) == 0
  {
    if app.Srp? then
      [EmptyMessage(TalkerAdvertise, true), EmptyMessage(TalkerFailed, true),
       EmptyMessage(Listener, true), EmptyMessage(Domain, true)]
    else [EmptyMessage(VidVector, true)]
  }

  /** `frame` is what is transmitted for a PDU: nothing if it is empty, else its messages and zeros. */
  predicate FrameOf(app: Application, ms: seq<Message>, frame: seq<byte>) {
    if ms == [] then frame == []
    else
      var body := OnWireAll(HasLengths(app), ms);
      && |frame| >= 64 && |frame| >= BODY + |body| + 4
      && frame[BODY..] == body + Zeros(|frame| - BODY - |body|)
  }

  lemma FrameMade(app: Application, ms: seq<Message>, head: seq<byte>, frame: seq<byte>)
    requires ms != [] && |head| == BODY && |frame| >= 64
    requires var body := OnWireAll(HasLengths(app), ms);
             |frame| >= BODY + |body| + 4 && frame == head + body + Zeros(|frame| - BODY - |body|)
    ensures FrameOf(app, ms, frame) && frame[..BODY] == head
  {
    var body := OnWireAll(HasLengths(app), ms);
    Assoc(head, body, Zeros(|frame| - BODY - |body|));
  }

  /** What is left when a PDU has been stripped in place and the bytes behind it are cleared. */
  lemma FrameFrom(app: Application, ms: seq<Message>, head: seq<byte>, tail: seq<byte>, s: seq<byte>, ptr: nat,
                  frame: seq<byte>)
    requires ms != [] && |head| == BODY && |frame| >= 64 && ptr + 4 <= |frame| && ptr <= |s|
    requires var body := OnWireAll(HasLengths(app), ms);
             BODY + |body| <= ptr && s == head + body + Zeros(ptr - BODY - |body|) + tail
    requires frame[..ptr] == s[..ptr] && forall k :: ptr <= k < |frame| ==> frame[k] == 0
    ensures FrameOf(app, ms, frame) && frame[..BODY] == head
  {
    var body := OnWireAll(HasLengths(app), ms);
    var z := ptr - BODY - |body|;
    assert s[..ptr] == head + body + Zeros(z);
    assert frame == frame[..ptr] + Zeros(|frame| - ptr);
    assert Zeros(z) + Zeros(|frame| - ptr) == Zeros(|frame| - BODY - |body|);
    Assoc(head + body, Zeros(z), Zeros(|frame| - ptr));
    FrameMade(app, ms, head, frame);
  }

  /** Every declaration is of a type of the application. */
  predicate AllFor(ds: seq<Declaration>, app: Application) {
    forall i :: 0 <= i < |ds| ==> BelongsTo(KindOf(ds[i].attribute), app)
  }

  lemma DeclareStep(ms: seq<Message>, ds: seq<Declaration>, i: nat, app: Application)
    requires i < |ds| && AllFor(ds, app)
    ensures var next := Declare(ms, ds[i].attribute, ds[i].event);
            Longest(next) <= Longest(ms) + 1 && DeclareAll(next, ds[i + 1..]) == DeclareAll(ms, ds[i..])
    ensures BelongsTo(KindOf(ds[i].attribute), app)
  {
    assert ds[i..][1..] == ds[i + 1..];
    DeclareLengthens(ms, ds[i].attribute, ds[i].event);
  }
}
