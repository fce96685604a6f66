/**
 The send buffer in which MRP builds its PDUs in place, byte by byte
 (module_avb_srp/src/avb_mrp.c, module_avb_srp/src/avb_srp.c, module_avb_srp/src/avb_mvrp.c).
 */
module MrpTransmitter {
  import opened Bytes
  import opened Seqs
  import opened MrpEvents
  import opened MrpPdu
  import opened MrpDeclarations
  import opened MrpViews

  class PduBuilder {
    const buf: array<byte>
    var sendPtr: nat

    /** The buffer up to the end of the packet under construction. */
    ghost function Built(): (s: seq<byte>)
      requires sendPtr <= buf.Length
      reads this, buf
    {
      buf[..sendPtr]
    }

    /** `memmove(at + 1, at, send_ptr - at)`, then a zero byte at `at`. */
    method OpenByte(at: nat)
      requires at <= sendPtr < buf.Length
      modifies this`sendPtr, buf
      ensures sendPtr == old(sendPtr) + 1
      ensures Built() == old(Built())[..at] + [0] + old(Built())[at..]
    {
      var i := sendPtr;
      while i > at
        invariant at <= i <= sendPtr
        invariant sendPtr == old(sendPtr)
        invariant forall k :: 0 <= k < i ==> buf[k] == old(buf[k])
        invariant forall k :: i < k <= sendPtr ==> buf[k] == old(buf[k - 1])
      {
        buf[i] := buf[i - 1];
        i := i - 1;
      }
      buf[at] := 0;
      sendPtr := sendPtr + 1;
      OpenedAt(old(Built()), Built(), at);
    }

    /** `msg[0] != 0 || msg[1] != 0`. */
    predicate StartsMessage(msg: nat)
      requires msg + 1 < buf.Length
      reads buf
    {
      buf[msg] != 0 || buf[msg + 1] != 0
    }

    method StoreByte(at: nat, x: byte)
      requires at < sendPtr <= buf.Length
      modifies buf
      ensures Built() == old(Built())[at := x]
    {
      buf[at] := x;
    }

    /** `hton_16` into the AttributeListLength field of the message at `msg`. */
    method StoreLength(msg: nat, length: nat)
      requires msg + 4 <= sendPtr <= buf.Length && length < TWO_TO_16
      modifies buf
      ensures Built() == old(Built())[msg + 2 := Be16(length)[0]][msg + 3 := Be16(length)[1]]
    {
      buf[msg + 2], buf[msg + 3] := length / 256, length % 256;
    }

    /** `attribute_length_length`. */
    method LoadLength(msg: nat) returns (length: nat)
      requires msg + 4 <= sendPtr <= buf.Length
      ensures length == buf[msg + 2] as int * 256 + buf[msg + 3] as int
    {
      length := buf[msg + 2] as int * 256 + buf[msg + 3] as int;
    }

    /** Writes the end mark of a list where it already is. */
    method ClearTwo(at: nat, ghost s: seq<byte>)
      requires at + 2 <= sendPtr <= buf.Length && Built() == s && s[at] == 0 && s[at + 1] == 0
      modifies buf
      ensures Built() == s
    {
      buf[at], buf[at + 1] := 0, 0;
    }

    /** A byte is opened at `at` in the list of the message at `msg`, which was `length` long. */
    method GrowBytes(msg: nat, at: nat, ghost s: seq<byte>, ghost length: nat)
      requires sendPtr < buf.Length && Built() == s && length + 1 < TWO_TO_16
      requires msg + 6 <= at && at + 2 <= msg + 4 + length <= |s|
      requires s[msg + 2] as int * 256 + s[msg + 3] as int == length
      requires s[msg + 2 + length] == 0 && s[msg + 3 + length] == 0
      modifies this`sendPtr, buf
      ensures sendPtr == old(sendPtr) + 1 && Built() == Grown(s, msg, at, length + 1)
    {
      assert buf[msg + 2] == s[msg + 2] && buf[msg + 3] == s[msg + 3];
      var attrListLength := LoadLength(msg);
      OpenByte(at);
      attrListLength := attrListLength + 1;
      StoreLength(msg, attrListLength);
      ghost var grown := Grown(s, msg, at, length + 1);
      assert Built() == grown;
      var endmark := msg + 4 + attrListLength - 2;
      EndMarkKept(s, msg, at, attrListLength);
      ClearTwo(endmark, grown);
    }

    /** Makes room for one more vector byte at `at` and records the longer attribute list. */
    method GrowList(msg: nat, at: nat, ghost v: View)
      requires sendPtr < buf.Length && v.Fits() && Built() == v.Bytes() && msg == |v.pre|
      requires msg + 6 <= at && at + 2 <= msg + 4 + v.ListLength()
      modifies this`sendPtr, buf
      ensures sendPtr == old(sendPtr) + 1
      ensures at <= |v.Bytes()| && Built() == Grown(v.Bytes(), msg, at, v.ListLength() + 1)
    {
      HeaderAt(v);
      GrowBytes(msg, at, v.Bytes(), v.ListLength());
    }

    /** The same, if a byte is to be opened at all; `t` is what the buffer becomes. */
    method OpenIf(opens: bool, msg: nat, at: nat, ghost v: View, ghost t: seq<byte>)
      requires sendPtr < buf.Length && v.Fits() && Built() == v.Bytes() && msg == |v.pre|
      requires opens ==> msg + 6 <= at && at + 2 <= msg + 4 + v.ListLength() && at <= |v.Bytes()|
      requires t == if opens then Grown(v.Bytes(), msg, at, v.ListLength() + 1) else v.Bytes()
      modifies this`sendPtr, buf
      ensures sendPtr <= old(sendPtr) + 1 && sendPtr <= buf.Length && Built() == t
    {
      if opens {
        GrowList(msg, at, v);
      }
    }

    /** Opens a three-packed byte if value `v.low` is the first of three. */
    method ShiftThree(msg: nat, vector: nat, ghost v: View) returns (ghost w: View)
      requires sendPtr < buf.Length
      requires v.Fits() && Built() == v.Bytes() && msg == |v.pre| && |v.three| == (v.low + 2) / 3
      requires vector == msg + 6 + |v.first| + v.low / 3
      modifies this`sendPtr, buf
      ensures sendPtr <= old(sendPtr) + 1 && sendPtr <= buf.Length
      ensures w == v.(three := Open3(v.three, v.low)) && v.low / 3 < |w.three|
      ensures |w.first| < 256 && |w.three| < 256 && |w.four| < 256
      ensures Built() == w.Bytes()
    {
      HeaderAt(v);
      var numValues: nat := buf[msg + 5];
      w := OpenedThree(v, msg, vector, numValues % 3 == 0);
      OpenIf(numValues % 3 == 0, msg, vector, v, w.Bytes());
    }

    method ShiftFour(msg: nat, vector: nat, ghost v: View) returns (ghost w: View)
      requires sendPtr < buf.Length
      requires v.Fits() && Built() == v.Bytes() && msg == |v.pre| && |v.four| == (v.low + 3) / 4
      requires vector == msg + 6 + |v.first| + |v.three| + v.low / 4
      modifies this`sendPtr, buf
      ensures sendPtr <= old(sendPtr) + 1 && sendPtr <= buf.Length
      ensures w == v.(four := Open4(v.four, v.low)) && v.low / 4 < |w.four|
      ensures |w.first| < 256 && |w.three| < 256 && |w.four| < 256
      ensures Built() == w.Bytes()
    {
      HeaderAt(v);
      var numValues: nat := buf[msg + 5];
      w := OpenedFour(v, msg, vector, numValues % 4 == 0);
      OpenIf(numValues % 4 == 0, msg, vector, v, w.Bytes());
    }

    /** Adds the event of value `n` into its byte. */
    method PackThree(vector: nat, n: nat, event: ThreeEvent, ghost w: View)
      requires |w.first| < 256 && |w.three| < 256 && |w.four| < 256
      requires sendPtr <= buf.Length && Built() == w.Bytes()
      requires n / 3 < |w.three| && vector == |w.pre| + 6 + |w.first| + n / 3
      modifies buf
      ensures Built() == w.(three := Added3(w.three, n, event)).Bytes()
    {
      PackedThree(w, n, event);
      assert buf[vector] == Built()[vector];
      var packed := EncodeThreePacked(event, n % 3, buf[vector]);
      StoreByte(vector, packed % 256);
    }

    /** `mrp_encode_three_packed_event`. */
    method EncodeThreePackedEvent(msg: nat, event: ThreeEvent, attr: AttributeType, ghost v: View)
      returns (ghost w: View)
      requires sendPtr < buf.Length
      requires v.Fits() && Built() == v.Bytes() && msg == |v.pre|
      requires |v.first| == FirstValueLength(attr) && |v.three| == (v.low + 2) / 3
      modifies this`sendPtr, buf
      ensures sendPtr <= old(sendPtr) + 1 && sendPtr <= buf.Length
      ensures w == v.(three := Append3(v.three, v.low, event)) && |w.first| < 256 && |w.three| < 256 && |w.four| < 256
      ensures Built() == w.Bytes()
    {
      HeaderAt(v);
      var numValues: nat := buf[msg + 5];
      var vector := msg + 6 + FirstValueLength(attr) + numValues / 3;
      ghost var room := ShiftThree(msg, vector, v);
      PackThree(vector, numValues, event, room);
      AppendedThree(v, room, event);
      w := room.(three := Added3(room.three, v.low, event));
    }

    /** Adds the event of value `n` into its byte. */
    method PackFour(vector: nat, n: nat, event: FourEvent, ghost w: View)
      requires |w.first| < 256 && |w.three| < 256 && |w.four| < 256
      requires sendPtr <= buf.Length && Built() == w.Bytes()
      requires n / 4 < |w.four| && vector == |w.pre| + 6 + |w.first| + |w.three| + n / 4
      modifies buf
      ensures Built() == w.(four := Added4(w.four, n, event)).Bytes()
    {
      PackedFour(w, n, event);
      assert buf[vector] == Built()[vector];
      var packed := EncodeFourPacked(event, n % 4, buf[vector]);
      StoreByte(vector, packed % 256);
    }

    /** `mrp_encode_four_packed_event`; the three-packed event of the same value is already in place. */
    method EncodeFourPackedEvent(msg: nat, event: FourEvent, attr: AttributeType, ghost v: View)
      returns (ghost w: View)
      requires sendPtr < buf.Length
      requires v.Fits() && Built() == v.Bytes() && msg == |v.pre|
      requires |v.first| == FirstValueLength(attr)
      requires |v.three| == (v.low + 3) / 3 && |v.four| == (v.low + 3) / 4
      modifies this`sendPtr, buf
      ensures sendPtr <= old(sendPtr) + 1 && sendPtr <= buf.Length
      ensures w == v.(four := Append4(v.four, v.low, event)) && |w.first| < 256 && |w.three| < 256 && |w.four| < 256
      ensures Built() == w.Bytes()
    {
      HeaderAt(v);
      var numValues: nat := buf[msg + 5];
      var threePackedLen := (numValues + 3) / 3;
      assert threePackedLen == |v.three|;
      var vector := msg + 6 + FirstValueLength(attr) + threePackedLen + numValues / 4;
      ghost var room := ShiftFour(msg, vector, v);
      PackFour(vector, numValues, event, room);
      AppendedFour(v, room, event);
      w := room.(four := Added4(room.four, v.low, event));
    }

    // ---------- merging a declaration into a message ----------

    /** `memcpy` of a field. */
    method StoreBytes(at: nat, bytes: seq<byte>)
      requires at + |bytes| <= sendPtr <= buf.Length
      modifies buf
      ensures Built() == old(Built())[..at] + bytes + old(Built())[at + |bytes|..]
    {
      var i := 0;
      assert Built() == Stored(old(Built()), at, bytes, 0);
      while i < |bytes|
        invariant 0 <= i <= |bytes| && sendPtr == old(sendPtr)
        invariant Built() == Stored(old(Built()), at, bytes, i)
      {
        StoredNext(old(Built()), at, bytes, i);
        StoreByte(at + i, bytes[i]);
        i := i + 1;
      }
      assert bytes[..i] == bytes;
    }

    /** The big-endian field of `n` bytes at `at`. */
    method LoadField(at: nat, n: nat) returns (x: nat)
      requires at + n <= sendPtr <= buf.Length
      ensures x == BeNat(buf[at..at + n])
    {
      x := 0;
      var i := 0;
      while i < n
        invariant 0 <= i <= n
        invariant x == BeNat(buf[at..at + i])
      {
        assert buf[at..at + i + 1][..i] == buf[at..at + i];
        x := x * 256 + buf[at + i];
        i := i + 1;
      }
    }

    /** Writes the first value of a vector that is still empty. */
    method StoreFirstValue(msg: nat, a: Attribute, ghost v: View) returns (ghost w: View)
      requires sendPtr <= buf.Length && v.Fits() && Built() == v.Bytes() && msg == |v.pre|
      requires |v.first| == FirstValueLength(KindOf(a))
      modifies buf
      ensures w == v.WithFirst(a) && |w.first| < 256 && |w.three| < 256 && |w.four| < 256 && Built() == w.Bytes()
    {
      HeaderAt(v);
      var first, empty := FirstValue(a), buf[msg + 5] == 0;
      w := FirstStored(v, a, first, msg + 6, empty);
      StoreIf(empty, msg + 6, first, v.Bytes(), w.Bytes());
    }

    method StoreIf(stores: bool, at: nat, bytes: seq<byte>, ghost s: seq<byte>, ghost t: seq<byte>)
      requires sendPtr <= buf.Length && Built() == s && at + |bytes| <= |s|
      requires t == if stores then s[..at] + bytes + s[at + |bytes|..] else s
      modifies buf
      ensures Built() == t
    {
      if stores {
        StoreBytes(at, bytes);
      }
    }

    /** The part `lo..hi` of the first value at `at`. */
    method LoadPart(at: nat, ghost first: seq<byte>, lo: nat, hi: nat) returns (x: nat)
      requires at + |first| <= sendPtr <= buf.Length && buf[at..at + |first|] == first
      requires lo <= hi <= |first|
      ensures x == BeNat(first[lo..hi])
    {
      ghost var part := buf[at + lo..at + hi];
      forall i | 0 <= i < |part|
        ensures part[i] == first[lo..hi][i]
      {
        assert buf[at..at + |first|][lo + i] == first[lo + i];
      }
      assert buf[at + lo..at + hi] == first[lo..hi];
      x := LoadField(at + lo, hi - lo);
    }

    method CheckTalkerMerge(first: nat, n: nat, a: Attribute, ghost value: seq<byte>) returns (ok: bool)
      requires a.TalkerAttribute? && |value| == 25
      requires first + 25 <= sendPtr <= buf.Length && buf[first..first + |value|] == value
      ensures ok == Continues(value, n, a)
    {
      var dest := LoadPart(first, value, 8, 14);
      if dest + n != a.dest {
        return false;
      }
      var id := LoadPart(first, value, 0, 8);
      if (id + n) % TWO_TO_64 != a.streamId {
        return false;
      }
      var vlan := LoadPart(first, value, 14, 16);
      if Signed16(vlan % TWO_TO_16) != a.vlan {
        return false;
      }
      var frameSize := LoadPart(first, value, 16, 18);
      ok := Signed16(frameSize % TWO_TO_16) == a.frameSize;
    }

    method CheckListenerMerge(first: nat, n: nat, a: Attribute, ghost value: seq<byte>) returns (ok: bool)
      requires a.ListenerAttribute? && |value| == 8
      requires first + 8 <= sendPtr <= buf.Length && buf[first..first + |value|] == value
      ensures ok == Continues(value, n, a)
    {
      var id := LoadPart(first, value, 0, 8);
      ok := (id + n) % TWO_TO_64 == a.streamId;
    }

    /** Domains (`check_domain_merge`) and VLAN identifiers never share a vector. */
    method CheckMerge(msg: nat, n: nat, a: Attribute, ghost v: View) returns (ok: bool)
      requires sendPtr <= buf.Length && v.Fits() && Built() == v.Bytes() && msg == |v.pre|
      requires |v.first| == FirstValueLength(KindOf(a))
      ensures ok == Continues(v.first, n, a)
    {
      HeaderAt(v);
      FirstAt(v);
      assert buf[msg + 6..msg + 6 + |v.first|] == v.first;
      match a {
        case TalkerAttribute(_, _, _, _) => ok := CheckTalkerMerge(msg + 6, n, a, v.first);
        case ListenerAttribute(_) => ok := CheckListenerMerge(msg + 6, n, a, v.first);
        case DomainAttribute => ok := false;
        case VidAttribute(_) => ok := false;
      }
    }

    /** The three-packed event and, for listeners, the parameter of value `v.low`. */
    method StoreEvents(msg: nat, a: Attribute, event: ThreeEvent, ghost v: View) returns (ghost w: View)
      requires sendPtr + Growth(a) <= buf.Length && v.Fits() && Built() == v.Bytes() && msg == |v.pre|
      requires v.Takes(a) && |v.first| == FirstValueLength(KindOf(a))
      modifies this`sendPtr, buf
      ensures sendPtr <= old(sendPtr) + Growth(a) && sendPtr <= buf.Length
      ensures w == v.WithEvents(a, event) && |w.first| < 256 && |w.three| < 256 && |w.four| < 256
      ensures Built() == w.Bytes()
    {
      w := EncodeThreePackedEvent(msg, event, KindOf(a), v);
      if a.ListenerAttribute? {
        w := EncodeFourPackedEvent(msg, READY, KindOf(a), w);
      }
    }

    /** `NumberOfValuesLow = num_values + 1`. */
    method RaiseCount(msg: nat, ghost v: View)
      requires |v.first| < 256 && |v.three| < 256 && |v.four| < 256
      requires sendPtr <= buf.Length && Built() == v.Bytes() && msg == |v.pre| && v.low < 255
      modifies buf
      ensures Built() == v.(low := v.low + 1).Bytes()
    {
      HeaderAt(v);
      StoreByte(msg + 5, buf[msg + 5] + 1);
      OverwriteCount(v, v.low + 1);
    }

    /** Adds a value to a message that takes it: first value, packed events, then the count. */
    method AddValueInPlace(msg: nat, a: Attribute, event: ThreeEvent, ghost v: View)
      requires sendPtr + Growth(a) <= buf.Length && v.Fits() && Built() == v.Bytes() && msg == |v.pre|
      requires v.Takes(a) && |v.first| == FirstValueLength(KindOf(a)) && v.low < 255
      modifies this`sendPtr, buf
      ensures sendPtr <= old(sendPtr) + Growth(a) && sendPtr <= buf.Length
      ensures Built() == v.Added(a, event).Bytes()
    {
      ghost var w, x := AddedSteps(v, a, event);
      w := StoreFirstValue(msg, a, v);
      x := StoreEvents(msg, a, event, w);
      RaiseCount(msg, x);
    }

    /** `merge_msg`: adds the declaration to the message at `msg` if it is of its type and takes it. */
    method MergeMessage(msg: nat, app: Application, a: Attribute, event: ThreeEvent,
                        ghost pre: seq<byte>, ghost m: Message, ghost post: seq<byte>)
      returns (merged: bool)
      requires sendPtr + Growth(a) <= buf.Length
      requires WellFormed(m) && |m.threes| < 255 && BelongsTo(m.kind, app) && BelongsTo(KindOf(a), app)
      requires Built() == ViewOf(pre, m, post).Bytes() && msg == |pre|
      modifies this`sendPtr, buf
      ensures sendPtr <= old(sendPtr) + Growth(a) && sendPtr <= buf.Length
      ensures merged == Mergeable(m, a)
      ensures merged ==> WellFormed(AddValue(m, a, event))
                         && Built() == ViewOf(pre, AddValue(m, a, event), post).Bytes()
      ensures !merged ==> Built() == old(Built()) && sendPtr == old(sendPtr)
    {
      ghost var v := ViewOf(pre, m, post);
      HeaderAt(v);
      if buf[msg] != TypeCode(KindOf(a)) {
        return false;
      }
      var numValues := buf[msg + 5];
      merged := true;
      if numValues != 0 {
        merged := CheckMerge(msg, numValues, a, v);
      }
      if merged {
        AddedView(pre, m, post, a, event);
        AddValueInPlace(msg, a, event, v);
      }
    }

    // ---------- whole PDUs ----------

    /** The application whose PDU is under construction (`current_etype`). */
    var app: Application

    /** The messages the buffer holds. */
    ghost var ms: seq<Message>

    ghost predicate Valid()
      reads this, buf
    {
      && BODY <= sendPtr <= buf.Length
      && AllWellFormed(ms) && AllBelong(ms, app)
      && buf[BODY..sendPtr] == OnWireAll(true, ms)
    }

    method ClearBytes(at: nat, n: nat)
      requires at + n <= buf.Length
      modifies buf
      ensures buf[..at] == old(buf[..at])
      ensures forall k :: at <= k < at + n ==> buf[k] == 0
    {
      var i := 0;
      while i < n
        invariant 0 <= i <= n
        invariant buf[..at] == old(buf[..at])
        invariant forall k :: at <= k < at + i ==> buf[k] == 0
      {
        buf[at + i] := 0;
        i := i + 1;
      }
    }

    method StoreHeader(at: nat, kind: AttributeType, listLength: nat, leaveAll: bool)
      requires at + 6 <= buf.Length && listLength < TWO_TO_16
      modifies buf
      ensures buf[..at] == old(buf[..at])
      ensures buf[at..at + 6] == Header(kind, FirstValueLength(kind), listLength) + [HighByte(leaveAll), 0]
      ensures forall k :: at + 6 <= k < buf.Length ==> buf[k] == old(buf[k])
    {
      buf[at] := TypeCode(kind);
      buf[at + 1] := FirstValueLength(kind);
      buf[at + 2], buf[at + 3] := listLength / 256, listLength % 256;
      buf[at + 4] := if leaveAll then 0x20 else 0;
      buf[at + 5] := 0;
    }

    /** Writes an empty message behind the packet built so far. */
    method WriteEmptyMsg(kind: AttributeType, leaveAll: bool)
      requires sendPtr + 8 + FirstValueLength(kind) <= buf.Length
      modifies buf
      ensures buf[..sendPtr] == old(buf[..sendPtr])
      ensures buf[sendPtr..sendPtr + 8 + FirstValueLength(kind)] == OnWire(true, EmptyMessage(kind, leaveAll))
    {
      var listLength: nat := FirstValueLength(kind) + 4;
      ClearBytes(sendPtr, 4 + listLength);
      StoreHeader(sendPtr, kind, listLength, leaveAll);
      ghost var s := buf[sendPtr..sendPtr + 4 + listLength];
      assert s[..6] == buf[sendPtr..sendPtr + 6];
      EmptyLayout(kind, leaveAll, s);
    }

    /** `create_empty_msg`. */
    method CreateEmptyMsg(kind: AttributeType, leaveAll: bool)
      requires Valid() && BelongsTo(kind, app)
      requires sendPtr + 8 + FirstValueLength(kind) <= buf.Length
      modifies this`sendPtr, this`ms, buf
      ensures Valid() && ms == old(ms) + [EmptyMessage(kind, leaveAll)]
      ensures sendPtr == old(sendPtr) + 8 + FirstValueLength(kind)
    {
      WriteEmptyMsg(kind, leaveAll);
      ghost var start := sendPtr;
      sendPtr := sendPtr + 8 + FirstValueLength(kind);
      MessageAppended(ms, EmptyMessage(kind, leaveAll), app);
      ms := ms + [EmptyMessage(kind, leaveAll)];
      Adjoining(buf[..], BODY, start, sendPtr);
    }

    /** The buffer seen as message `j` of the PDU, which starts at `msg`. */
    ghost method SeeMessage(msg: nat, j: nat) returns (v: View)
      requires Valid() && j < |ms| && msg == BODY + |OnWireAll(true, ms[..j])|
      ensures msg <= sendPtr && v == ViewOf(buf[..msg], ms[j], OnWireAll(true, ms[j + 1..])) && Built() == v.Bytes()
      ensures v.pre[BODY..] == OnWireAll(true, ms[..j])
    {
      v := PduView(ms, j, Built());
      assert buf[..msg] == Built()[..msg];
    }

    /** Merges the declaration into message `j`, which starts at `msg`, if that takes it. */
    method MergeAt(msg: nat, ghost j: nat, a: Attribute, event: ThreeEvent) returns (merged: bool)
      requires Valid() && BelongsTo(KindOf(a), app) && sendPtr + Growth(a) <= buf.Length
      requires j < |ms| && |ms[j].threes| < 255 && msg == BODY + |OnWireAll(true, ms[..j])|
      modifies this`sendPtr, this`ms, buf
      ensures Valid() && sendPtr <= old(sendPtr) + Growth(a)
      ensures merged == Mergeable(old(ms)[j], a)
      ensures merged ==> ms == old(ms)[..j] + [AddValue(old(ms)[j], a, event)] + old(ms)[j + 1..]
      ensures !merged ==> ms == old(ms) && sendPtr == old(sendPtr)
    {
      ghost var v := SeeMessage(msg, j);
      ghost var m := ms[j];
      merged := MergeMessage(msg, app, a, event, v.pre, m, v.post);
      if merged {
        NewMessages(j, AddValue(m, a, event), v.pre);
      }
    }

    /** Records that message `j` was replaced in place. */
    ghost method NewMessages(j: nat, m: Message, pre: seq<byte>)
      requires BODY <= sendPtr <= buf.Length && AllWellFormed(ms) && AllBelong(ms, app)
      requires j < |ms| && WellFormed(m) && m.kind == ms[j].kind
      requires |pre| >= BODY && pre[BODY..] == OnWireAll(true, ms[..j])
      requires Built() == ViewOf(pre, m, OnWireAll(true, ms[j + 1..])).Bytes()
      modifies this`ms
      ensures Valid() && ms == old(ms)[..j] + [m] + old(ms)[j + 1..]
    {
      PduMerged(ms, j, m, pre, Built());
      assert buf[BODY..sendPtr] == Built()[BODY..];
      ms := ms[..j] + [m] + ms[j + 1..];
    }

    /** The position behind message `j`, which starts at `msg`. */
    method NextMessage(msg: nat, ghost j: nat) returns (next: nat)
      requires Valid() && j < |ms| && msg == BODY + |OnWireAll(true, ms[..j])|
      ensures next == BODY + |OnWireAll(true, ms[..j + 1])| && next <= sendPtr
    {
      MessageEnd(ms, j, Built(), msg);
      var length := LoadLength(msg);
      next := msg + 4 + length;
    }

    /** The scan of the PDU is at message `j` or, behind the last one, at the end. */
    ghost predicate ScansFrom(msg: nat, j: nat)
      requires j <= |ms|
      reads this, buf
    {
      && msg == BODY + |OnWireAll(true, ms[..j])|
      && if j < |ms| then msg + 1 < sendPtr <= buf.Length && StartsMessage(msg) else msg == sendPtr
    }

    /** The scan of a PDU stops before its end only at a message. */
    ghost method AtMessage(msg: nat, j: nat)
      requires Valid() && j <= |ms| && msg == BODY + |OnWireAll(true, ms[..j])|
      ensures ScansFrom(msg, j)
    {
      if j < |ms| {
        PduHere(ms, j, Built());
      } else {
        assert ms[..j] == ms;
      }
    }

    /** The body of the loop of `doTx`: message `j`, which starts at `msg`, takes the declaration or is passed. */
    method TryMessage(msg: nat, ghost j: nat, a: Attribute, event: ThreeEvent) returns (merged: bool, next: nat)
      requires Valid() && BelongsTo(KindOf(a), app) && sendPtr + Growth(a) <= buf.Length
      requires j < |ms| && Longest(ms) < 255 && ScansFrom(msg, j) && NoneTakes(ms, j, a)
      modifies this`sendPtr, this`ms, buf
      ensures Valid() && sendPtr <= old(sendPtr) + Growth(a)
      ensures merged ==> ms == Declare(old(ms), a, event)
      ensures !merged ==> ms == old(ms) && sendPtr == old(sendPtr)
      ensures !merged ==> ScansFrom(next, j + 1) && NoneTakes(ms, j + 1, a)
    {
      LongestBounds(ms, j);
      ghost var ms0 := ms;
      next := msg;
      merged := MergeAt(msg, j, a, event);
      if merged {
        DeclareAt(ms0, j, a, event);
      } else {
        next := NextMessage(msg, j);
        AtMessage(next, j + 1);
      }
    }

    /** The loop of `doTx`: merges the declaration into the first message that takes it, if any does. */
    method MergeIntoFirst(a: Attribute, event: ThreeEvent) returns (merged: bool)
      requires Valid() && BelongsTo(KindOf(a), app) && Longest(ms) < 255
      requires sendPtr + Growth(a) <= buf.Length
      modifies this`sendPtr, this`ms, buf
      ensures Valid() && sendPtr <= old(sendPtr) + Growth(a)
      ensures merged ==> ms == Declare(old(ms), a, event)
      ensures !merged ==> ms == old(ms) && sendPtr == old(sendPtr)
      ensures !merged ==> NoneTakes(ms, |ms|, a)
    {
      merged := false;
      var msg: nat := BODY;
      ghost var j: nat := 0;
      ghost var ms0 := ms;
      AtMessage(msg, j);
      while !merged && msg < sendPtr && StartsMessage(msg)
        invariant Valid() && sendPtr <= old(sendPtr) + Growth(a)
        invariant !merged ==> sendPtr == old(sendPtr) && ms == ms0 && j <= |ms|
        invariant !merged ==> ScansFrom(msg, j) && NoneTakes(ms, j, a)
        invariant merged ==> ms == Declare(ms0, a, event)
        decreases !merged, |ms0| - j
      {
        merged, msg := TryMessage(msg, j, a, event);
        j := j + 1;
      }
    }

    /** `doTx` up to the decision to send: a declaration that no message takes gets one of its own. */
    method DoTx(a: Attribute, event: ThreeEvent)
      requires Valid() && BelongsTo(KindOf(a), app) && Longest(ms) < 255
      requires sendPtr + ROOM <= buf.Length
      modifies this`sendPtr, this`ms, buf
      ensures Valid() && ms == Declare(old(ms), a, event)
      ensures sendPtr <= old(sendPtr) + ROOM
    {
      ghost var ms0 := ms;
      var merged := MergeIntoFirst(a, event);
      if !merged {
        DeclareNew(ms0, a, event);
        var msg := sendPtr;
        CreateEmptyMsg(KindOf(a), false);
        assert ms[..|ms0|] == ms0;
        ReplaceAt(ms, |ms0|, AddValue(ms[|ms0|], a, event));
        merged := MergeAt(msg, |ms0|, a, event);
      }
    }

    // ---------- sending ----------

    /** `*c = *(c + 2)` from `at` up to the end: two bytes are deleted, the last two stay behind. */
    method DeleteTwo(at: nat, end: nat)
      requires at + 2 <= end <= buf.Length
      modifies buf
      ensures buf[..] == Deleted(old(buf[..]), at, end)
    {
      var c := at;
      while c < end - 2
        invariant at <= c <= end - 2
        invariant forall k :: 0 <= k < at || c <= k < buf.Length ==> buf[k] == old(buf[k])
        invariant forall k :: at <= k < c ==> buf[k] == old(buf[k + 2])
      {
        buf[c] := buf[c + 2];
        c := c + 1;
      }
      ghost var target := Deleted(old(buf[..]), at, end);
      forall k | 0 <= k < buf.Length
        ensures buf[k] == target[k]
      {
        assert at <= k < end - 2 ==> target[k] == old(buf[k + 2]);
      }
      assert buf[..] == target;
    }

    /** The body of the loop that strips: deletes the length field of the message at `msg`. */
    method StripOne(msg: nat, end: nat, ghost before: seq<byte>, ghost m: Message, ghost rest: seq<byte>,
                    ghost after: seq<byte>)
      returns (next: nat)
      requires WellFormed(m) && MarkEnds(rest)
      requires buf[..] == before + (OnWire(true, m) + rest) + after
      requires msg == |before| && end == |before| + |OnWire(true, m)| + |rest|
      modifies buf
      ensures buf[..] == (before + OnWire(false, m)) + rest + ([0, 0] + after)
      ensures next == |before| + |OnWire(false, m)|
    {
      ghost var wire := OnWire(true, m);
      MessageParts(m);
      assert buf[..][msg + 2] == wire[2] && buf[..][msg + 3] == wire[3];
      next := msg + 4 + (buf[msg + 2] as int * 256 + buf[msg + 3] as int) - 2;
      DeleteTwo(msg + 2, end);
      StripStep(before, wire, rest, after);
    }

    method StripNext(msg: nat, end: nat, ghost j: nat, ghost head: seq<byte>, ghost tail: seq<byte>) returns (next: nat)
      requires AllWellFormed(ms) && j < |ms| && HalfStripped(ms, j, head, tail, buf[..], msg, end)
      modifies buf
      ensures end >= 2 && HalfStripped(ms, j + 1, head, tail, buf[..], next, end - 2)
    {
      PduTail(ms, j);
      ghost var a, x, rest := OnWireAll(false, ms[..j]), OnWire(false, ms[j]), OnWireAll(true, ms[j + 1..]);
      MessageParts(ms[j]);
      next := StripOne(msg, end, head + a, ms[j], rest, Zeros(2 * j) + tail);
      StripRegroup(head, a, x, rest, j, tail);
    }

    /** The loop of `strip_attribute_list_length_fields`. */
    method StripAll(ghost head: seq<byte>, ghost tail: seq<byte>) returns (end: nat, ghost last: nat)
      requires Valid() && HalfStripped(ms, 0, head, tail, buf[..], BODY, sendPtr)
      modifies buf
      ensures end == old(sendPtr) - 2 * |ms|
      ensures HalfStripped(ms, |ms|, head, tail, buf[..], last, end)
    {
      var msg: nat := BODY;
      end := sendPtr;
      ghost var j := 0;
      StripScan(ms, j, head, tail, buf[..], msg, end);
      while msg < end && StartsMessage(msg)
        invariant j <= |ms| && sendPtr == end + 2 * j
        invariant HalfStripped(ms, j, head, tail, buf[..], msg, end)
        invariant ScansOn(|ms|, j, buf[..], msg, end)
        decreases |ms| - j
      {
        msg, end := StripAt(msg, end, j, head, tail);
        j := j + 1;
      }
      last := msg;
    }

    /** The body of the loop, and the look at the next message. */
    method StripAt(msg: nat, end: nat, ghost j: nat, ghost head: seq<byte>, ghost tail: seq<byte>)
      returns (next: nat, less: nat)
      requires AllWellFormed(ms) && j < |ms| && HalfStripped(ms, j, head, tail, buf[..], msg, end)
      modifies buf
      ensures end == less + 2 && HalfStripped(ms, j + 1, head, tail, buf[..], next, less)
      ensures ScansOn(|ms|, j + 1, buf[..], next, less)
    {
      next := StripNext(msg, end, j, head, tail);
      less := end - 2;
      StripScan(ms, j + 1, head, tail, buf[..], next, less);
    }

    method RemoveLengths()
      requires Valid()
      modifies this`sendPtr, buf
      ensures sendPtr == old(sendPtr) - 2 * |ms| && sendPtr == BODY + |OnWireAll(false, ms)|
      ensures buf[..] == old(buf[..BODY]) + OnWireAll(false, ms) + Zeros(2 * |ms|) + old(buf[sendPtr..])
    {
      ghost var head, tail := buf[..BODY], buf[sendPtr..];
      StripStart(buf[..], sendPtr, ms);
      var end, last := StripAll(head, tail);
      StripDone(ms, head, tail, buf[..], last, end);
      sendPtr := end;
    }

    /** `strip_attribute_list_length_fields`: only SRP packets keep their length fields. */
    method StripLengths()
      requires Valid()
      modifies this`sendPtr, buf
      ensures sendPtr == old(sendPtr) - if app.Srp? then 0 else 2 * |ms|
      ensures BODY + |OnWireAll(HasLengths(app), ms)| == sendPtr
      ensures buf[..] == old(buf[..BODY]) + OnWireAll(HasLengths(app), ms)
                         + Zeros(old(sendPtr) - sendPtr) + old(buf[sendPtr..])
    {
      if app.Mvrp? {
        RemoveLengths();
      } else {
        assert buf[..] == buf[..BODY] + buf[BODY..sendPtr] + Zeros(0) + buf[sendPtr..];
      }
    }

    /**
     `force_send`: what is transmitted (nothing for an empty PDU). The frame is as long as the
     packet was before stripping, plus four, and padded with zeros to at least 64 bytes.
     */
    method ForceSend() returns (frame: seq<byte>)
      requires Valid() && sendPtr + 4 <= buf.Length && 64 <= buf.Length
      modifies this`sendPtr, this`ms, buf
      ensures Valid() && ms == [] && sendPtr == BODY
      ensures FrameOf(app, old(ms), frame)
      ensures old(ms) != [] ==> frame[..BODY] == old(buf[..BODY])
      ensures old(ms) != [] ==> |frame| == if old(sendPtr) + 4 < 64 then 64 else old(sendPtr) + 4
    {
      var ptr := sendPtr;
      ghost var head, tail := buf[..BODY], buf[sendPtr..];
      StripLengths();
      ghost var stripped := buf[..];
      frame := [];
      if ptr != BODY {
        var end := ptr + 4;
        if end < 64 {
          end := 64;
        }
        ClearBytes(ptr, end - ptr);
        frame := buf[..end];
        FrameFrom(app, ms, head, tail, stripped, ptr, frame);
      }
      sendPtr := BODY;
      ms := [];
    }

    /** Opens a PDU with the leave-all messages of its application. */
    method CreateLeaveAlls()
      requires Valid() && ms == [] && sendPtr == BODY
      requires BODY + LEAVE_ALL_ROOM <= buf.Length
      modifies this`sendPtr, this`ms, buf
      ensures Valid() && ms == LeaveAlls(app) && sendPtr <= BODY + LEAVE_ALL_ROOM
    {
      if app.Srp? {
        CreateEmptyMsg(TalkerAdvertise, true);
        CreateEmptyMsg(TalkerFailed, true);
        CreateEmptyMsg(Listener, true);
        CreateEmptyMsg(Domain, true);
      } else {
        CreateEmptyMsg(VidVector, true);
      }
    }

    /** Every attribute that has an event to send declares it. */
    method DeclareEach(ds: seq<Declaration>)
      requires Valid() && Longest(ms) == 0 && AllFor(ds, app)
      requires |ds| < 256 && sendPtr + ROOM * |ds| <= buf.Length
      modifies this`sendPtr, this`ms, buf
      ensures Valid() && ms == DeclareAll(old(ms), ds) && sendPtr <= old(sendPtr) + ROOM * |ds|
    {
      ghost var start := ms;
      var i := 0;
      assert ds[0..] == ds;
      while i < |ds|
        invariant 0 <= i <= |ds| && Valid()
        invariant sendPtr <= old(sendPtr) + ROOM * i
        invariant Longest(ms) <= i
        invariant DeclareAll(ms, ds[i..]) == DeclareAll(start, ds)
      {
        DeclareStep(ms, ds, i, app);
        DoTx(ds[i].attribute, ds[i].event);
        i := i + 1;
      }
    }

    /**
     One transmit opportunity of `mrp_periodic` for one application: leave-all headers if the
     leave-all timer ran out, then every attribute that has an event to send, then the frame.
     */
    method TransmitOpportunity(application: Application, leaveAll: bool, ds: seq<Declaration>)
      returns (frame: seq<byte>)
      requires Valid() && ms == [] && sendPtr == BODY
      requires AllFor(ds, application)
      requires |ds| < 256 && BODY + LEAVE_ALL_ROOM + ROOM * |ds| + 4 <= buf.Length
      modifies this`sendPtr, this`ms, this`app, buf
      ensures Valid() && ms == [] && sendPtr == BODY
      ensures FrameOf(application, DeclareAll(if leaveAll then LeaveAlls(application) else [], ds), frame)
    {
      app := application;
      if leaveAll {
        CreateLeaveAlls();
      }
      DeclareEach(ds);
      frame := ForceSend();
    }
  }
}
