/**
 The packed event vectors of MRP: three attribute events or four Listener parameters to a byte
 (module_avb_srp/src/avb_mrp.c).
 */
module MrpEvents {
  import opened Bytes

  // ---------- packed events ----------

  /** A three-packed attribute event: New, JoinIn, In, JoinMt, Mt, Lv. */
  type ThreeEvent = x: int | 0 <= x < 6

  /** A four-packed Listener parameter. */
  type FourEvent = x: int | 0 <= x < 4

  const NEW: ThreeEvent := 0
  const JOIN_IN: ThreeEvent := 1
  const IN: ThreeEvent := 2
  const JOIN_MT: ThreeEvent := 3
  const MT: ThreeEvent := 4
  const LV: ThreeEvent := 5

  const READY: FourEvent := 2

  /** Event `e` at place `i` of a byte that holds three. */
  function Place3(e: ThreeEvent, i: nat): nat
    requires i < 3
  {
    if i == 0 then 36 * e else if i == 1 then 6 * e else e
  }

  function Place4(e: FourEvent, i: nat): nat
    requires i < 4
  {
    if i == 0 then 64 * e else if i == 1 then 16 * e else if i == 2 then 4 * e else e
  }

  /** `event * 6 * ... * 6 + vector`: the event added at place `i` of a vector byte. */
  method EncodeThreePacked(event: ThreeEvent, i: nat, vector: int) returns (r: int)
    requires i < 3
    ensures r == vector + Place3(event, i)
  {
    var e: int := event;
    var j := 0;
    while j < 2 - i
      invariant 0 <= j <= 2 - i
      invariant e == (if j == 0 then event else if j == 1 then 6 * event else 36 * event)
    {
      e := e * 6;
      j := j + 1;
    }
    r := vector + e;
  }

  method EncodeFourPacked(event: FourEvent, i: nat, vector: int) returns (r: int)
    requires i < 4
    ensures r == vector + Place4(event, i)
  {
    var e: int := event;
    var j := 0;
    while j < 3 - i
      invariant 0 <= j <= 3 - i
      invariant e == (if j == 0 then event else if j == 1 then 4 * event else if j == 2 then 16 * event else 64 * event)
    {
      e := e * 4;
      j := j + 1;
    }
    r := vector + e;
  }

  /** The event at place `i` of a three-packed byte. */
  function Digit3(vector: byte, i: nat): ThreeEvent
    requires i < 3
  {
    if i == 0 then vector / 36 % 6 else if i == 1 then vector / 6 % 6 else vector % 6
  }

  function Digit4(vector: byte, i: nat): FourEvent
    requires i < 4
  {
    if i == 0 then vector / 64 % 4
    else if i == 1 then vector / 16 % 4
    else if i == 2 then vector / 4 % 4
    else vector % 4
  }

  method DecodeThreePacked(vector: byte, i: nat) returns (r: ThreeEvent)
    requires i < 3
    ensures r == Digit3(vector, i)
  {
    var v: int := vector;
    var j := 0;
    while j < 2 - i
      invariant 0 <= j <= 2 - i
      invariant v == vector / (if j == 0 then 1 else if j == 1 then 6 else 36)
    {
      v := v / 6;
      j := j + 1;
    }
    r := v % 6;
  }

  method DecodeFourPacked(vector: byte, i: nat) returns (r: FourEvent)
    requires i < 4
    ensures r == Digit4(vector, i)
  {
    var v: int := vector;
    var j := 0;
    while j < 3 - i
      invariant 0 <= j <= 3 - i
      invariant v == vector / (if j == 0 then 1 else if j == 1 then 4 else if j == 2 then 16 else 64)
    {
      v := v / 4;
      j := j + 1;
    }
    r := v % 4;
  }

  function Or0(es: seq<int>, j: nat): int {
    if j < |es| then es[j] else 0
  }

  function Byte3(es: seq<ThreeEvent>, k: nat): byte
    requires 3 * k < |es|
  {
    36 * es[3 * k] + 6 * Or0(es, 3 * k + 1) + Or0(es, 3 * k + 2)
  }

  function Byte4(es: seq<FourEvent>, k: nat): byte
    requires 4 * k < |es|
  {
    64 * es[4 * k] + 16 * Or0(es, 4 * k + 1) + 4 * Or0(es, 4 * k + 2) + Or0(es, 4 * k + 3)
  }

  /** Three events to a byte, the first one most significant; missing events count as zero. */
  function Pack3(es: seq<ThreeEvent>): (v: seq<byte>)
    ensures |v| == (|es| + 2) / 3
  {
    seq((|es| + 2) / 3, k requires 0 <= k < (|es| + 2) / 3 => Byte3(es, k))
  }

  /** Four parameters to a byte. */
  function Pack4(es: seq<FourEvent>): (v: seq<byte>)
    ensures |v| == (|es| + 3) / 4
  {
    seq((|es| + 3) / 4, k requires 0 <= k < (|es| + 3) / 4 => Byte4(es, k))
  }

  /** The vector with a byte for event `n`: every third event opens one. */
  function Open3(v: seq<byte>, n: nat): (r: seq<byte>)
    requires |v| == (n + 2) / 3
    ensures |r| == (n + 3) / 3
  {
    if n % 3 == 0 then v + [0] else v
  }

  function Open4(v: seq<byte>, n: nat): (r: seq<byte>)
    requires |v| == (n + 3) / 4
    ensures |r| == (n + 4) / 4
  {
    if n % 4 == 0 then v + [0] else v
  }

  /** Event `n` added into its byte. */
  function Added3(w: seq<byte>, n: nat, e: ThreeEvent): (r: seq<byte>)
    requires n / 3 < |w|
    ensures |r| == |w|
  {
    w[n / 3 := (w[n / 3] + Place3(e, n % 3)) % 256]
  }

  function Append3(v: seq<byte>, n: nat, e: ThreeEvent): (r: seq<byte>)
    requires |v| == (n + 2) / 3
    ensures |r| == (n + 3) / 3
  {
    Added3(Open3(v, n), n, e)
  }

  /** Event `n` added into its byte. */
  function Added4(w: seq<byte>, n: nat, e: FourEvent): (r: seq<byte>)
    requires n / 4 < |w|
    ensures |r| == |w|
  {
    w[n / 4 := (w[n / 4] + Place4(e, n % 4)) % 256]
  }

  function Append4(v: seq<byte>, n: nat, e: FourEvent): (r: seq<byte>)
    requires |v| == (n + 3) / 4
    ensures |r| == (n + 4) / 4
  {
    Added4(Open4(v, n), n, e)
  }

  lemma LastByte3(es: seq<ThreeEvent>, e: ThreeEvent, q: nat, r: nat)
    requires r < 3 && |es| == 3 * q + r
    ensures Byte3(es + [e], q) == (if r == 0 then 0 else Byte3(es, q)) + Place3(e, r)
  {
  }

  /** The vector of the longer sequence: the full bytes stay, the last one is made or added to. */
  lemma Packed3Longer(es: seq<ThreeEvent>, e: ThreeEvent, q: nat, r: nat, v: seq<byte>, w: seq<byte>)
    requires r < 3 && |es| == 3 * q + r && v == Pack3(es) && w == Pack3(es + [e])
    ensures |v| == (if r == 0 then q else q + 1)
    ensures w == v[..q] + [((if r == 0 then 0 else v[q]) + Place3(e, r)) % 256]
  {
    LastByte3(es, e, q, r);
    var long := v[..q] + [Byte3(es + [e], q)];
    forall k: nat | k < q + 1 ensures k < |w| && w[k] == long[k] {
      if k < q {
        assert Byte3(es + [e], k) == Byte3(es, k);
      }
    }
  }

  lemma Append3At(v: seq<byte>, n: nat, e: ThreeEvent, q: nat, r: nat)
    requires r < 3 && n == 3 * q + r && |v| == (if r == 0 then q else q + 1)
    ensures Append3(v, n, e) == v[..q] + [((if r == 0 then 0 else v[q]) + Place3(e, r)) % 256]
  {
    assert n / 3 == q && n % 3 == r;
  }

  /** Adding an event in place packs the longer sequence of events. */
  lemma Pack3Append(es: seq<ThreeEvent>, e: ThreeEvent)
    ensures Pack3(es + [e]) == Append3(Pack3(es), |es|, e)
  {
    var q, r := |es| / 3, |es| % 3;
    var v := Pack3(es);
    Packed3Longer(es, e, q, r, v, Pack3(es + [e]));
    Append3At(v, |es|, e, q, r);
  }

  lemma LastByte4(es: seq<FourEvent>, e: FourEvent, q: nat, r: nat)
    requires r < 4 && |es| == 4 * q + r
    ensures Byte4(es + [e], q) == (if r == 0 then 0 else Byte4(es, q)) + Place4(e, r)
  {
  }

  /** The vector of the longer sequence: the full bytes stay, the last one is made or added to. */
  lemma Packed4Longer(es: seq<FourEvent>, e: FourEvent, q: nat, r: nat)
    requires r < 4 && |es| == 4 * q + r
    ensures |Pack4(es)| == (if r == 0 then q else q + 1)
    ensures Pack4(es + [e])
            == Pack4(es)[..q] + [((if r == 0 then 0 else Pack4(es)[q]) + Place4(e, r)) % 256]
  {
    LastByte4(es, e, q, r);
    var all, long := Pack4(es + [e]), Pack4(es)[..q] + [Byte4(es + [e], q)];
    forall k: nat | k < q + 1 ensures k < |all| && all[k] == long[k] {
      if k < q {
        assert Byte4(es + [e], k) == Byte4(es, k);
      }
    }
  }

  lemma Append4At(v: seq<byte>, n: nat, e: FourEvent, q: nat, r: nat)
    requires r < 4 && n == 4 * q + r && |v| == (if r == 0 then q else q + 1)
    ensures Append4(v, n, e) == v[..q] + [((if r == 0 then 0 else v[q]) + Place4(e, r)) % 256]
  {
    assert n / 4 == q && n % 4 == r;
  }

  /** Adding an event in place packs the longer sequence of events. */
  lemma Pack4Append(es: seq<FourEvent>, e: FourEvent)
    ensures Pack4(es + [e]) == Append4(Pack4(es), |es|, e)
  {
    var q, r := |es| / 4, |es| % 4;
    Packed4Longer(es, e, q, r);
    Append4At(Pack4(es), |es|, e, q, r);
  }

  lemma Digits3(b: byte, e0: ThreeEvent, e1: ThreeEvent, e2: ThreeEvent)
    requires b == 36 * e0 + 6 * e1 + e2
    ensures Digit3(b, 0) == e0 && Digit3(b, 1) == e1 && Digit3(b, 2) == e2
  {
    assert b / 36 == e0;
    assert b / 6 == 6 * e0 + e1;
  }

  lemma Digits4(b: byte, e0: FourEvent, e1: FourEvent, e2: FourEvent, e3: FourEvent)
    requires b == 64 * e0 + 16 * e1 + 4 * e2 + e3
    ensures Digit4(b, 0) == e0 && Digit4(b, 1) == e1 && Digit4(b, 2) == e2 && Digit4(b, 3) == e3
  {
    assert b / 64 == e0;
    assert b / 16 == 4 * e0 + e1;
    assert b / 4 == 16 * e0 + 4 * e1 + e2;
  }

  lemma UnpackThreeAt(es: seq<ThreeEvent>, k: nat, i: nat)
    requires i < 3 && 3 * k + i < |es|
    ensures k < |Pack3(es)| && Digit3(Pack3(es)[k], i) == es[3 * k + i]
  {
    Digits3(Pack3(es)[k], es[3 * k], Or0(es, 3 * k + 1), Or0(es, 3 * k + 2));
  }

  lemma UnpackFourAt(es: seq<FourEvent>, k: nat, i: nat)
    requires i < 4 && 4 * k + i < |es|
    ensures k < |Pack4(es)| && Digit4(Pack4(es)[k], i) == es[4 * k + i]
  {
    Digits4(Pack4(es)[k], es[4 * k], Or0(es, 4 * k + 1), Or0(es, 4 * k + 2), Or0(es, 4 * k + 3));
  }

  /** Unpacking place `j % 3` of byte `j / 3` gives back event `j`. */
  lemma UnpackThree(es: seq<ThreeEvent>, j: nat)
    requires j < |es|
    ensures j / 3 < |Pack3(es)| && Digit3(Pack3(es)[j / 3], j % 3) == es[j]
  {
    UnpackThreeAt(es, j / 3, j % 3);
  }

  lemma UnpackFour(es: seq<FourEvent>, j: nat)
    requires j < |es|
    ensures j / 4 < |Pack4(es)| && Digit4(Pack4(es)[j / 4], j % 4) == es[j]
  {
    UnpackFourAt(es, j / 4, j % 4);
  }
}
