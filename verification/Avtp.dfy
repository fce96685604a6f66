/**
 The wire form of an audio packet: AVTP and CIP header fields, and sample words in network order
 (module_avb_1722/src/avb_1722_common.h, module_avb_1722/src/avb_1722_talker_support.c).
 */
module Avtp {
  import opened Bytes

  const ETHERNET_HDR_SIZE := 18
  const TP_HDR_SIZE := 24
  const CIP_HDR_SIZE := 8
  const HDR_SIZE := 50

  // Offsets from the start of the frame.
  const SUBTYPE := 18
  const VERSION_FLAGS := 19
  const SEQUENCE := 20
  const STREAM_ID0 := 26
  const TIMESTAMP := 30
  const DATA_LENGTH := 38
  const DBC := 45

  // ---------- header fields ----------

  /** Frame headers, from the destination address to the end of the CIP header. */
  type Header = h: seq<byte> | |h| == HDR_SIZE witness seq(HDR_SIZE, _ => 0)

  function Field(h: Header, at: nat, n: nat): nat
    requires at + n <= HDR_SIZE
  {
    BeNat(h[at..at + n])
  }

  predicate ControlBit(h: Header) {
    h[SUBTYPE] >= 128
  }

  predicate StreamIdValid(h: Header) {
    h[VERSION_FLAGS] >= 128
  }

  predicate TimestampValid(h: Header) {
    h[VERSION_FLAGS] % 2 == 1
  }

  /** Headers the talker prepared: tagged, for data, with a valid stream id. */
  predicate Prepared(h: Header) {
    h[12] == 0x81 && !ControlBit(h) && StreamIdValid(h)
  }

  function DataLength(h: Header): nat {
    Field(h, DATA_LENGTH, 2)
  }

  function Timestamp(h: Header): nat {
    Field(h, TIMESTAMP, 4)
  }

  /** Bytes `at` onward replaced. */
  function Put(h: Header, at: nat, s: seq<byte>): Header
    requires at + |s| <= HDR_SIZE
  {
    h[..at] + s + h[at + |s|..]
  }

  lemma PutField(h: Header, at: nat, s: seq<byte>)
    requires at + |s| <= HDR_SIZE
    ensures Put(h, at, s)[at..at + |s|] == s
    ensures forall k :: 0 <= k < HDR_SIZE && !(at <= k < at + |s|) ==> Put(h, at, s)[k] == h[k]
  {
  }

  /** The single bytes that are stamped, with the timestamp flag among them. */
  function WithBytes(h: Header, dbc: byte, valid: bool, sequence: byte): Header {
    var flags := h[VERSION_FLAGS] - h[VERSION_FLAGS] % 2 + if valid then 1 else 0;
    h[DBC := dbc][VERSION_FLAGS := flags][SEQUENCE := sequence]
  }

  /** `AVB1722_CIP_HeaderGen` and `AVB1722_AVBTP_HeaderGen`, on a header the stream set up before. */
  function Stamped(h: Header, dbc: byte, valid: bool, ts: uint32, length: nat, sequence: byte,
                   streamId0: uint32): Header {
    var h1 := WithBytes(h, dbc, valid, sequence);
    var h2 := Put(h1, DATA_LENGTH, BeBytes(length % TWO_TO_16, 2));
    var h3 := Put(h2, TIMESTAMP, BeBytes(if valid then ts else 0, 4));
    Put(h3, STREAM_ID0, BeBytes(streamId0, 4))
  }

  /** The bytes that change from packet to packet. */
  predicate PerPacket(k: int) {
    k == DBC || k == VERSION_FLAGS || k == SEQUENCE || DATA_LENGTH <= k < DATA_LENGTH + 2
    || TIMESTAMP <= k < TIMESTAMP + 4 || STREAM_ID0 <= k < STREAM_ID0 + 4
  }

  /** What the listener reads back is what the talker stamped, and nothing else in the header has changed. */
  lemma StampedReadsBack(h: Header, dbc: byte, valid: bool, ts: uint32, length: nat, sequence: byte, streamId0: uint32)
    ensures var s := Stamped(h, dbc, valid, ts, length, sequence, streamId0);
            && s[DBC] == dbc && s[SEQUENCE] == sequence
            && (TimestampValid(s) <==> valid) && (StreamIdValid(s) <==> StreamIdValid(h))
            && (ControlBit(s) <==> ControlBit(h))
            && DataLength(s) == length % TWO_TO_16 && Timestamp(s) == (if valid then ts else 0)
            && Field(s, STREAM_ID0, 4) == streamId0
            && (forall k :: 0 <= k < HDR_SIZE && !PerPacket(k) ==> s[k] == h[k])
  {
    var h1 := WithBytes(h, dbc, valid, sequence);
    var length2, ts4, id4 := BeBytes(length % TWO_TO_16, 2), BeBytes(if valid then ts else 0, 4), BeBytes(streamId0, 4);
    var h2 := Put(h1, DATA_LENGTH, length2);
    PutField(h1, DATA_LENGTH, length2);
    var h3 := Put(h2, TIMESTAMP, ts4);
    PutField(h2, TIMESTAMP, ts4);
    var s := Put(h3, STREAM_ID0, id4);
    PutField(h3, STREAM_ID0, id4);
    assert s[DATA_LENGTH..DATA_LENGTH + 2] == length2;
    assert s[TIMESTAMP..TIMESTAMP + 4] == ts4;
    FieldReadsBack(s, DATA_LENGTH, length % TWO_TO_16, 2);
    FieldReadsBack(s, TIMESTAMP, if valid then ts else 0, 4);
    FieldReadsBack(s, STREAM_ID0, streamId0, 4);
  }

  lemma FieldReadsBack(h: Header, at: nat, v: nat, n: nat)
    requires at + n <= HDR_SIZE && h[at..at + n] == BeBytes(v, n)
    requires (n == 2 && v < TWO_TO_16) || (n == 4 && v < TWO_TO_32)
    ensures Field(h, at, n) == v
  {
    PowersOf256();
    PowerOfFour();
    BeRoundTrip(v, n);
  }

  lemma PowerOfFour()
    ensures Pow256(4) == TWO_TO_32
  {
    assert Pow256(2) == 256 * 256 * Pow256(0);
    assert Pow256(4) == 256 * 256 * Pow256(2);
  }

  /** The header generators on the packet buffer. */
  method HeaderGen(buf: array<byte>, dbc: byte, valid: bool, ts: uint32, length: nat, sequence: byte, streamId0: uint32)
    requires buf.Length == HDR_SIZE
    modifies buf
    ensures buf[..] == Stamped(old(buf[..]), dbc, valid, ts, length, sequence, streamId0)
  {
    WriteBytes(buf, dbc, valid, sequence);
    WriteField(buf, DATA_LENGTH, BeBytes(length % TWO_TO_16, 2));
    WriteField(buf, TIMESTAMP, BeBytes(if valid then ts else 0, 4));
    WriteField(buf, STREAM_ID0, BeBytes(streamId0, 4));
  }

  /**
   The static part of the header, as far as the listener looks at it: `AVB1722_Talker_bufInit` writes the VLAN tag, the
   type of the frame and the flag that the stream id is valid into a cleared buffer.
   */
  method BufInit(buf: array<byte>)
    requires buf.Length == HDR_SIZE
    modifies buf
    ensures Prepared(buf[..])
  {
    var i := 0;
    while i < HDR_SIZE
      invariant 0 <= i <= HDR_SIZE && forall k :: 0 <= k < i ==> buf[k] == 0
    {
      buf[i] := 0;
      i := i + 1;
    }
    buf[12], buf[13] := 0x81, 0x00;
    buf[16], buf[17] := 0x22, 0xf0;
    buf[VERSION_FLAGS] := 128;
  }

  method WriteBytes(buf: array<byte>, dbc: byte, valid: bool, sequence: byte)
    requires buf.Length == HDR_SIZE
    modifies buf
    ensures buf[..] == WithBytes(old(buf[..]), dbc, valid, sequence)
  {
    buf[DBC] := dbc;
    buf[VERSION_FLAGS] := buf[VERSION_FLAGS] - buf[VERSION_FLAGS] % 2 + if valid then 1 else 0;
    buf[SEQUENCE] := sequence;
  }

  method WriteField(buf: array<byte>, at: nat, s: seq<byte>)
    requires buf.Length == HDR_SIZE && at + |s| <= HDR_SIZE
    modifies buf
    ensures buf[..] == Put(old(buf[..]), at, s)
  {
    var i := 0;
    while i < |s|
      invariant 0 <= i <= |s|
      invariant forall k :: 0 <= k < HDR_SIZE ==> buf[k] == if at <= k < at + i then s[k - at] else old(buf[k])
    {
      buf[at + i] := s[i];
      i := i + 1;
    }
  }

  /**
   The sample a listener attributes the timestamp to, of a packet with this block count (IEC 61883-6,
   section 6.2).
   */
  function SampleNumber(dbc: int, p: int): int
    requires p > 0
  {
    (p - dbc % p) % p
  }

  // ---------- sample words ----------

  const TWO_TO_24: int := 0x100_0000

  function Word(a: byte, b: byte, c: byte, d: byte): uint32 {
    a * TWO_TO_24 + b * TWO_TO_16 + c * 256 + d
  }

  /** `__builtin_bswap32`. */
  function Bswap(x: uint32): uint32 {
    Word(x % 256, x / 256 % 256, x / TWO_TO_16 % 256, x / TWO_TO_24)
  }

  /** The labels of multi-bit linear audio. */
  type Label = x: int | x == 0x40 || x == 0x41 || x == 0x42 witness 0x40

  /** The word a sample is sent as: its low 24 bits under the label, in network order. */
  function Wire(sample: uint32, tag: Label): uint32 {
    Bswap(sample % TWO_TO_24 + tag * TWO_TO_24)
  }

  /** The sample the listener takes out of a word. */
  function Unwire(word: uint32): uint32 {
    Bswap(word) % TWO_TO_24
  }

  lemma BswapTwice(x: uint32)
    ensures Bswap(Bswap(x)) == x
  {
    var a, b, c, d := BytesOf(x);
    BswapOfWord(a, b, c, d);
    BswapOfWord(d, c, b, a);
  }

  lemma BytesOf(x: uint32) returns (a: byte, b: byte, c: byte, d: byte)
    ensures x == Word(a, b, c, d)
  {
    var y, z := x / 256, x / 256 / 256;
    a, b, c, d := z / 256, z % 256, y % 256, x % 256;
  }

  lemma BswapOfWord(a: byte, b: byte, c: byte, d: byte)
    ensures Bswap(Word(a, b, c, d)) == Word(d, c, b, a)
  {
    WordBytes(a, b, c, d);
  }

  lemma WordBytes(a: byte, b: byte, c: byte, d: byte)
    ensures var x := Word(a, b, c, d);
            x % 256 == d && x / 256 % 256 == c && x / TWO_TO_16 % 256 == b && x / TWO_TO_24 == a
  {
    var x := Word(a, b, c, d);
    QuotientIs(a * TWO_TO_16 + b * 256 + c, d, 256, x);
    QuotientIs(a * 256 + b, c, 256, x / 256);
    QuotientIs(a * 256 + b, c * 256 + d, TWO_TO_16, x);
    QuotientIs(a, b, 256, x / TWO_TO_16);
    QuotientIs(a, b * TWO_TO_16 + c * 256 + d, TWO_TO_24, x);
  }

  /** The label is dropped and the low 24 bits come back, whatever the upper bits were. */
  lemma WireRoundTrip(sample: uint32, tag: Label)
    ensures Unwire(Wire(sample, tag)) == sample % TWO_TO_24
  {
    var word := sample % TWO_TO_24 + tag * TWO_TO_24;
    BswapTwice(word);
    QuotientIs(tag, sample % TWO_TO_24, TWO_TO_24, word);
  }

  // ---------- the interleaved payload ----------

  /** The word of sample `k` of channel `c` among `channels` interleaved ones. */
  function Cell(k: int, c: int, channels: int): int {
    k * channels + c
  }

  lemma CellNext(k: int, c: int, channels: int)
    ensures Cell(k + 1, c, channels) == Cell(k, c, channels) + channels
  {
  }

  lemma CellInjective(k: int, c: int, l: int, d: int, channels: int)
    requires 0 <= c < channels && 0 <= d < channels && Cell(k, c, channels) == Cell(l, d, channels)
    ensures k == l && c == d
  {
    if k < l {
      CellsBelow(k, c, l, channels);
    } else if l < k {
      CellsBelow(l, d, k, channels);
    }
  }

  lemma CellsBelow(k: int, c: int, rows: int, channels: int)
    requires k < rows && 0 <= c < channels
    ensures Cell(k, c, channels) < Cell(rows, 0, channels)
  {
    Multiples(k, rows, channels);
  }

  lemma CellNonNegative(k: int, c: int, channels: int)
    requires 0 <= k && 0 <= c < channels
    ensures 0 <= Cell(k, c, channels)
  {
  }
}
