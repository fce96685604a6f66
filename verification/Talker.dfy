/**
 The packetiser of an audio talker: packets of the input FIFOs, one FIFO per channel, are cut again into wire
 packets of another size (module_avb_1722/src/avb_1722_talker_support_audio.c).
 */
module Talker {
  import opened Bytes
  import opened Seqs
  import opened InputFifo
  import opened Avtp
  import GptpTime

  const PACKET_PERIOD_TIMER_TICKS: int := 12250

  // ---------- what a wire packet takes from the FIFOs ----------

  /** What a channel still has to send: its queue without the samples of the first packet that are gone. */
  function Remaining(q: seq<FifoPacket>, gone: nat): seq<uint32> {
    var flat := Flat(q);
    if gone <= |flat| then flat[gone..] else []
  }

  predicate Uniform(q: seq<FifoPacket>, p: int) {
    forall i :: 0 <= i < |q| ==> |q[i].samples| == p
  }

  /** The part of the stream configuration that packets depend on, and its progress. */
  datatype Progress = Progress(
    interval: int, base: int, fractional: int, rem: int, left: int, dbcAtStart: uint32,
    initial: bool, transmitOk: bool, lastTransmit: uint32, sequence: byte)

  /** Rates the configuration is for: at least one sample a packet, and never more than a FIFO packet holds. */
  predicate Configured(s: Progress) {
    && 1 <= s.base && 0 <= s.fractional < TWO_TO_16 && 0 <= s.rem < TWO_TO_16
    && s.base + (if s.fractional > 0 then 1 else 0) <= s.interval && 0 <= s.left <= s.interval
  }

  /** The samples of the next wire packet: the base, and one more when the fractions carry. */
  function PacketSamples(s: Progress): int {
    s.base + if s.rem + s.fractional >= TWO_TO_16 then 1 else 0
  }

  function Advanced(s: Progress): Progress {
    s.(rem := (s.rem + s.fractional) % TWO_TO_16)
  }

  /** The samples of the first FIFO packet that have been sent. */
  function Gone(s: Progress): int {
    if s.initial then 0 else s.interval - s.left
  }

  /** A packet of `n` samples runs over the end of the FIFO packet that is being sent. */
  predicate Straddles(s: Progress, n: int) {
    !s.initial && s.left < n
  }

  function LeftAfter(s: Progress, n: int): int {
    if s.initial then s.interval - n else if s.left < n then s.interval - (n - s.left) else s.left - n
  }

  /** The progress after a wire packet of `n` samples; `head` is the last channel's first FIFO packet by then. */
  function Sent(s: Progress, n: int, head: FifoPacket): Progress {
    Advanced(s).(left := LeftAfter(s, n), initial := false, transmitOk := false, sequence := (s.sequence + 1) % 256,
                 dbcAtStart := if s.initial || Straddles(s, n) then head.dbc else s.dbcAtStart)
  }

  /** What a packet of `n` samples takes from a channel. */
  function Taken(q: seq<FifoPacket>, gone: int, n: int): seq<uint32> {
    var r := if gone < 0 then [] else Remaining(q, gone);
    if 0 <= n <= |r| then r[..n] else r
  }

  /** The data block count of the packet: that of its first sample. */
  function BlockCount(s: Progress, head: FifoPacket): byte {
    (if s.initial then head.dbc else Wrap32(s.dbcAtStart + s.interval - s.left)) % 256
  }

  // ---------- cutting queues ----------

  /** What is taken within one FIFO packet, up to its sample `m`, and what is left. */
  lemma TakenWithin(q: seq<FifoPacket>, p: int, gone: nat, n: nat, m: nat)
    requires q != [] && Uniform(q, p) && m == gone + n <= p
    ensures |q[0].samples| == p && Taken(q, gone, n) == q[0].samples[gone..m] && |Taken(q, gone, n)| == n
    ensures Taken(q, gone, n) + Remaining(q, m) == Remaining(q, gone)
  {
    SliceWithin(q[0].samples, Flat(q[1..]), gone, n);
  }

  /** What is taken over the end of one FIFO packet, `m` samples into the next, and what is left. */
  lemma TakenAcross(q: seq<FifoPacket>, p: int, gone: nat, n: nat, m: nat, tail: seq<FifoPacket>)
    requires |q| >= 2 && Uniform(q, p) && gone <= p && m <= p && gone + n == p + m && tail == q[1..]
    ensures |q[0].samples| == |tail[0].samples| == p && |Taken(q, gone, n)| == n
    ensures Taken(q, gone, n) == q[0].samples[gone..] + tail[0].samples[..m]
    ensures Taken(q, gone, n) + Remaining(tail, m) == Remaining(q, gone)
  {
    var a, b, rest := q[0].samples, tail[0].samples, Flat(tail[1..]);
    assert Flat(tail) == b + rest && Flat(q) == a + (b + rest);
    SliceAcross(a, b, rest, gone, m);
  }

  // ---------- the packet buffer ----------

  /** Column `c` of the payload holds samples `xs` from row `from` on. */
  ghost predicate ColumnHolds(words: seq<uint32>, channels: int, c: int, from: int, xs: seq<uint32>, tag: Label) {
    forall k :: 0 <= k < |xs| ==> CellHolds(words, Cell(from + k, c, channels), xs[k], tag)
  }

  predicate CellHolds(words: seq<uint32>, at: int, sample: uint32, tag: Label) {
    0 <= at < |words| && words[at] == Wire(sample, tag)
  }

  /** Two payloads agree except in `n` rows of one column. */
  ghost predicate SameButColumn(words: seq<uint32>, other: seq<uint32>, channels: int, c: int, from: int, n: int) {
    |words| == |other| && forall k, d :: 0 <= d < channels && !(d == c && from <= k < from + n) ==>
      SameCell(words, other, Cell(k, d, channels))
  }

  predicate SameCell(words: seq<uint32>, other: seq<uint32>, at: int) {
    0 <= at < |words| && at < |other| ==> words[at] == other[at]
  }

  lemma ColumnKept(words: seq<uint32>, other: seq<uint32>, channels: int, c: int, from: int, n: int,
                   d: int, at: int, xs: seq<uint32>, tag: Label)
    requires SameButColumn(words, other, channels, c, from, n) && 0 <= d < channels
    requires d != c || at + |xs| <= from || from + n <= at
    requires ColumnHolds(words, channels, d, at, xs, tag)
    ensures ColumnHolds(other, channels, d, at, xs, tag)
  {
    forall k | 0 <= k < |xs| ensures CellHolds(other, Cell(at + k, d, channels), xs[k], tag) {
      assert CellHolds(words, Cell(at + k, d, channels), xs[k], tag);
      assert SameCell(words, other, Cell(at + k, d, channels));
    }
  }

  lemma ColumnJoin(words: seq<uint32>, channels: int, c: int, from: int, xs: seq<uint32>, ys: seq<uint32>, tag: Label)
    requires ColumnHolds(words, channels, c, from, xs, tag) && ColumnHolds(words, channels, c, from + |xs|, ys, tag)
    ensures ColumnHolds(words, channels, c, from, xs + ys, tag)
  {
    forall k | 0 <= k < |xs + ys| ensures CellHolds(words, Cell(from + k, c, channels), (xs + ys)[k], tag) {
      if k >= |xs| {
        assert CellHolds(words, Cell(from + |xs| + (k - |xs|), c, channels), ys[k - |xs|], tag);
      }
    }
  }

  /** `sample_copy_strided`: `n` samples into column `c`, from row `from` on. */
  method SampleCopyStrided(buf: seq<uint32>, src: int, payload: array<uint32>, channels: int, c: int, from: int,
                           n: int, tag: Label)
    requires 0 <= src && 0 <= n && src + n <= |buf|
    requires 0 <= c < channels && 0 <= from && Cell(from + n, 0, channels) <= payload.Length
    modifies payload
    ensures ColumnHolds(payload[..], channels, c, from, buf[src..src + n], tag)
    ensures SameButColumn(old(payload[..]), payload[..], channels, c, from, n)
  {
    ghost var was := payload[..];
    var i, dest := 0, Cell(from, c, channels);
    assert SameButColumn(was, payload[..], channels, c, from, 0);
    while i < n
      invariant 0 <= i <= n && dest == Cell(from + i, c, channels)
      invariant ColumnHolds(payload[..], channels, c, from, buf[src..src + i], tag)
      invariant SameButColumn(was, payload[..], channels, c, from, i)
    {
      CellsBelow(from + i, c, from + n, channels);
      CellNonNegative(from + i, c, channels);
      CellNext(from + i, c, channels);
      ghost var before := payload[..];
      payload[dest] := Wire(buf[src + i], tag);
      OneCell(was, before, payload[..], channels, c, from, i, buf[src..src + i], buf[src + i], tag);
      assert buf[src..src + (i + 1)] == buf[src..src + i] + [buf[src + i]];
      i, dest := i + 1, dest + channels;
    }
  }

  /** One more cell of a column written. */
  lemma OneCell(was: seq<uint32>, before: seq<uint32>, now: seq<uint32>, channels: int, c: int, from: int, i: int,
                xs: seq<uint32>, x: uint32, tag: Label)
    requires 0 <= c < channels && |xs| == i && 0 <= Cell(from + i, c, channels) < |before|
    requires now == before[Cell(from + i, c, channels) := Wire(x, tag)]
    requires ColumnHolds(before, channels, c, from, xs, tag) && SameButColumn(was, before, channels, c, from, i)
    ensures ColumnHolds(now, channels, c, from, xs + [x], tag) && SameButColumn(was, now, channels, c, from, i + 1)
  {
    forall k, d | 0 <= d < channels && !(d == c && from <= k < from + i + 1)
      ensures SameCell(was, now, Cell(k, d, channels))
    {
      assert SameCell(was, before, Cell(k, d, channels));
      if Cell(k, d, channels) == Cell(from + i, c, channels) {
        CellInjective(k, d, from + i, c, channels);
      }
    }
    forall k | 0 <= k < i + 1 ensures CellHolds(now, Cell(from + k, c, channels), (xs + [x])[k], tag) {
      if k < i {
        assert CellHolds(before, Cell(from + k, c, channels), xs[k], tag);
        if Cell(from + k, c, channels) == Cell(from + i, c, channels) {
          CellInjective(from + k, c, from + i, c, channels);
        }
      }
    }
  }

  // ---------- the stream ----------

  /** Every channel has at least `k` packets of `p` samples. */
  ghost predicate AllHave(qs: seq<seq<FifoPacket>>, k: nat, p: int) {
    forall c :: 0 <= c < |qs| ==> Has(qs[c], k, p)
  }

  predicate Has(q: seq<FifoPacket>, k: nat, p: int) {
    |q| >= k && Uniform(q, p)
  }

  function Tails(qs: seq<seq<FifoPacket>>): seq<seq<FifoPacket>> {
    seq(|qs|, c requires 0 <= c < |qs| => if qs[c] == [] then [] else qs[c][1..])
  }

  /** The `n` samples behind the first `gone` of each channel's first packet. */
  function Parts(qs: seq<seq<FifoPacket>>, gone: int, n: int): seq<seq<uint32>> {
    seq(|qs|, c requires 0 <= c < |qs| => Piece(qs[c], gone, n))
  }

  function Piece(q: seq<FifoPacket>, gone: int, n: int): seq<uint32> {
    if q != [] && 0 <= gone && 0 <= n && gone + n <= |q[0].samples| then q[0].samples[gone..gone + n] else []
  }

  function Joined(xs: seq<seq<uint32>>, ys: seq<seq<uint32>>): seq<seq<uint32>>
    requires |xs| == |ys|
  {
    seq(|xs|, c requires 0 <= c < |xs| => xs[c] + ys[c])
  }

  function Nothing(n: nat): seq<seq<uint32>> {
    seq(n, c => [])
  }

  predicate EachHas(xs: seq<seq<uint32>>, n: int) {
    forall c :: 0 <= c < |xs| ==> |xs[c]| == n
  }

  /** What every channel gives to a packet. */
  function Takens(qs: seq<seq<FifoPacket>>, gone: int, n: int): seq<seq<uint32>> {
    seq(|qs|, c requires 0 <= c < |qs| => Taken(qs[c], gone, n))
  }

  lemma TakensWithin(qs: seq<seq<FifoPacket>>, p: int, gone: int, n: int)
    requires 0 <= gone && 0 <= n && gone + n <= p && AllHave(qs, 1, p)
    ensures Joined(Nothing(|qs|), Parts(qs, gone, n)) == Takens(qs, gone, n)
  {
    var left, right := Joined(Nothing(|qs|), Parts(qs, gone, n)), Takens(qs, gone, n);
    forall c | 0 <= c < |qs| ensures left[c] == right[c] {
      assert Has(qs[c], 1, p);
      PieceTaken(qs[c], p, gone, n);
    }
  }

  lemma PieceTaken(q: seq<FifoPacket>, p: int, gone: int, n: int)
    requires 0 <= gone && 0 <= n && gone + n <= p && Has(q, 1, p)
    ensures [] + Piece(q, gone, n) == Taken(q, gone, n)
  {
    TakenWithin(q, p, gone, n, gone + n);
  }

  lemma TakensAcross(qs: seq<seq<FifoPacket>>, p: int, left: int, n: int)
    requires 0 <= left <= n <= p && AllHave(qs, 2, p)
    ensures Joined(Parts(qs, p - left, left), Parts(Tails(qs), 0, n - left)) == Takens(qs, p - left, n)
    ensures AllHave(Tails(qs), 1, p)
    ensures EachHas(Parts(qs, p - left, left), left)
  {
    forall c | 0 <= c < |qs|
      ensures Piece(qs[c], p - left, left) + Piece(Tails(qs)[c], 0, n - left) == Taken(qs[c], p - left, n)
      ensures |Piece(qs[c], p - left, left)| == left && Has(Tails(qs)[c], 1, p)
    {
      assert Has(qs[c], 2, p);
      PiecesAcross(qs[c], p, left, n, Tails(qs)[c]);
    }
  }

  lemma PiecesAcross(q: seq<FifoPacket>, p: int, left: int, n: int, tail: seq<FifoPacket>)
    requires 0 <= left <= n <= p && Has(q, 2, p) && tail == q[1..]
    ensures Piece(q, p - left, left) + Piece(tail, 0, n - left) == Taken(q, p - left, n)
    ensures |Piece(q, p - left, left)| == left && Has(tail, 1, p)
  {
    TakenAcross(q, p, p - left, n, n - left, tail);
    PieceToEnd(q, p, left);
    PieceFromStart(tail, n - left);
    assert Has(tail, 1, p) by { UniformTail(q, p); }
  }

  lemma UniformTail(q: seq<FifoPacket>, p: int)
    requires Uniform(q, p) && q != []
    ensures Uniform(q[1..], p)
  {
    forall i | 0 <= i < |q| - 1 ensures |q[1..][i].samples| == p {
      assert q[1..][i] == q[i + 1];
    }
  }

  lemma PieceToEnd(q: seq<FifoPacket>, p: int, n: int)
    requires q != [] && |q[0].samples| == p && 0 <= n <= p
    ensures Piece(q, p - n, n) == q[0].samples[p - n..] && |Piece(q, p - n, n)| == n
  {
    assert q[0].samples[p - n..p] == q[0].samples[p - n..];
  }

  lemma PieceFromStart(q: seq<FifoPacket>, n: int)
    requires q != [] && 0 <= n <= |q[0].samples|
    ensures Piece(q, 0, n) == q[0].samples[..n]
  {
  }

  function QueuesAfter(s: Progress, n: int, qs: seq<seq<FifoPacket>>): seq<seq<FifoPacket>> {
    if Straddles(s, n) then Tails(qs) else qs
  }

  /** The first FIFO packet of the last channel, which gives time and block count. */
  function Head(qs: seq<seq<FifoPacket>>): FifoPacket {
    if qs != [] && qs[|qs| - 1] != [] then qs[|qs| - 1][0] else FifoPacket(0, 0, [])
  }

  lemma RoomForRows(n: int, rows: int, channels: int, length: int)
    requires 0 <= n <= rows && channels > 0 && Cell(rows, 0, channels) <= length
    ensures Cell(n, 0, channels) <= length
  {
    if n < rows {
      CellsBelow(n, 0, rows, channels);
    }
  }

  /** Enough samples for two FIFO packets means two packets. */
  lemma TwoPackets(p: int, k: int)
    requires p >= 1 && 0 <= k
    ensures Product(p, k) < 2 * p <==> k < 2
  {
    assert Product(p, 0) == 0 && Product(p, 1) == p && Product(p, 2) == 2 * p;
    if k > 2 {
      Multiples(2, k, p);
      assert Product(p, k) == k * p;
    }
  }

  /** At first, half a FIFO has to be filled. */
  predicate Starting(s: Progress, qs: seq<seq<FifoPacket>>, fifoSize: int) {
    s.initial && qs != [] && Product(s.interval, |qs[0]|) < fifoSize / 2
  }

  /** Some channel may run dry. */
  predicate Starved(s: Progress, qs: seq<seq<FifoPacket>>, n: int) {
    (s.initial || s.left < n) && exists c :: 0 <= c < |qs| && |qs[c]| < 2
  }

  /** It is too early for the next packet. */
  predicate TooEarly(s: Progress, time: uint32) {
    !s.initial && !s.transmitOk && Signed32(time - s.lastTransmit) < PACKET_PERIOD_TIMER_TICKS
  }

  /** An attempt at time `time` makes a packet. */
  predicate Makes(s: Progress, qs: seq<seq<FifoPacket>>, fifoSize: int, time: uint32, fed: bool) {
    !Starting(s, qs, fifoSize) && !Starved(s, qs, PacketSamples(s)) && fed && !TooEarly(s, time)
  }

  /** Queues and progress after an attempt to send. */
  function Attempted(s: Progress, qs: seq<seq<FifoPacket>>, fifoSize: int, time: uint32, fed: bool)
    : (seq<seq<FifoPacket>>, Progress)
  {
    if Makes(s, qs, fifoSize, time, fed) then
      var n := PacketSamples(s);
      var after := QueuesAfter(s, n, qs);
      (after, Sent(s, n, Head(after)).(lastTransmit := time))
    else
      (qs, if Starting(s, qs, fifoSize) then s else Advanced(s))
  }

  /** The PTP time at which what was recorded at the local time `ts` is to be presented, modulo 2 to the 32. */
  function PresentedAt(ts: uint32, timeInfo: GptpTime.TimeInfo, delay: uint32): uint32 {
    Wrap32(GptpTime.LocalToMod32(ts, timeInfo) + delay)
  }

  /** Samples per packet in 16.16 fixed point. */
  function SamplesPerPacket(rate: int): int {
    rate / 100 * TWO_TO_16 / 80
  }

  /** A stream of a rate, configured and started. */
  function Started(rate: int): Progress {
    Progress(SytInterval(rate), SamplesPerPacket(rate) / TWO_TO_16, SamplesPerPacket(rate) % TWO_TO_16, 0, 0, 0, true,
             true, 0, 0)
  }

  /** The shares of all rates; those of 44.1 kHz and its multiples are rounded down. */
  lemma SharesOfRates()
    ensures SamplesPerPacket(8000) == 65536 && SamplesPerPacket(16000) == 131072 && SamplesPerPacket(32000) == 262144
    ensures SamplesPerPacket(44100) == 361267 && SamplesPerPacket(48000) == 393216
    ensures SamplesPerPacket(88200) == 722534 && SamplesPerPacket(96000) == 786432
    ensures SamplesPerPacket(176400) == 1445068 && SamplesPerPacket(192000) == 1572864
  {
  }

  /** For every rate the FIFOs know, a wire packet is never longer than a FIFO packet. */
  lemma RatesConfigured(rate: int)
    requires SytInterval(rate) > 0
    ensures Configured(Started(rate))
  {
    SharesOfRates();
  }

  /**
   The parts of a stream's invariant: its buffers and rates, the packets that are there, and where the read pointers
   stand, which is where the last packet ended.
   */
  datatype Part = Configuration | Supply | Position

  /**
   A stream with one FIFO per channel. Of each FIFO the talker sees the queue of complete packets, which the writer
   extends behind its back, and its own read pointer into the first of them.
   */
  class AudioTalker {
    const channels: int
    const fifoSize: int
    const header: array<byte>
    const payload: array<uint32>
    const streamId0: uint32
    const tag: Label
    const presentationDelay: uint32
    var queues: seq<seq<FifoPacket>>
    var ptrs: seq<int>
    var samplesPerFifoPacket: int
    var samplesPerPacketBase: int
    var samplesPerPacketFractional: int
    var rem: int
    var samplesLeftInFifoPacket: int
    var dbcAtStartOfLastFifoPacket: uint32
    var initial: bool
    var transmitOk: bool
    var lastTransmitTime: uint32
    var sequenceNumber: byte

    function Current(): Progress
      reads this
    {
      Progress(samplesPerFifoPacket, samplesPerPacketBase, samplesPerPacketFractional, rem, samplesLeftInFifoPacket,
               dbcAtStartOfLastFifoPacket, initial, transmitOk, lastTransmitTime, sequenceNumber)
    }

    /** All read pointers stand at `at`. */
    ghost predicate PointersAt(at: int)
      reads this`ptrs
    {
      |ptrs| == channels && forall c :: 0 <= c < channels ==> ptrs[c] == at
    }

    /** The columns of the payload begin with `xs`. */
    ghost predicate Filled(xs: seq<seq<uint32>>)
      reads payload
    {
      |xs| == channels && forall c :: 0 <= c < channels ==> ColumnHolds(payload[..], channels, c, 0, xs[c], tag)
    }

    /** `configure_stream` and `start_stream`: the sizes that follow from the rate, and a stream not yet begun. */
    constructor (channels: int, fifoSize: int, rate: int, streamId0: uint32, tag: Label, presentationDelay: uint32)
      requires channels > 0 && SytInterval(rate) > 0
      ensures Valid() && this.channels == channels && Current() == Started(rate)
      ensures this.fifoSize == fifoSize && this.streamId0 == streamId0 && this.presentationDelay == presentationDelay
      ensures header.Length == HDR_SIZE && Prepared(header[..])
      ensures fresh(payload) && fresh(header) && |queues| == channels
      ensures forall c :: 0 <= c < channels ==> queues[c] == []
    {
      RatesConfigured(rate);
      this.channels, this.fifoSize, this.streamId0, this.tag := channels, fifoSize, streamId0, tag;
      this.presentationDelay := presentationDelay;
      var tmp := SamplesPerPacket(rate);
      samplesPerFifoPacket := SytInterval(rate);
      samplesPerPacketBase, samplesPerPacketFractional := tmp / TWO_TO_16, tmp % TWO_TO_16;
      rem, samplesLeftInFifoPacket, dbcAtStartOfLastFifoPacket, initial := 0, 0, 0, true;
      transmitOk, lastTransmitTime, sequenceNumber := true, 0, 0;
      queues, ptrs := seq(channels, c => []), seq(channels, c => 0);
      header := new byte[HDR_SIZE](_ => 0);
      CellNonNegative(tmp / TWO_TO_16 + 1, 0, channels);
      payload := new uint32[Cell(tmp / TWO_TO_16 + 1, 0, channels)](_ => 0);
      new;
      BufInit(header);
    }

    /** The writer of a channel completes a FIFO packet. */
    method Arrive(c: int, x: FifoPacket)
      requires Valid() && 0 <= c < |queues| && |x.samples| == samplesPerFifoPacket
      modifies this`queues
      ensures Valid() && queues == old(queues)[c := old(queues[c]) + [x]]
    {
      assert Sound(Configuration) && Sound(Supply) && Sound(Position);
      assert Has(queues[c], if initial then 0 else 1, samplesPerFifoPacket);
      assert Has(queues[|queues| - 1], if initial then 0 else 1, samplesPerFifoPacket);
      queues := queues[c := queues[c] + [x]];
      forall d | 0 <= d < |queues| ensures Has(queues[d], if initial then 0 else 1, samplesPerFifoPacket) {
        assert Has(old(queues[d]), if initial then 0 else 1, samplesPerFifoPacket);
      }
    }

    /** `avb_1722_talker_send_packets`, for this stream. */
    method SendPackets(timeInfo: GptpTime.TimeInfo, time: uint32, fed: bool) returns (size: int)
      requires Valid()
      modifies this, payload, header
      ensures Valid()
      ensures (queues, Current()) == Attempted(old(Current()), old(queues), fifoSize, time, fed)
      ensures var s, n := old(Current()), PacketSamples(old(Current()));
              if Makes(s, old(queues), fifoSize, time, fed) then
                && Filled(Takens(old(queues), Gone(s), n)) && 0 <= Cell(n, 0, channels)
                && size == HDR_SIZE + 4 * Cell(n, 0, channels) && |old(header[..])| == HDR_SIZE
                && header[..] == HeaderOf(old(header[..]), s, n, Head(queues), timeInfo)
              else size == 0
    {
      assert Sound(Configuration);
      CellNonNegative(PacketSamples(Current()), 0, channels);
      size := CreatePacket(timeInfo, time, fed);
      if size != 0 {
        SetLastTransmit(time);
      }
    }

    method SetLastTransmit(time: uint32)
      requires Valid()
      modifies this`lastTransmitTime
      ensures Valid() && Current() == old(Current()).(lastTransmit := time)
    {
      assert Sound(Configuration) && Sound(Supply) && Sound(Position);
      lastTransmitTime := time;
      assert Sound(Configuration) && Sound(Supply) && Sound(Position);
    }

    /** `media_input_fifo_get_packet` on every channel; time and block count are those of the last one. */
    method GetAll() returns (presentationTime: uint32)
      requires 0 < channels == |queues| == |ptrs| && AllHave(queues, 1, samplesPerFifoPacket)
      modifies this`ptrs, this`dbcAtStartOfLastFifoPacket
      ensures PointersAt(0) && presentationTime == queues[channels - 1][0].ts
      ensures dbcAtStartOfLastFifoPacket == queues[channels - 1][0].dbc
    {
      presentationTime := 0;
      var i := 0;
      while i < channels
        invariant 0 <= i <= channels == |ptrs|
        invariant forall c :: 0 <= c < i ==> ptrs[c] == 0
        invariant i > 0 ==> queues[i - 1] != [] && presentationTime == queues[i - 1][0].ts
                            && dbcAtStartOfLastFifoPacket == queues[i - 1][0].dbc
      {
        assert Has(queues[i], 1, samplesPerFifoPacket);
        presentationTime, dbcAtStartOfLastFifoPacket := queues[i][0].ts, queues[i][0].dbc;
        ptrs := ptrs[i := 0];
        i := i + 1;
      }
    }

    /** The first `i` columns hold `xs`. */
    ghost predicate FirstFilled(xs: seq<seq<uint32>>, i: int)
      reads payload
    {
      |xs| == channels && forall c :: 0 <= c < i <= channels ==> ColumnHolds(payload[..], channels, c, 0, xs[c], tag)
    }

    /** The `n` samples of one channel that are left in its FIFO packet. */
    method CopyRest(i: int, n: int, ghost gone: int, ghost xs: seq<seq<uint32>>)
      requires 0 <= i < channels == |queues| == |ptrs| && Has(queues[i], 1, samplesPerFifoPacket) && ptrs[i] == gone
      requires 0 <= n && 0 <= gone && gone + n <= samplesPerFifoPacket && Cell(n, 0, channels) <= payload.Length
      requires FirstFilled(xs, i) && xs[i] == Piece(queues[i], gone, n)
      modifies payload
      ensures FirstFilled(xs, i + 1)
    {
      ghost var was := payload[..];
      SampleCopyStrided(queues[i][0].samples, ptrs[i], payload, channels, i, 0, n, tag);
      ColumnsKept(was, payload[..], channels, i, 0, n, xs, tag);
    }

    /**
     The rest of the FIFO packet in hand is sent and released, and the next packet got, on every channel; time and
     block count are those of the last one.
     */
    method SwitchAll() returns (presentationTime: uint32)
      requires 0 < channels == |queues| && AllHave(queues, 2, samplesPerFifoPacket)
      requires 0 <= samplesLeftInFifoPacket <= samplesPerFifoPacket
      requires PointersAt(samplesPerFifoPacket - samplesLeftInFifoPacket)
      requires Cell(samplesLeftInFifoPacket, 0, channels) <= payload.Length
      modifies this`queues, this`ptrs, this`dbcAtStartOfLastFifoPacket, payload
      ensures queues == Tails(old(queues)) && PointersAt(0) && queues[channels - 1] != []
      ensures Filled(Parts(old(queues), samplesPerFifoPacket - samplesLeftInFifoPacket, samplesLeftInFifoPacket))
      ensures presentationTime == queues[channels - 1][0].ts
              && dbcAtStartOfLastFifoPacket == queues[channels - 1][0].dbc
    {
      presentationTime := 0;
      ghost var qs, left, gone := queues, samplesLeftInFifoPacket, samplesPerFifoPacket - samplesLeftInFifoPacket;
      ghost var xs := Parts(qs, gone, left);
      var i := 0;
      while i < channels
        invariant 0 <= i <= channels == |ptrs| == |queues|
        invariant forall c :: 0 <= c < channels ==> ptrs[c] == if c < i then 0 else gone
        invariant forall c :: 0 <= c < channels ==> queues[c] == if c < i then Tails(qs)[c] else qs[c]
        invariant FirstFilled(xs, i)
        invariant i > 0 ==> queues[i - 1] != [] && presentationTime == queues[i - 1][0].ts
                            && dbcAtStartOfLastFifoPacket == queues[i - 1][0].dbc
      {
        assert Has(qs[i], 2, samplesPerFifoPacket);
        CopyRest(i, samplesLeftInFifoPacket, gone, xs);
        queues := queues[i := queues[i][1..]];
        presentationTime, dbcAtStartOfLastFifoPacket := queues[i][0].ts, queues[i][0].dbc;
        ptrs := ptrs[i := 0];
        i := i + 1;
      }
    }

    /** The first `i` columns have their part behind `xs`. */
    ghost predicate Grown(xs: seq<seq<uint32>>, parts: seq<seq<uint32>>, i: int)
      reads payload
    {
      |xs| == |parts| == channels && forall c :: 0 <= c < channels ==>
        ColumnHolds(payload[..], channels, c, 0, if c < i then xs[c] + parts[c] else xs[c], tag)
    }

    /** One channel's next `n` samples. */
    method CopyColumn(i: int, from: int, n: int, ghost gone: int, ghost xs: seq<seq<uint32>>,
                      ghost parts: seq<seq<uint32>>)
      requires 0 <= i < channels == |queues| == |ptrs| && Has(queues[i], 1, samplesPerFifoPacket) && ptrs[i] == gone
      requires 0 <= from && 0 <= n && 0 <= gone && gone + n <= samplesPerFifoPacket
      requires Cell(from + n, 0, channels) <= payload.Length
      requires Grown(xs, parts, i) && |xs[i]| == from && parts[i] == Piece(queues[i], gone, n)
      modifies payload
      ensures Grown(xs, parts, i + 1)
    {
      ghost var was := payload[..];
      SampleCopyStrided(queues[i][0].samples, ptrs[i], payload, channels, i, from, n, tag);
      ColumnGrows(was, payload[..], channels, i, from, n, xs, parts, tag);
    }

    /** Every channel's next `n` samples, behind the `from` rows that are filled already. */
    method CopyAll(from: int, n: int, ghost gone: int, ghost xs: seq<seq<uint32>>, ghost all: seq<seq<uint32>>)
      requires 0 < channels == |queues| == |xs| && AllHave(queues, 1, samplesPerFifoPacket) && PointersAt(gone)
      requires 0 <= from && 0 <= n && 0 <= gone && gone + n <= samplesPerFifoPacket
      requires Cell(from + n, 0, channels) <= payload.Length
      requires Filled(xs) && EachHas(xs, from)
      requires all == Joined(xs, Parts(queues, gone, n))
      modifies this`ptrs, payload
      ensures PointersAt(gone + n) && Filled(all)
    {
      ghost var parts := Parts(queues, gone, n);
      var i := 0;
      while i < channels
        invariant 0 <= i <= channels == |ptrs| && Grown(xs, parts, i)
        invariant forall c :: 0 <= c < channels ==> ptrs[c] == if c < i then gone + n else gone
      {
        assert Has(queues[i], 1, samplesPerFifoPacket);
        CopyColumn(i, from, n, gone, xs, parts);
        ptrs := ptrs[i := ptrs[i] + n];
        i := i + 1;
      }
    }

    /** Everything the stream needs, looked at by name. */
    ghost predicate Valid()
      reads this
    {
      forall part: Part :: Sound(part)
    }

    ghost predicate Sound(part: Part)
      reads this
    {
      match part
      case Configuration =>
        && 0 < channels == |queues| == |ptrs| && header.Length == HDR_SIZE && Configured(Current())
        && Cell(samplesPerPacketBase + 1, 0, channels) <= payload.Length
      case Supply =>
        AllHave(queues, if initial then 0 else 1, samplesPerFifoPacket)
      case Position =>
        !initial ==> PointersAt(samplesPerFifoPacket - samplesLeftInFifoPacket)
                     && dbcAtStartOfLastFifoPacket == Head(queues).dbc
    }

    /** The first packet of a stream; `xs` is what the channels give to it. */
    method MakeFirst(n: int, ghost xs: seq<seq<uint32>>) returns (presentationTime: uint32)
      requires 0 < channels == |queues| == |ptrs| && AllHave(queues, 2, samplesPerFifoPacket)
      requires 0 <= n <= samplesPerFifoPacket && Cell(n, 0, channels) <= payload.Length && xs == Takens(queues, 0, n)
      modifies this`ptrs, this`dbcAtStartOfLastFifoPacket, this`initial, this`samplesLeftInFifoPacket, payload
      ensures PointersAt(n) && Filled(xs) && !initial && samplesLeftInFifoPacket == samplesPerFifoPacket - n
      ensures presentationTime == Head(queues).ts && dbcAtStartOfLastFifoPacket == Head(queues).dbc
    {
      TakensWithin(queues, samplesPerFifoPacket, 0, n);
      assert Has(queues[channels - 1], 2, samplesPerFifoPacket);
      presentationTime := GetAll();
      CopyAll(0, n, 0, Nothing(channels), xs);
      initial := false;
      samplesLeftInFifoPacket := samplesPerFifoPacket - n;
    }

    /** A packet that takes the rest of the FIFO packets in hand and the beginning of the next ones. */
    method MakeAcross(n: int, ghost xs: seq<seq<uint32>>) returns (presentationTime: uint32)
      requires 0 < channels == |queues| && AllHave(queues, 2, samplesPerFifoPacket)
      requires 0 <= samplesLeftInFifoPacket <= n <= samplesPerFifoPacket && Cell(n, 0, channels) <= payload.Length
      requires PointersAt(samplesPerFifoPacket - samplesLeftInFifoPacket)
      requires xs == Takens(queues, samplesPerFifoPacket - samplesLeftInFifoPacket, n)
      modifies this`queues, this`ptrs, this`dbcAtStartOfLastFifoPacket, this`samplesLeftInFifoPacket, payload
      ensures queues == Tails(old(queues)) && PointersAt(n - old(samplesLeftInFifoPacket)) && Filled(xs)
      ensures samplesLeftInFifoPacket == samplesPerFifoPacket - (n - old(samplesLeftInFifoPacket))
      ensures presentationTime == Head(queues).ts && dbcAtStartOfLastFifoPacket == Head(queues).dbc
    {
      var left := samplesLeftInFifoPacket;
      ghost var rests, tails := Parts(queues, samplesPerFifoPacket - left, left), Tails(queues);
      RestsFit(left, n, rests, tails, xs);
      presentationTime := SwitchAll();
      assert queues == tails;
      CopyAll(left, n - left, 0, rests, xs);
      samplesLeftInFifoPacket := samplesPerFifoPacket - (n - left);
    }

    lemma RestsFit(left: int, n: int, rests: seq<seq<uint32>>, tails: seq<seq<FifoPacket>>, xs: seq<seq<uint32>>)
      requires 0 < channels == |queues| && AllHave(queues, 2, samplesPerFifoPacket)
      requires 0 <= left <= n <= samplesPerFifoPacket && Cell(n, 0, channels) <= payload.Length
      requires rests == Parts(queues, samplesPerFifoPacket - left, left) && tails == Tails(queues)
      requires xs == Takens(queues, samplesPerFifoPacket - left, n)
      ensures Cell(left, 0, channels) <= payload.Length
      ensures |rests| == channels && EachHas(rests, left)
      ensures xs == Joined(rests, Parts(tails, 0, n - left)) && AllHave(tails, 1, samplesPerFifoPacket)
    {
      TakensAcross(queues, samplesPerFifoPacket, left, n);
      RoomForRows(left, n, channels, payload.Length);
    }

    /** A packet the FIFO packets in hand have enough for. */
    method MakeWithin(n: int, ghost xs: seq<seq<uint32>>)
      requires 0 < channels == |queues| && AllHave(queues, 1, samplesPerFifoPacket)
      requires 0 <= n <= samplesLeftInFifoPacket <= samplesPerFifoPacket && Cell(n, 0, channels) <= payload.Length
      requires PointersAt(samplesPerFifoPacket - samplesLeftInFifoPacket)
      requires xs == Takens(queues, samplesPerFifoPacket - samplesLeftInFifoPacket, n)
      modifies this`ptrs, this`samplesLeftInFifoPacket, payload
      ensures PointersAt(samplesPerFifoPacket - samplesLeftInFifoPacket) && Filled(xs)
      ensures samplesLeftInFifoPacket == old(samplesLeftInFifoPacket) - n
    {
      ghost var gone := samplesPerFifoPacket - samplesLeftInFifoPacket;
      TakensWithin(queues, samplesPerFifoPacket, gone, n);
      CopyAll(0, n, gone, Nothing(channels), xs);
      samplesLeftInFifoPacket := samplesLeftInFifoPacket - n;
    }

    /** The three ways to get the samples of a packet together. */
    method MakeSamples(n: int, ghost xs: seq<seq<uint32>>) returns (presentationTime: uint32, timerValid: bool)
      requires Sound(Configuration) && Sound(Position) && 0 <= n <= samplesPerFifoPacket
      requires Cell(n, 0, channels) <= payload.Length
      requires AllHave(queues, if initial || samplesLeftInFifoPacket < n then 2 else 1, samplesPerFifoPacket)
      requires xs == Takens(queues, Gone(Current()), n)
      modifies this`queues, this`ptrs, this`dbcAtStartOfLastFifoPacket, this`initial, this`samplesLeftInFifoPacket,
               payload
      ensures !initial && Filled(xs) && queues == QueuesAfter(old(Current()), n, old(queues))
      ensures samplesLeftInFifoPacket == LeftAfter(old(Current()), n)
      ensures PointersAt(samplesPerFifoPacket - samplesLeftInFifoPacket)
      ensures dbcAtStartOfLastFifoPacket == Head(queues).dbc
      ensures timerValid <==> old(initial) || Straddles(old(Current()), n)
      ensures timerValid ==> presentationTime == Head(queues).ts
    {
      presentationTime, timerValid := 0, false;
      if initial {
        presentationTime := MakeFirst(n, xs);
        timerValid := true;
      } else if samplesLeftInFifoPacket < n {
        presentationTime := MakeAcross(n, xs);
        timerValid := true;
      } else {
        MakeWithin(n, xs);
      }
    }

    /** The samples of a packet of `n`: the middle of `avb1722_create_packet`. */
    method MakePayload(n: int, ghost xs: seq<seq<uint32>>) returns (presentationTime: uint32, timerValid: bool)
      requires Valid() && 1 <= n <= samplesPerPacketBase + 1 && n <= samplesPerFifoPacket
      requires AllHave(queues, if initial || samplesLeftInFifoPacket < n then 2 else 1, samplesPerFifoPacket)
      requires xs == Takens(queues, Gone(Current()), n)
      modifies this`queues, this`ptrs, this`dbcAtStartOfLastFifoPacket, this`initial, this`samplesLeftInFifoPacket,
               payload
      ensures Valid() && !initial && Filled(xs)
      ensures queues == QueuesAfter(old(Current()), n, old(queues))
      ensures samplesLeftInFifoPacket == LeftAfter(old(Current()), n)
      ensures dbcAtStartOfLastFifoPacket == Head(queues).dbc
      ensures timerValid <==> old(initial) || Straddles(old(Current()), n)
      ensures timerValid ==> presentationTime == Head(queues).ts
    {
      assert Sound(Configuration) && Sound(Position);
      KeepsPackets(Current(), n, queues);
      RoomForRows(n, samplesPerPacketBase + 1, channels, payload.Length);
      presentationTime, timerValid := MakeSamples(n, xs);
    }

    /** The check of all channels for data; the fill level of a FIFO is what `FillLevel` counts. */
    method IsStarved(n: int) returns (starved: bool)
      requires channels == |queues| && samplesPerFifoPacket >= 1
      ensures starved <==> Starved(Current(), queues, n)
    {
      var i := 0;
      while i < channels
        invariant 0 <= i <= |queues|
        invariant initial || samplesLeftInFifoPacket < n ==> forall c :: 0 <= c < i ==> |queues[c]| >= 2
      {
        var needMoreData := initial || samplesLeftInFifoPacket < n;
        if needMoreData {
          TwoPackets(samplesPerFifoPacket, |queues[i]|);
          if Product(samplesPerFifoPacket, |queues[i]|) < 2 * samplesPerFifoPacket {
            return true;
          }
        }
        i := i + 1;
      }
      return false;
    }

    /** The samples of the packet to come, with the fractions carried on. */
    method Advance() returns (n: int)
      requires Valid()
      modifies this`rem
      ensures Valid() && Current() == Advanced(old(Current())) && n == PacketSamples(old(Current()))
    {
      assert Sound(Configuration) && Sound(Supply) && Sound(Position);
      n := samplesPerPacketBase;
      rem := rem + samplesPerPacketFractional;
      if rem >= TWO_TO_16 {
        n := n + 1;
        rem := rem % TWO_TO_16;
      }
    }

    /**
     `avb1722_create_packet`. `fed` says that some FIFO of the stream is being filled. A size of 0 means that there
     is no packet; the fractions advance all the same, unless the stream has not started. The source sets `transmit_ok`
     on the way and clears it before it returns.
     */
    method CreatePacket(timeInfo: GptpTime.TimeInfo, time: uint32, fed: bool) returns (size: int)
      requires Valid()
      modifies this, payload, header
      ensures Valid()
      ensures var s, n := old(Current()), PacketSamples(old(Current()));
              if !Makes(s, old(queues), fifoSize, time, fed) then
                && size == 0 && queues == old(queues)
                && Current() == if Starting(s, old(queues), fifoSize) then s else Advanced(s)
              else Emitted(s, n, old(queues), old(header[..]), timeInfo, size)
    {
      assert Sound(Configuration);
      if initial && Product(samplesPerFifoPacket, |queues[0]|) < fifoSize / 2 {
        return 0;
      }
      ghost var s := Current();
      var samplesInPacket := Advance();
      var starved := IsStarved(samplesInPacket);
      if starved || !fed {
        return 0;
      }
      if !initial && !transmitOk {
        var elapsed := Signed32(time - lastTransmitTime);
        if elapsed < PACKET_PERIOD_TIMER_TICKS {
          return 0;
        }
      }
      EnoughPackets(samplesInPacket);
      size := Emit(samplesInPacket, timeInfo, s);
    }

    /** A packet of `n` samples has gone out of the queues `qs` in progress `s`. */
    ghost predicate Emitted(s: Progress, n: int, qs: seq<seq<FifoPacket>>, h: seq<byte>, timeInfo: GptpTime.TimeInfo,
                            size: int)
      reads this, payload, header
    {
      && 0 <= Cell(n, 0, channels) && |h| == HDR_SIZE
      && size == HDR_SIZE + 4 * Cell(n, 0, channels)
      && queues == QueuesAfter(s, n, qs) && Current() == Sent(s, n, Head(queues))
      && Filled(Takens(qs, Gone(s), n))
      && header[..] == HeaderOf(h, s, n, Head(queues), timeInfo)
    }

    /** The samples of the packet, and what its header will say. `s` is the progress before it. */
    method EmitPayload(n: int, ghost s: Progress, ghost xs: seq<seq<uint32>>)
      returns (presentationTime: uint32, timerValid: bool, dbc: byte)
      requires Valid() && n == PacketSamples(s) && Configured(s) && Current() == Advanced(s)
      requires AllHave(queues, if initial || samplesLeftInFifoPacket < n then 2 else 1, samplesPerFifoPacket)
      requires xs == Takens(queues, Gone(s), n)
      modifies this`queues, this`ptrs, this`dbcAtStartOfLastFifoPacket, this`initial, this`samplesLeftInFifoPacket,
               payload
      ensures Valid() && queues == QueuesAfter(s, n, old(queues)) && Filled(xs)
      ensures Current() == Advanced(s).(left := LeftAfter(s, n), initial := false, dbcAtStart := Head(queues).dbc)
      ensures timerValid <==> s.initial || Straddles(s, n)
      ensures timerValid ==> presentationTime == Head(queues).ts
      ensures !timerValid ==> Head(queues).dbc == s.dbcAtStart
      ensures dbc == BlockCount(s, Head(queues))
    {
      assert Sound(Configuration) && Sound(Position);
      var count := Wrap32(dbcAtStartOfLastFifoPacket + samplesPerFifoPacket - samplesLeftInFifoPacket);
      var wasInitial := initial;
      presentationTime, timerValid := MakePayload(n, xs);
      if wasInitial {
        count := dbcAtStartOfLastFifoPacket;
      }
      dbc := count % 256;
    }

    /** The end of a packet. */
    method Finish()
      requires Valid()
      modifies this`transmitOk, this`sequenceNumber
      ensures Valid()
      ensures Current() == old(Current()).(transmitOk := false, sequence := (old(sequenceNumber) + 1) % 256)
    {
      assert Sound(Configuration) && Sound(Supply) && Sound(Position);
      transmitOk := false;
      sequenceNumber := (sequenceNumber + 1) % 256;
      assert Sound(Configuration) && Sound(Supply) && Sound(Position);
    }

    /** A packet of `n` samples goes out: samples, header and progress. `s` is the progress before it. */
    method Emit(n: int, timeInfo: GptpTime.TimeInfo, ghost s: Progress) returns (size: int)
      requires Valid() && n == PacketSamples(s) && Configured(s) && Current() == Advanced(s)
      requires AllHave(queues, if initial || samplesLeftInFifoPacket < n then 2 else 1, samplesPerFifoPacket)
      modifies this, payload, header
      ensures Valid() && Emitted(s, n, old(queues), old(header[..]), timeInfo, size)
    {
      assert Sound(Configuration);
      CellNonNegative(n, 0, channels);
      var presentationTime, timerValid, dbc := EmitPayload(n, s, Takens(queues, Gone(s), n));
      StampedAs(old(header[..]), s, n, Head(queues), timeInfo, dbc, timerValid, presentationTime);
      size := StampHeader(n, dbc, timerValid, presentationTime, timeInfo);
      Finish();
    }

    /** What the header is stamped with is what it should say. */
    lemma StampedAs(h: Header, s: Progress, n: int, head: FifoPacket, timeInfo: GptpTime.TimeInfo, dbc: byte,
                    valid: bool, ts: uint32)
      requires 0 <= Cell(n, 0, channels) && dbc == BlockCount(s, head)
      requires (valid <==> s.initial || Straddles(s, n)) && (valid ==> ts == head.ts)
      ensures Avtp.Stamped(h, dbc, valid, PtpTime(valid, ts, timeInfo), CIP_HDR_SIZE + 4 * Cell(n, 0, channels),
                           s.sequence, streamId0) == HeaderOf(h, s, n, head, timeInfo)
    {
    }

    /** The presentation time as PTP time, or 0 if there is none. */
    method ConvertTime(timerValid: bool, presentationTime: uint32, timeInfo: GptpTime.TimeInfo)
      returns (ptpTs: uint32)
      ensures ptpTs == PtpTime(timerValid, presentationTime, timeInfo)
    {
      ptpTs := 0;
      if timerValid {
        ptpTs := GptpTime.LocalToMod32(presentationTime, timeInfo);
        ptpTs := Wrap32(ptpTs + presentationDelay);
      }
    }

    method StampHeader(n: int, dbc: byte, timerValid: bool, presentationTime: uint32, timeInfo: GptpTime.TimeInfo)
      returns (size: int)
      requires header.Length == HDR_SIZE && 0 <= Cell(n, 0, channels)
      modifies header
      ensures size == HDR_SIZE + 4 * Cell(n, 0, channels)
      ensures header[..] == Avtp.Stamped(old(header[..]), dbc, timerValid,
                                         PtpTime(timerValid, presentationTime, timeInfo),
                                         CIP_HDR_SIZE + 4 * Cell(n, 0, channels), sequenceNumber, streamId0)
    {
      var length := CIP_HDR_SIZE + 4 * Cell(n, 0, channels);
      var ptpTs := ConvertTime(timerValid, presentationTime, timeInfo);
      HeaderGen(header, dbc, timerValid, ptpTs, length, sequenceNumber, streamId0);
      size := ETHERNET_HDR_SIZE + TP_HDR_SIZE + length;
    }

    /** The timestamp a packet carries. */
    function PtpTime(valid: bool, ts: uint32, timeInfo: GptpTime.TimeInfo): uint32 {
      if valid then PresentedAt(ts, timeInfo, presentationDelay) else 0
    }

    lemma KeepsPackets(s: Progress, n: int, qs: seq<seq<FifoPacket>>)
      requires AllHave(qs, if s.initial || s.left < n then 2 else 1, s.interval)
      ensures AllHave(QueuesAfter(s, n, qs), 1, s.interval)
    {
      var after := QueuesAfter(s, n, qs);
      forall c | 0 <= c < |after| ensures Has(after[c], 1, s.interval) {
        assert Has(qs[c], if s.initial || s.left < n then 2 else 1, s.interval);
      }
    }

    lemma EnoughPackets(n: int)
      requires Valid() && !Starved(Current(), queues, n)
      ensures AllHave(queues, if initial || samplesLeftInFifoPacket < n then 2 else 1, samplesPerFifoPacket)
    {
      assert Sound(Supply);
      forall c | 0 <= c < |queues|
        ensures Has(queues[c], if initial || samplesLeftInFifoPacket < n then 2 else 1, samplesPerFifoPacket)
      {
        assert Has(queues[c], if initial then 0 else 1, samplesPerFifoPacket);
      }
    }

    /** The header of a packet of `n` samples. */
    function HeaderOf(h: Header, s: Progress, n: int, head: FifoPacket, timeInfo: GptpTime.TimeInfo): Header
      requires 0 <= Cell(n, 0, channels)
    {
      var valid := s.initial || Straddles(s, n);
      Avtp.Stamped(h, BlockCount(s, head), valid, PtpTime(valid, head.ts, timeInfo),
                   CIP_HDR_SIZE + 4 * Cell(n, 0, channels), s.sequence, streamId0)
    }
  }

  /** Writing the first rows of column `i` leaves the columns before it alone. */
  lemma ColumnsKept(was: seq<uint32>, now: seq<uint32>, channels: int, i: int, from: int, n: int,
                    xs: seq<seq<uint32>>, tag: Label)
    requires 0 <= i < channels == |xs| && SameButColumn(was, now, channels, i, from, n)
    requires forall c :: 0 <= c < i ==> ColumnHolds(was, channels, c, 0, xs[c], tag)
    ensures forall c :: 0 <= c < i ==> ColumnHolds(now, channels, c, 0, xs[c], tag)
  {
    forall c | 0 <= c < i ensures ColumnHolds(now, channels, c, 0, xs[c], tag) {
      ColumnKept(was, now, channels, i, from, n, c, 0, xs[c], tag);
    }
  }

  /** Column `i` grows by its part; the others stay. */
  lemma ColumnGrows(was: seq<uint32>, now: seq<uint32>, channels: int, i: int, from: int, n: int,
                    xs: seq<seq<uint32>>, parts: seq<seq<uint32>>, tag: Label)
    requires 0 <= i < channels == |xs| == |parts| && SameButColumn(was, now, channels, i, from, n)
    requires |xs[i]| == from && ColumnHolds(now, channels, i, from, parts[i], tag)
    requires forall c :: 0 <= c < channels ==>
      ColumnHolds(was, channels, c, 0, if c < i then xs[c] + parts[c] else xs[c], tag)
    ensures forall c :: 0 <= c < channels ==>
      ColumnHolds(now, channels, c, 0, if c < i + 1 then xs[c] + parts[c] else xs[c], tag)
  {
    forall c | 0 <= c < channels
      ensures ColumnHolds(now, channels, c, 0, if c < i + 1 then xs[c] + parts[c] else xs[c], tag)
    {
      var column := if c < i then xs[c] + parts[c] else xs[c];
      ColumnKept(was, now, channels, i, from, n, c, 0, column, tag);
      if c == i {
        ColumnJoin(now, channels, i, 0, xs[i], parts[i], tag);
      }
    }
  }
}
