/**
 The listener's side of an audio stream: the channel count and the rate are inferred from block counts, timestamps
 are attributed to samples, and the samples are handed to the output FIFOs of their channels
 (module_avb_1722/src/avb_1722_listener_support_audio.c).
 */
module Listener {
  import opened Bytes
  import opened Avtp
  import opened OutputFifo
  import InputFifo

  const LOCK_COUNT := 16

  // ---------- what a header says ----------

  /** Frame bytes in front of the samples; without a VLAN tag there are four fewer. */
  type Front = b: seq<byte> | |b| == 50 || |b| == 46 witness seq(50, _ => 0)

  function EthernetSize(b: Front): int {
    if b[12] == 0x81 then 18 else 14
  }

  predicate Complete(b: Front) {
    |b| == EthernetSize(b) + TP_HDR_SIZE + CIP_HDR_SIZE
  }

  datatype Heading = Heading(control: bool, streamIdValid: bool, timestampValid: bool, timestamp: nat, length: nat,
                             dbc: byte)

  function ReadHeading(b: Front): Heading
    requires Complete(b)
  {
    var e := EthernetSize(b);
    Heading(b[e] >= 128, b[e + 1] >= 128, b[e + 1] % 2 == 1, BeNat(b[e + 12..e + 16]), BeNat(b[e + 20..e + 22]),
            b[e + TP_HDR_SIZE + 3])
  }

  // ---------- locking ----------

  /** The part of a stream's state that packets are inferred from. */
  datatype Lock = Lock(dbc: int, prevNumSamples: int, channels: int, count: int, rate: int)

  /** A configured stream that has heard nothing. */
  function Unlocked(rate: int): Lock {
    Lock(-1, 0, 0, 0, rate)
  }

  function BlockDifference(dbc: int, before: int): int {
    if dbc - before < 0 then dbc - before + 256 else dbc - before
  }

  /** The words of samples in a packet. */
  function PayloadWords(length: int): int {
    ShiftRight(length - 8, 4)
  }

  /** The rate that goes with so many samples per packet and channel. */
  function RateOf(samplesPerPacket: int): int {
    if samplesPerPacket == 1 then 8000
    else if samplesPerPacket == 2 then 16000
    else if samplesPerPacket == 4 then 32000
    else if samplesPerPacket == 5 then 44100
    else if samplesPerPacket == 6 then 48000
    else if samplesPerPacket == 11 then 88200
    else if samplesPerPacket == 12 then 96000
    else 0
  }

  /** One packet heard by a stream that is not locked yet: a guess of the channels, confirmed or begun again. */
  function Guessed(l: Lock, channels: int, words: int): Lock {
    var again := l.channels == 0 || l.channels != channels;
    var count, rate := (if again then 0 else l.count) + 1, (if again then 0 else l.rate) + words;
    l.(channels := channels, count := count,
       rate := if count == LOCK_COUNT && channels != 0 then RateOf(TruncDiv(TruncDiv(rate, channels), 16)) else rate)
  }

  /** The state after any packet. */
  function Observed(l: Lock, dbc: int, words: int): Lock {
    var difference, seen := BlockDifference(dbc, l.dbc), l.(dbc := dbc, prevNumSamples := words);
    if l.count >= LOCK_COUNT || l.prevNumSamples == 0 || difference == 0 then seen
    else Guessed(seen, TruncDiv(l.prevNumSamples, difference), words)
  }

  /** Channel `c` of `n` words pushed, if the payload has that channel and it is wanted. */
  function PushedColumn(r: Ring, words: seq<uint32>, c: int, channels: int, n: int, wanted: bool): Ring
    requires InRange(r) && 0 <= c
    requires channels > 0 ==>
      forall i, k :: 0 <= i < channels && 0 <= k < Rows(n, channels) ==> 0 <= Cell(k, i, channels) < |words|
  {
    if wanted && c < channels then
      RowsBound(n, channels, 0);
      Pushed(r, Column(words, c, channels, Rows(n, channels)))
    else r
  }

  /**
   The sample a timestamp is for. At a rate the listener does not know the source computes it from an interval that it
   never assigned; `stray` is what comes out then.
   */
  function Attributed(h: Heading, l: Lock, stray: nat): nat {
    var p := InputFifo.SytInterval(l.rate);
    if p > 0 then SampleNumber(h.dbc, p) else stray
  }

  /** The timestamp of the packet attached to its sample. */
  function MarkedBy(r: Ring, h: Heading, l: Lock, stray: nat): Ring
    requires InRange(r)
    ensures InRange(MarkedBy(r, h, l, stray)) && |MarkedBy(r, h, l, stray).cells| == |r.cells|
  {
    if h.timestampValid then Marked(r, Wrap32(h.timestamp), Attributed(h, l, stray)) else r
  }

  /** What the FIFO of channel `c` of a locked stream makes of a packet. */
  function Played(r: Ring, h: Heading, l: Lock, stray: nat, c: int, words: seq<uint32>): Ring
    requires InRange(r) && 0 <= c && PayloadFits(h, l, words)
    ensures InRange(Played(r, h, l, stray, c, words))
  {
    PushedColumn(Maintained(MarkedBy(r, h, l, stray)), words, c, l.channels, PayloadWords(h.length), true)
  }

  /** The words the header announces are there, for every channel. */
  predicate PayloadFits(h: Heading, l: Lock, words: seq<uint32>) {
    l.channels > 0 ==>
      var rows := Rows(PayloadWords(h.length), l.channels);
      forall i, k :: 0 <= i < l.channels && 0 <= k < rows ==> 0 <= Cell(k, i, l.channels) < |words|
  }

  // ---------- the listener ----------

  class AudioListener {
    const fifos: seq<MediaOutputFifo?>
    var chanLock: int
    var rate: int
    var prevNumSamples: int
    var numChannelsInPayload: int
    var numChannels: int
    var dbc: int

    function Current(): Lock
      reads this
    {
      Lock(dbc, prevNumSamples, numChannelsInPayload, chanLock, rate)
    }

    function Objects(): set<object> {
      (set i | 0 <= i < |fifos| && fifos[i] != null :: fifos[i])
      + (set i | 0 <= i < |fifos| && fifos[i] != null :: (fifos[i] as MediaOutputFifo).fifo)
    }

    /** No two channels share a FIFO. */
    ghost predicate Apart() {
      forall i, j :: 0 <= i < j < |fifos| && fifos[i] != null && fifos[j] != null ==>
        fifos[i] != fifos[j] && (fifos[i] as MediaOutputFifo).fifo != (fifos[j] as MediaOutputFifo).fifo
    }

    /** The FIFO of channel `i`, if it has one, is in state `r`. */
    ghost predicate Is(i: int, r: Ring)
      reads Objects()
    {
      0 <= i < |fifos| && fifos[i] != null ==>
        (fifos[i] as MediaOutputFifo).Current() == r && InRange(r)
    }

    /** `configure_stream`: a stream that has heard nothing. */
    constructor (fifos: seq<MediaOutputFifo?>, rate: int)
      ensures this.fifos == fifos && numChannels == |fifos| && Current() == Unlocked(rate)
    {
      this.fifos, numChannels, this.rate := fifos, |fifos|, rate;
      numChannelsInPayload, chanLock, prevNumSamples, dbc := 0, 0, 0, -1;
    }

    method MarkAll(h: Heading, k: nat, ghost rs: seq<Ring>)
      requires Apart() && 0 <= numChannels <= |fifos| == |rs| && forall j :: 0 <= j < |rs| ==> Is(j, rs[j])
      modifies Objects()
      ensures forall j :: 0 <= j < |rs| ==>
        Is(j, if j < numChannels then Marked(rs[j], Wrap32(h.timestamp), k) else rs[j])
    {
      var i := 0;
      while i < numChannels
        invariant 0 <= i <= numChannels
        invariant forall j :: 0 <= j < |rs| ==> Is(j, if j < i then Marked(rs[j], Wrap32(h.timestamp), k) else rs[j])
      {
        if fifos[i] != null {
          assert Is(i, rs[i]);
          fifos[i].SetPtpTimestamp(Wrap32(h.timestamp), k);
        }
        i := i + 1;
      }
    }

    method MaintainAll(ghost rs: seq<Ring>)
      requires Apart() && 0 <= numChannels <= |fifos| == |rs| && forall j :: 0 <= j < |rs| ==> Is(j, rs[j])
      requires forall j :: 0 <= j < |rs| ==> InRange(rs[j])
      modifies Objects()
      ensures forall j :: 0 <= j < |rs| ==> Is(j, if j < numChannels then Maintained(rs[j]) else rs[j])
    {
      var i := 0;
      while i < numChannels
        invariant 0 <= i <= numChannels
        invariant forall j :: 0 <= j < |rs| ==> Is(j, if j < i then Maintained(rs[j]) else rs[j])
      {
        if fifos[i] != null {
          assert Is(i, rs[i]);
          fifos[i].Maintain();
        }
        i := i + 1;
      }
    }

    method PushAll(words: seq<uint32>, n: int, ghost rs: seq<Ring>)
      requires Apart() && 0 <= numChannels <= |fifos| == |rs| && forall j :: 0 <= j < |rs| ==> Is(j, rs[j])
      requires forall j :: 0 <= j < |rs| ==> InRange(rs[j])
      requires numChannelsInPayload > 0 ==>
        forall i, k :: 0 <= i < numChannelsInPayload && 0 <= k < Rows(n, numChannelsInPayload) ==>
          0 <= Cell(k, i, numChannelsInPayload) < |words|
      modifies Objects()
      ensures forall j :: 0 <= j < |rs| ==>
        Is(j, PushedColumn(rs[j], words, j, numChannelsInPayload, n, j < numChannels))
    {
      var channels := if numChannels < numChannelsInPayload then numChannels else numChannelsInPayload;
      var i := 0;
      while i < channels
        invariant 0 <= i && (channels >= 0 ==> i <= channels)
        invariant forall j :: 0 <= j < |rs| ==> Is(j, PushedColumn(rs[j], words, j, numChannelsInPayload, n, j < i))
      {
        if fifos[i] != null {
          assert Is(i, PushedColumn(rs[i], words, i, numChannelsInPayload, n, false));
          fifos[i].StridedPush(words, i, numChannelsInPayload, n);
        }
        i := i + 1;
      }
    }

    /** The guess of channels and rate from one more packet. */
    method Guess(words: int, channels: int)
      modifies this`numChannelsInPayload, this`chanLock, this`rate
      ensures Current() == Guessed(old(Current()), channels, words)
    {
      if numChannelsInPayload == 0 || numChannelsInPayload != channels {
        numChannelsInPayload := channels;
        chanLock := 0;
        rate := 0;
      }
      rate := rate + words;
      chanLock := chanLock + 1;
      if chanLock == LOCK_COUNT && numChannelsInPayload != 0 {
        rate := RateOf(TruncDiv(TruncDiv(rate, numChannelsInPayload), 16));
      }
    }

    /** `avb_1722_listener_process_packet`; `rs` are the states of the FIFOs. */
    method ProcessPacket(b: Front, words: seq<uint32>, numBytes: int, stray: nat, ghost rs: seq<Ring>)
      returns (processed: bool)
      requires Apart() && 0 <= numChannels <= |fifos| == |rs| && forall j :: 0 <= j < |rs| ==> Is(j, rs[j])
      requires forall j :: 0 <= j < |rs| ==> InRange(rs[j])
      requires Complete(b) && PayloadFits(ReadHeading(b), Current(), words)
      modifies this, Objects()
      ensures numChannels == old(numChannels)
      ensures var h := ReadHeading(b);
              var heard := numBytes > |b| && !h.control && h.streamIdValid;
              && Current() == (if heard then Observed(old(Current()), h.dbc, PayloadWords(h.length))
                                else old(Current()))
              && (processed <==> heard && old(chanLock) >= LOCK_COUNT)
      ensures forall j :: 0 <= j < |rs| ==>
        Is(j, if processed && j < numChannels then Played(rs[j], ReadHeading(b), old(Current()), stray, j, words)
              else rs[j])
    {
      var h := ReadHeading(b);
      if numBytes <= EthernetSize(b) + TP_HDR_SIZE + CIP_HDR_SIZE || h.control || !h.streamIdValid {
        return false;
      }
      var dbcDiff := h.dbc - dbc;
      dbc := h.dbc;
      if dbcDiff < 0 {
        dbcDiff := dbcDiff + 256;
      }
      var numSamplesInPayload := PayloadWords(h.length);
      var prev := prevNumSamples;
      prevNumSamples := numSamplesInPayload;
      if chanLock < LOCK_COUNT {
        if prev == 0 || dbcDiff == 0 {
          return false;
        }
        Guess(numSamplesInPayload, TruncDiv(prev, dbcDiff));
        return false;
      }
      Play(h, words, stray, rs);
      processed := true;
    }

    /** A packet of a locked stream goes to the FIFOs. */
    method Play(h: Heading, words: seq<uint32>, stray: nat, ghost rs: seq<Ring>)
      requires Apart() && 0 <= numChannels <= |fifos| == |rs| && forall j :: 0 <= j < |rs| ==> Is(j, rs[j])
      requires forall j :: 0 <= j < |rs| ==> InRange(rs[j])
      requires PayloadFits(h, Current(), words)
      modifies Objects()
      ensures forall j :: 0 <= j < |rs| ==>
        Is(j, if j < numChannels then Played(rs[j], h, Current(), stray, j, words) else rs[j])
    {
      ghost var l, n := Current(), numChannels;
      ghost var marked := MarkedRings(rs, n, h, l, stray);
      if h.timestampValid && |fifos| > 0 {
        MarkAll(h, Attributed(h, Current(), stray), rs);
      }
      assert forall j :: 0 <= j < |marked| ==> Is(j, marked[j]);
      MaintainAll(marked);
      ghost var maintained := MaintainedRings(marked, n);
      assert forall j :: 0 <= j < |maintained| ==> Is(j, maintained[j]);
      PushAll(words, PayloadWords(h.length), maintained);
    }
  }

  /** The FIFOs with the packet's timestamp attached. */
  ghost function MarkedRings(rs: seq<Ring>, n: int, h: Heading, l: Lock, stray: nat): (ms: seq<Ring>)
    requires forall j :: 0 <= j < |rs| ==> InRange(rs[j])
    ensures |ms| == |rs|
    ensures forall j :: 0 <= j < |ms| ==>
      ms[j] == (if j < n then MarkedBy(rs[j], h, l, stray) else rs[j]) && InRange(ms[j])
  {
    seq(|rs|, j requires 0 <= j < |rs| => if j < n then MarkedBy(rs[j], h, l, stray) else rs[j])
  }

  ghost function MaintainedRings(rs: seq<Ring>, n: int): (ms: seq<Ring>)
    requires forall j :: 0 <= j < |rs| ==> InRange(rs[j])
    ensures |ms| == |rs|
    ensures forall j :: 0 <= j < |ms| ==> ms[j] == (if j < n then Maintained(rs[j]) else rs[j]) && InRange(ms[j])
  {
    seq(|rs|, j requires 0 <= j < |rs| => if j < n then Maintained(rs[j]) else rs[j])
  }
}
