/**
 Timestamps from the input FIFOs to the output FIFOs, over whole runs of a talker and of a listener: the pair of times
 that the media clock is recovered from.
 */
module AudioTimestamps {
  import opened Bytes
  import opened Wrappers
  import opened Avtp
  import opened InputFifo
  import opened Talker
  import opened TalkerRuns
  import opened TalkerSupply
  import opened TalkerTimestamps
  import opened Listener
  import opened OutputFifoRuns
  import opened AudioPath
  import opened AudioDelivery
  import GptpTime
  import OutputFifo

  /** A talker of `rate`, at its start. */
  ghost predicate TalksAt(u: Source, rate: int) {
    && AtStart(u) && u.s.interval == SytInterval(rate) > 0
    && u.s.base == Started(rate).base && u.s.fractional == Started(rate).fractional
  }

  /** What a listener has found out when it has heard all packets so far. */
  lemma TalkerIsFound(rate: int, u: Source, events: seq<Event>, ownRate: int)
    requires TalksAt(u, rate) && Inferable(rate) && NeverOverflows(u, events) && |Runs(u, events).1| >= 17
    ensures var l := AudioPath.Heard(Unlocked(ownRate), Runs(u, events).1, |u.fs|);
            l.channels == |u.fs| && SytInterval(l.rate) == SytInterval(rate)
  {
    StartIsOrderly(u);
    RunAsSeen(u, events);
    ListenerFindsRate(rate, StreamOf(u), Inputs(u, events), |u.fs|, ownRate);
  }

  /** Behind `at` samples of every channel, the packet's timestamp is for a sample of `given`, and of `last`'s time. */
  ghost predicate StampsPush(p: Sending, c: nat, at: int, interval: int, given: seq<Stamped>, last: seq<Stamped>) {
    interval > 0 && 0 <= at && c < |p.xs| &&
    var k := SampleNumber(p.dbc, interval);
    && 0 <= k < p.n && at + k < |given| && at + k < |last| && BeginsPacket(at + k, interval)
    && p.ts == last[at + k].ts && (k < |p.xs[c]| ==> p.xs[c][k] == given[at + k].sample)
  }

  lemma TimedStampsPush(p: Sending, c: nat, at: int, interval: int, given: seq<Stamped>, last: seq<Stamped>)
    requires TimedRight(p, at, interval, last) && HoldsSamples(p, c, at, given) && p.valid
    ensures StampsPush(p, c, at, interval, given, last)
  {
  }

  lemma NextStampsPush(u: Source, events: seq<Event>, time: uint32, fed: bool, c: nat, v: Source, sent: seq<Sending>,
                       p: Sending)
    requires AtStart(u) && IsSytInterval(u.s.interval) && NeverOverflows(u, events) && c < |u.fs|
    requires Runs(u, events) == (v, sent) && Next(v, Poll(time, fed)).1 == Some(p) && p.valid
    ensures |StreamOf(v).qs| == |u.fs| && p == PacketOf(StreamOf(v))
    ensures StampsPush(p, c, Total(sent), u.s.interval, Given(events, c), Given(events, |u.fs| - 1))
  {
    RunKeepsShape(u, events);
    NextIsTimed(u, events, time, fed);
    NextHolds(u, events, time, fed, c);
    TimedStampsPush(p, c, Total(sent), u.s.interval, Given(events, c), Given(events, |u.fs| - 1));
  }

  /**
   Timestamps end to end, over every run of a talker at a rate that a listener knows, whose input FIFOs never overflow,
   and every run of the listener from its configuration on, with any playout, adjustments and resets. When the next
   packet has a timestamp, arrives at a FIFO that plays and awaits one, and fits, then whatever is pushed and played
   next, the FIFO of channel `c` holds the presentation time of a push on the last channel, and the local time it
   records beside it is the time at which the sample pushed at the same place on channel `c` was played out.
   */
  lemma TimestampsArriveInEveryRun(rate: int, a: AudioTalker, h: Header, timeInfo: GptpTime.TimeInfo, u: Source,
                                   events: seq<Event>, time: uint32, fed: bool, v: Source, sent: seq<Sending>,
                                   p: Sending, c: nat, e: Ear, ownRate: int, hops: seq<Hop>, f: Ear, words: seq<uint32>,
                                   tag: Label, stray: nat, ops: seq<OutputFifoRuns.Operation>)
    requires TalksAt(u, rate) && Inferable(rate) && NeverOverflows(u, events) && c < |u.fs| == a.channels && Prepared(h)
    requires Runs(u, events) == (v, sent) && |sent| >= 17 && Next(v, Poll(time, fed)).1 == Some(p)
    requires e.l == Unlocked(ownRate) && Flows(e, c, |u.fs|, hops, tag) && Packets(hops) == sent
    requires f == After(e, c, |u.fs|, hops, tag) && Arrives(p, c, f.r, f.l, words, tag) && AllPlay(ops)
    ensures var k, i := SampleNumber(p.dbc, u.s.interval), Total(sent) + SampleNumber(p.dbc, u.s.interval);
            && 0 <= i < |Given(events, c)| && i < |Given(events, |u.fs| - 1)| && BeginsPacket(i, u.s.interval)
            && PairRecorded(a, h, timeInfo, StreamOf(v), f.r, f.l, c, words, stray, ops, k, Given(events, c)[i].sample,
                            Given(events, |u.fs| - 1)[i].ts)
  {
    var k, i := SampleNumber(p.dbc, u.s.interval), Total(sent) + SampleNumber(p.dbc, u.s.interval);
    TalkerIsFound(rate, u, events, ownRate);
    LockFollowsPackets(e, c, |u.fs|, hops, tag);
    NextStampsPush(u, events, time, fed, c, v, sent, p);
    var x := Given(events, c)[i].sample;
    PacketRecordsPair(a, h, timeInfo, StreamOf(v), p, f.r, f.l, c, words, tag, stray, ops, k, x);
  }

  // ---------- which timestamps count ----------

  /** Maintenance has ended the zeroing of the FIFO. */
  predicate EndsZeroing(r: OutputFifo.Ring, s: OutputFifo.Ring) {
    r.mode.Zeroing? && s.mode.Locking?
  }

  /** The timestamp a report would hand over, after one more hop from `e` to `f`. */
  function PendingAfter(before: Option<uint32>, e: Ear, h: Hop, f: Ear): Option<uint32> {
    if h.Report? || h.Adjust? || EndsZeroing(e.r, f.r) then None
    else if h.Arrive? && e.l.count >= LOCK_COUNT && h.p.valid && before.None? then Some(Recorded(h.ts))
    else before
  }

  /**
   The first valid timestamp that reached the locked listener since the last report, adjustment or lock of the FIFO.
   */
  ghost function FirstValid(e: Ear, c: nat, channels: int, hops: seq<Hop>, tag: Label): Option<uint32>
    requires Flows(e, c, channels, hops, tag)
  {
    if hops == [] then None
    else
      var shorter := hops[..|hops| - 1];
      PendingAfter(FirstValid(e, c, channels, shorter, tag), AudioDelivery.After(e, c, channels, shorter, tag),
                   hops[|hops| - 1], AudioDelivery.After(e, c, channels, hops, tag))
  }

  lemma PlayedAwaits(r: OutputFifo.Ring, h: Heading, l: Lock, stray: nat, c: nat, words: seq<uint32>,
                     ts: Option<uint32>)
    requires OutputFifo.InRange(r) && PayloadFits(h, l, words) && Awaits(r, ts)
    ensures var s := Listener.Played(r, h, l, stray, c, words);
            Awaits(s, if EndsZeroing(r, s) then None
                      else if h.timestampValid && ts.None? then Some(Recorded(Wrap32(h.timestamp))) else ts)
  {
    var m := OutputFifo.Maintained(MarkedBy(r, h, l, stray));
    if c < l.channels {
      OutputFifo.RowsBound(PayloadWords(h.length), l.channels, 0);
      var rows := OutputFifo.Rows(PayloadWords(h.length), l.channels);
      OutputFifoRuns.PushKeepsReader(m, OutputFifo.Column(words, c, l.channels, rows));
    }
  }

  lemma HopAwaits(e: Ear, c: nat, channels: int, h: Hop, tag: Label, ts: Option<uint32>)
    requires Takes(e, c, channels, h, tag) && Awaits(e.r, ts)
    ensures Awaits(Hopped(e, c, channels, h, tag).r, PendingAfter(ts, e, h, Hopped(e, c, channels, h, tag)))
  {
    if h.Arrive? && e.l.count >= LOCK_COUNT {
      PlayedAwaits(e.r, HeadingOf(h.p, channels, h.ts), e.l, h.stray, c, h.words, ts);
    }
  }

  /**
   In every run of a listener from its configuration on, a report to the media clock hands over the first valid
   timestamp that came since the one before: packets without one leave it alone, and later ones wait for the next
   report.
   */
  lemma {:induction false} ReportsFirstValidTimestamp(r: OutputFifo.Ring, ownRate: int, c: nat, channels: int,
                                                      hops: seq<Hop>, tag: Label)
    requires OutputFifo.InRange(r) && Flows(Configure(r, ownRate), c, channels, hops, tag)
    ensures Awaits(AudioDelivery.After(Configure(r, ownRate), c, channels, hops, tag).r,
                   FirstValid(Configure(r, ownRate), c, channels, hops, tag))
  {
    var e := Configure(r, ownRate);
    if hops == [] {
    } else {
      var shorter := hops[..|hops| - 1];
      ReportsFirstValidTimestamp(r, ownRate, c, channels, shorter, tag);
      HopAwaits(AudioDelivery.After(e, c, channels, shorter, tag), c, channels, hops[|hops| - 1], tag,
                FirstValid(e, c, channels, shorter, tag));
    }
  }
}
