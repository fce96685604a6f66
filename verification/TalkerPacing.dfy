/**
 When a talker sends, and what its headers say of time and order: packets a period apart, sequence numbers without a
 gap, and presentation times that are real PTP times (module_avb_1722/src/avb_1722_talker_support_audio.c).
 */
module TalkerPacing {
  import opened Bytes
  import opened Wrappers
  import opened Avtp
  import opened Talker
  import opened TalkerRuns
  import opened AudioPath
  import opened GptpTime
  import opened GptpRate

  /** The times at which packets are made. */
  function Departures(t: Stream, inputs: seq<Input>): seq<uint32> {
    if inputs == [] then []
    else
      var u, i := TalkerRuns.Run(t, inputs[..|inputs| - 1]).0, inputs[|inputs| - 1];
      Departures(t, inputs[..|inputs| - 1])
      + if i.Attempt? && Makes(u.s, u.qs, u.fifoSize, i.time, i.fed) then [i.time] else []
  }

  /** A period or more has gone by on the wrapping clock. */
  predicate PeriodOver(last: uint32, now: uint32) {
    Signed32(now - last) >= PACKET_PERIOD_TIMER_TICKS
  }

  /** Every packet is made at least a period after the one before. */
  predicate Apart(times: seq<uint32>) {
    forall k :: 0 < k < |times| ==> PeriodOver(times[k - 1], times[k])
  }

  /** What the talker remembers of the packets made since `first` was its sequence number. */
  predicate Remembers(s: Progress, times: seq<uint32>, first: byte) {
    && s.sequence == (first + |times|) % 256
    && (s.initial <==> times == [])
    && (times != [] ==> !s.transmitOk && s.lastTransmit == times[|times| - 1])
  }

  lemma StepRemembers(t: Stream, i: Input, times: seq<uint32>, first: byte)
    requires Remembers(t.s, times, first) && Apart(times)
    ensures var all := times + if i.Attempt? && Makes(t.s, t.qs, t.fifoSize, i.time, i.fed) then [i.time] else [];
            Remembers(Step(t, i).0.s, all, first) && Apart(all)
  {
    if i.Attempt? && Makes(t.s, t.qs, t.fifoSize, i.time, i.fed) {
      SequenceAfter(first, |times|);
    } else {
      assert times + [] == times;
    }
  }

  lemma SequenceAfter(first: byte, n: nat)
    ensures ((first + n) % 256 + 1) % 256 == (first + (n + 1)) % 256
  {
  }

  /**
   Over any run from the start packets are made at least a period apart on the wrapping clock, and are numbered one
   after the other, modulo 256.
   */
  lemma {:induction false} PacketsArePaced(t: Stream, inputs: seq<Input>)
    requires t.s.initial
    ensures var (u, sent), times := TalkerRuns.Run(t, inputs), Departures(t, inputs);
            |times| == |sent| && Apart(times) && Remembers(u.s, times, t.s.sequence)
  {
    if inputs == [] {
    } else {
      var shorter := inputs[..|inputs| - 1];
      PacketsArePaced(t, shorter);
      StepRemembers(TalkerRuns.Run(t, shorter).0, inputs[|inputs| - 1], Departures(t, shorter), t.s.sequence);
    }
  }

  lemma AttemptMakes(u: Stream, time: uint32, fed: bool)
    ensures Step(u, Attempt(time, fed)).1.Some? <==> Makes(u.s, u.qs, u.fifoSize, time, fed)
  {
  }

  lemma TooEarlyMeans(s: Progress, times: seq<uint32>, first: byte, time: uint32)
    requires Remembers(s, times, first)
    ensures TooEarly(s, time) <==> times != [] && !PeriodOver(times[|times| - 1], time)
  {
  }

  /**
   And no later than that: with enough in every FIFO, and one of them being filled, an attempt makes a packet exactly if
   it is the first or a period has gone by since the one before.
   */
  lemma SendsAsSoonAsAPeriodIsOver(t: Stream, inputs: seq<Input>, time: uint32, fed: bool)
    requires t.s.initial
    ensures var u, times := TalkerRuns.Run(t, inputs).0, Departures(t, inputs);
            Step(u, Attempt(time, fed)).1.Some? <==>
            && fed && !Starting(u.s, u.qs, u.fifoSize) && !Starved(u.s, u.qs, PacketSamples(u.s))
            && (times == [] || PeriodOver(times[|times| - 1], time))
  {
    var u := TalkerRuns.Run(t, inputs).0;
    PacketsArePaced(t, inputs);
    AttemptMakes(u, time, fed);
    TooEarlyMeans(u.s, Departures(t, inputs), t.s.sequence, time);
  }

  /** The header of the next packet carries its number. */
  lemma HeadersAreNumbered(a: AudioTalker, h: Header, t: Stream, inputs: seq<Input>, timeInfo: TimeInfo)
    requires t.s.initial && 0 <= Cell(PacketSamples(TalkerRuns.Run(t, inputs).0.s), 0, a.channels)
    ensures HeaderNow(a, h, TalkerRuns.Run(t, inputs).0, timeInfo)[SEQUENCE]
            == (t.s.sequence + |TalkerRuns.Run(t, inputs).1|) % 256
  {
    PacketsArePaced(t, inputs);
    HeaderSequence(a, h, TalkerRuns.Run(t, inputs).0, timeInfo);
  }

  lemma HeaderSequence(a: AudioTalker, h: Header, u: Stream, timeInfo: TimeInfo)
    requires 0 <= Cell(PacketSamples(u.s), 0, a.channels)
    ensures HeaderNow(a, h, u, timeInfo)[SEQUENCE] == u.s.sequence
  {
    var n := PacketSamples(u.s);
    var head, valid := Head(QueuesAfter(u.s, n, u.qs)), u.s.initial || Straddles(u.s, n);
    StampedReadsBack(h, BlockCount(u.s, head), valid, a.PtpTime(valid, head.ts, timeInfo),
                     CIP_HDR_SIZE + 4 * Cell(n, 0, a.channels), u.s.sequence, a.streamId0);
  }

  /**
   The presentation time of a sample that was pushed `d` ticks after the reference: the presentation delay after the PTP
   time at which it really was, up to the slack of the conversion.
   */
  lemma PresentationIsReal(info: TimeInfo, ticks: int, ns: int, d: int, elapsed: int, p: int, q: int, units: nat,
                           delay: uint32) returns (y: int)
    requires RefersTo(info, ticks, ns) && -TWO_TO_31 <= d < TWO_TO_31
    requires p > 0 && q > 0 && SameInterval(elapsed, 10 * d, p, q)
    requires Abs(RateError(info.adjust, p, q)) <= units * p && Moderate(info.adjust)
    ensures PresentedAt(Wrap32(ticks + d), info, delay) == Wrap32(ns + y + delay)
    ensures p * q * K * Abs(y - elapsed) <= Slack(10 * d, p, q, units)
  {
    y := LocalToPtpIsReal(info, ticks, ns, d, elapsed, p, q, units);
    WrapSum(ns + y, delay);
  }
}
