/**
 The audio path from end to end: a listener that hears a talker finds out its channels and its rate, hands on the
 talker's samples channel by channel, and records playout times of the samples that timestamps were taken of.
 */
module AudioPath {
  import opened Bytes
  import opened Seqs
  import opened Wrappers
  import opened Avtp
  import opened Talker
  import opened TalkerRuns
  import opened Listener
  import opened OutputFifoRuns
  import GptpTime
  import InputFifo
  import OutputFifo

  // ---------- one packet ----------

  /** The low 24 bits, all that the wire carries of a sample. */
  function Low(xs: seq<uint32>): seq<uint32> {
    seq(|xs|, k requires 0 <= k < |xs| => xs[k] % TWO_TO_24)
  }

  /** The words of a packet with `channels` channels. */
  ghost predicate OnWire(p: Sending, words: seq<uint32>, channels: int, tag: Label) {
    && 0 < channels == |p.xs| && 0 <= p.n && |words| >= Cell(p.n, 0, channels)
    && forall c :: 0 <= c < channels ==> |p.xs[c]| == p.n && ColumnHolds(words, channels, c, 0, p.xs[c], tag)
  }

  /** The rows of a payload are the samples of each channel. */
  lemma RowsOfPayload(n: int, channels: int)
    requires 0 <= n && 0 < channels
    ensures OutputFifo.Rows(Cell(n, 0, channels), channels) == n
  {
    if n > 0 {
      Multiples(0, n, channels);
      QuotientIs(n, channels - 1, channels, Cell(n, 0, channels) + channels - 1);
    }
  }

  /** What the listener takes out of channel `c` of a packet are the low 24 bits of what the talker put there. */
  lemma ListenerReadsTalker(p: Sending, words: seq<uint32>, channels: int, tag: Label, c: int)
    requires OnWire(p, words, channels, tag) && 0 <= c < channels
    ensures OutputFifo.Rows(Cell(p.n, 0, channels), channels) == p.n
    ensures forall k :: 0 <= k < p.n ==> 0 <= Cell(k, c, channels) < |words|
    ensures OutputFifo.Column(words, c, channels, p.n) == Low(p.xs[c])
  {
    RowsOfPayload(p.n, channels);
    assert ColumnHolds(words, channels, c, 0, p.xs[c], tag);
    forall k | 0 <= k < p.n
      ensures 0 <= Cell(k, c, channels) < |words| && Unwire(words[Cell(k, c, channels)]) == p.xs[c][k] % TWO_TO_24
    {
      assert CellHolds(words, Cell(0 + k, c, channels), p.xs[c][k], tag);
      WireRoundTrip(p.xs[c][k], tag);
    }
  }

  /** The header of a packet as the listener reads it. */
  function HeadingOf(p: Sending, channels: int, ts: uint32): Heading
    requires 0 <= Cell(p.n, 0, channels)
  {
    Heading(false, true, p.valid, if p.valid then ts else 0,
            (CIP_HDR_SIZE + 4 * Cell(p.n, 0, channels)) % TWO_TO_16, p.dbc)
  }

  lemma ListenerReadsHeader(h: Header, p: Sending, channels: int, ts: uint32, sequence: byte, streamId0: uint32)
    requires Prepared(h) && 0 <= Cell(p.n, 0, channels)
    ensures var s := Stamped(h, p.dbc, p.valid, ts, CIP_HDR_SIZE + 4 * Cell(p.n, 0, channels), sequence, streamId0);
            Prepared(s) && Complete(s) && ReadHeading(s) == HeadingOf(p, channels, ts)
  {
    var length := CIP_HDR_SIZE + 4 * Cell(p.n, 0, channels);
    StampedReadsBack(h, p.dbc, p.valid, ts, length, sequence, streamId0);
    var s := Stamped(h, p.dbc, p.valid, ts, length, sequence, streamId0);
    assert s[12] == h[12];
  }

  // ---------- locking ----------

  /** Packets one after the other from a talker with `channels` channels. */
  predicate FromTalker(sent: seq<Sending>, channels: int) {
    && 0 < channels && Continuous(sent) && forall k :: 0 <= k < |sent| ==> 1 <= sent[k].n < 256
  }

  lemma FromTalkerPrefix(sent: seq<Sending>, more: seq<Sending>, channels: int)
    requires FromTalker(sent + more, channels)
    ensures FromTalker(sent, channels)
  {
    var all := sent + more;
    forall k | 0 < k < |sent| ensures CountsOn(sent[k - 1], sent[k]) {
      assert CountsOn(all[k - 1], all[k]);
    }
    forall k | 0 <= k < |sent| ensures 1 <= sent[k].n < 256 {
      assert 1 <= all[k].n;
    }
  }

  /** A listener that has heard the packets. */
  function Heard(l: Lock, sent: seq<Sending>, channels: int): Lock {
    if sent == [] then l
    else
      var p := sent[|sent| - 1];
      Observed(Heard(l, sent[..|sent| - 1], channels), p.dbc, Cell(p.n, 0, channels))
  }

  /** What is known after `k` packets. */
  predicate Knows(l: Lock, sent: seq<Sending>, channels: int, rate: int) {
    var k := |sent|;
    if k == 0 then l == Unlocked(rate)
    else
      var p := sent[k - 1];
      && l.dbc == p.dbc && l.prevNumSamples == Cell(p.n, 0, channels)
      && if k == 1 then l.channels == 0 && l.count == 0
         else
           && l.channels == channels && l.count == (if k <= LOCK_COUNT + 1 then k - 1 else LOCK_COUNT)
           && l.rate == if k <= LOCK_COUNT then channels * Total(sent[1..])
                        else RateOf(Total(sent[1..LOCK_COUNT + 1]) / 16)
  }

  lemma ChannelsInferred(p: Sending, q: Sending, channels: int)
    requires 0 < channels && 1 <= p.n < 256 && CountsOn(p, q)
    ensures BlockDifference(q.dbc, p.dbc) == p.n
    ensures Cell(p.n, 0, channels) > 0 && TruncDiv(Cell(p.n, 0, channels), p.n) == channels
  {
    Multiples(0, p.n, channels);
    QuotientIs(channels, 0, p.n, Cell(p.n, 0, channels));
  }

  lemma RateFromTotal(channels: int, total: int)
    requires 0 < channels && 0 <= total
    ensures TruncDiv(TruncDiv(channels * total, channels), 16) == total / 16
  {
    if total > 0 {
      Multiples(0, total, channels);
    }
    QuotientIs(total, 0, channels, channels * total);
  }

  lemma RateGrows(channels: int, total: int, n: int)
    ensures channels * total + Cell(n, 0, channels) == channels * (total + n)
  {
  }

  /** Once two packets are known, the guess is right and only confirmed. */
  lemma GuessConfirmed(l: Lock, sent: seq<Sending>, p: Sending, channels: int, rate: int)
    requires 2 <= |sent| <= LOCK_COUNT && Knows(l, sent, channels, rate) && 0 < channels && 0 <= Total(sent[1..])
             && 1 <= p.n
    ensures Knows(Guessed(l.(dbc := p.dbc, prevNumSamples := Cell(p.n, 0, channels)), channels, Cell(p.n, 0, channels)),
                  sent + [p], channels, rate)
  {
    var all, total := sent + [p], Total(sent[1..]) + p.n;
    assert all[1..] == sent[1..] + [p];
    TotalSnoc(sent[1..], p);
    RateGrows(channels, Total(sent[1..]), p.n);
    RateFromTotal(channels, total);
    if |sent| == LOCK_COUNT {
      assert all[1..LOCK_COUNT + 1] == all[1..];
    }
  }

  lemma LockStep(l: Lock, sent: seq<Sending>, p: Sending, channels: int, rate: int)
    requires Knows(l, sent, channels, rate) && 0 < channels && 1 <= p.n < 256
    requires sent != [] ==> 1 <= sent[|sent| - 1].n < 256 && CountsOn(sent[|sent| - 1], p) && 0 <= Total(sent[1..])
    ensures Knows(Observed(l, p.dbc, Cell(p.n, 0, channels)), sent + [p], channels, rate)
  {
    var all := sent + [p];
    if sent != [] {
      ChannelsInferred(sent[|sent| - 1], p, channels);
      if |sent| == 1 {
        assert all[1..] == [] + [p];
        TotalSnoc([], p);
      } else if |sent| <= LOCK_COUNT {
        GuessConfirmed(l, sent, p, channels, rate);
      } else {
        assert all[1..LOCK_COUNT + 1] == sent[1..LOCK_COUNT + 1];
      }
    }
  }

  lemma {:induction false} TotalNonNegative(sent: seq<Sending>)
    requires forall k :: 0 <= k < |sent| ==> 1 <= sent[k].n
    ensures 0 <= Total(sent)
  {
    if sent == [] {
    } else {
      TotalNonNegative(sent[..|sent| - 1]);
    }
  }

  /**
   A fresh listener that hears a talker infers the true channel count from every packet after the first, locks at
   exactly the seventeenth packet, and takes the rate from the sixteen packets after the first.
   */
  lemma {:induction false} ListenerLocks(sent: seq<Sending>, channels: int, rate: int)
    requires FromTalker(sent, channels)
    ensures Knows(Heard(Unlocked(rate), sent, channels), sent, channels, rate)
    ensures Heard(Unlocked(rate), sent, channels).count >= LOCK_COUNT <==> |sent| >= 17
  {
    if sent == [] {
    } else {
      var shorter, p := sent[..|sent| - 1], sent[|sent| - 1];
      assert sent == shorter + [p];
      FromTalkerPrefix(shorter, [p], channels);
      ListenerLocks(shorter, channels, rate);
      if shorter != [] {
        assert CountsOn(sent[|sent| - 2], sent[|sent| - 1]);
        TotalNonNegative(shorter[1..]);
      }
      LockStep(Heard(Unlocked(rate), shorter, channels), shorter, p, channels, rate);
    }
  }

  // ---------- the rate ----------

  /** The rates a listener knows. */
  predicate Inferable(rate: int) {
    rate in {8000, 16000, 32000, 44100, 48000, 88200, 96000}
  }

  /**
   What sixteen packets with `extra` samples more than the base are taken for: a full set is that of the next rate, and
   packets of the two highest rates are taken for none.
   */
  lemma RateInferred(rate: int, total: int, extra: int)
    requires InputFifo.SytInterval(rate) > 0
    requires total == 16 * (SamplesPerPacket(rate) / TWO_TO_16) + extra && 0 <= extra <= 16
    ensures Inferable(rate) ==> (RateOf(total / 16) == rate <==> extra < 16)
    ensures extra == 16 && rate in {44100, 88200} ==> RateOf(total / 16) == if rate == 44100 then 48000 else 96000
    ensures !Inferable(rate) ==> RateOf(total / 16) == 0
  {
    SharesOfRates();
  }

  /** Every attempt of a run that gets past the wait for the first half of a FIFO makes a packet. */
  predicate NoneSkipped(t: Stream, inputs: seq<Input>) {
    inputs == [] ||
    (NoneSkipped(t, inputs[..|inputs| - 1])
     && var u, i := TalkerRuns.Run(t, inputs[..|inputs| - 1]).0, inputs[|inputs| - 1];
        i.Attempt? ==> Makes(u.s, u.qs, u.fifoSize, i.time, i.fed) || Starting(u.s, u.qs, u.fifoSize))
  }

  /** The samples beyond the base, from the fractions that carry. */
  function Extra(sent: seq<Sending>, base: int): int {
    Total(sent) - |sent| * base
  }

  lemma ExtraSnoc(sent: seq<Sending>, p: Sending, base: int)
    ensures Extra(sent + [p], base) == Extra(sent, base) + p.n - base
  {
    TotalSnoc(sent, p);
    assert (|sent| + 1) * base == |sent| * base + base;
  }

  /** The fraction that is left after `k` packets, starting with `rem`. */
  function Left(rem: int, fractional: int, k: nat): int {
    if k == 0 then rem else (Left(rem, fractional, k - 1) + fractional) % TWO_TO_16
  }

  lemma {:induction false} LeftInRange(rem: int, fractional: int, k: nat)
    requires 0 <= rem < TWO_TO_16
    ensures 0 <= Left(rem, fractional, k) < TWO_TO_16
    ensures fractional == 0 ==> Left(rem, fractional, k) == rem
  {
    if k > 0 {
      LeftInRange(rem, fractional, k - 1);
    }
  }

  /** Packet `k` has the base, and one sample more when the fractions carry. */
  predicate InStep(s: Progress, sent: seq<Sending>, k: int) {
    0 <= k < |sent| ==>
      sent[k].n == s.base + if Left(s.rem, s.fractional, k) + s.fractional >= TWO_TO_16 then 1 else 0
  }

  /** The progress after the packets. */
  predicate Reached(s: Progress, u: Progress, count: nat) {
    u.base == s.base && u.fractional == s.fractional && u.rem == Left(s.rem, s.fractional, count)
  }

  lemma AttemptAdvances(u: Stream, time: uint32, fed: bool)
    ensures var v := Step(u, Attempt(time, fed)).0.s;
            && v.base == u.s.base && v.fractional == u.s.fractional
            && (v.rem == (u.s.rem + u.s.fractional) % TWO_TO_16 || v.rem == u.s.rem)
            && (Makes(u.s, u.qs, u.fifoSize, time, fed) ==>
                  PacketOf(u).n == PacketSamples(u.s) && v.rem == (u.s.rem + u.s.fractional) % TWO_TO_16)
            && (Starting(u.s, u.qs, u.fifoSize) ==> v.rem == u.s.rem)
  {
  }

  ghost predicate AllInStep(s: Progress, sent: seq<Sending>) {
    forall k :: InStep(s, sent, k)
  }

  lemma InStepSnoc(s: Progress, sent: seq<Sending>, p: Sending)
    requires AllInStep(s, sent)
    requires p.n == s.base + if Left(s.rem, s.fractional, |sent|) + s.fractional >= TWO_TO_16 then 1 else 0
    ensures AllInStep(s, sent + [p])
  {
    forall k ensures InStep(s, sent + [p], k) {
      assert InStep(s, sent, k);
    }
  }

  /** A packet, or an attempt that makes none and has no fractions to carry on. */
  lemma CadenceStep(s: Progress, u: Stream, sent: seq<Sending>, time: uint32, fed: bool)
    requires Configured(s) && Reached(s, u.s, |sent|) && AllInStep(s, sent)
    requires s.fractional == 0 || Makes(u.s, u.qs, u.fifoSize, time, fed) || Starting(u.s, u.qs, u.fifoSize)
    ensures var (v, packet) := Step(u, Attempt(time, fed));
            var all := if packet.Some? then sent + [packet.value] else sent;
            Reached(s, v.s, |all|) && AllInStep(s, all)
  {
    AttemptAdvances(u, time, fed);
    LeftInRange(s.rem, s.fractional, |sent|);
    if Makes(u.s, u.qs, u.fifoSize, time, fed) {
      InStepSnoc(s, sent, PacketOf(u));
    }
  }

  /**
   The cadence of a talker: the fractions decide which packets have a sample more, in whatever order attempts and
   completed FIFO packets come, as long as no attempt is skipped or there are no fractions at all.
   */
  lemma {:induction false} Cadence(t: Stream, inputs: seq<Input>)
    requires Configured(t.s) && (t.s.fractional == 0 || NoneSkipped(t, inputs))
    ensures var (u, sent) := TalkerRuns.Run(t, inputs); Reached(t.s, u.s, |sent|) && AllInStep(t.s, sent)
  {
    if inputs == [] {
    } else {
      var shorter, i := inputs[..|inputs| - 1], inputs[|inputs| - 1];
      Cadence(t, shorter);
      var (u, sent) := TalkerRuns.Run(t, shorter);
      if i.Attempt? {
        CadenceStep(t.s, u, sent, i.time, i.fed);
      }
    }
  }

  lemma FractionStep(rem: int, fractional: int, carry: int, next: int)
    requires 0 <= rem < TWO_TO_16 && 0 <= fractional < TWO_TO_16 && next == (rem + fractional) % TWO_TO_16
    requires carry == if rem + fractional >= TWO_TO_16 then 1 else 0
    ensures TWO_TO_16 * carry + next == rem + fractional
  {
  }

  /** One more packet: what it adds beyond the base and what it leaves over is the fraction. */
  lemma StretchStep(extra: int, more: int, carry: int, rem: int, next: int, first: int, fractional: int, sum: int,
                    longer: int)
    requires TWO_TO_16 * extra + rem == first + sum && TWO_TO_16 * carry + next == rem + fractional
    requires more == extra + carry && longer == sum + fractional
    ensures TWO_TO_16 * more + next == first + longer
  {
  }

  /** The fractions of a stretch of packets add up to the samples beyond the base, but for what is left over. */
  lemma {:induction false} StretchAddsUp(s: Progress, sent: seq<Sending>, i: nat, j: nat)
    requires i <= j <= |sent| && Configured(s) && AllInStep(s, sent)
    ensures TWO_TO_16 * Extra(sent[i..j], s.base) + Left(s.rem, s.fractional, j)
            == Left(s.rem, s.fractional, i) + InputFifo.Product(s.fractional, j - i)
    decreases j
  {
    if i == j {
      assert sent[i..j] == [];
    } else {
      StretchAddsUp(s, sent, i, j - 1);
      var stretch, p, rem := sent[i..j - 1], sent[j - 1], Left(s.rem, s.fractional, j - 1);
      assert sent[i..j] == stretch + [p];
      ExtraSnoc(stretch, p, s.base);
      assert InStep(s, sent, j - 1);
      LeftInRange(s.rem, s.fractional, j - 1);
      var carry, next := if rem + s.fractional >= TWO_TO_16 then 1 else 0, Left(s.rem, s.fractional, j);
      FractionStep(rem, s.fractional, carry, next);
      InputFifo.ProductStep(s.fractional, j - i - 1);
      StretchStep(Extra(stretch, s.base), Extra(stretch + [p], s.base), carry, rem, next,
                  Left(s.rem, s.fractional, i), s.fractional, InputFifo.Product(s.fractional, j - 1 - i),
                  InputFifo.Product(s.fractional, j - i));
    }
  }

  lemma ExtraBound(rate: int, before: int, after: int, extra: int)
    requires Inferable(rate) && 0 <= before < TWO_TO_16 && 0 <= after < TWO_TO_16
    requires TWO_TO_16 * extra + after == before + 16 * (SamplesPerPacket(rate) % TWO_TO_16)
    ensures 0 <= extra < 16
  {
    SharesOfRates();
  }

  /** Any sixteen packets in a row have a packet of the base: always at a whole rate, else if no attempt is skipped. */
  lemma StretchHasBase(rate: int, t: Stream, inputs: seq<Input>, i: nat)
    requires Inferable(rate) && Configured(t.s) && (rate in {44100, 88200} ==> NoneSkipped(t, inputs))
    requires t.s.base == Started(rate).base && t.s.fractional == Started(rate).fractional
    requires i + 16 <= |TalkerRuns.Run(t, inputs).1|
    ensures 0 <= Extra(TalkerRuns.Run(t, inputs).1[i..i + 16], t.s.base) < 16
  {
    WholeRates(rate);
    Cadence(t, inputs);
    var sent := TalkerRuns.Run(t, inputs).1;
    StretchAddsUp(t.s, sent, i, i + 16);
    LeftInRange(t.s.rem, t.s.fractional, i);
    LeftInRange(t.s.rem, t.s.fractional, i + 16);
    var extra := Extra(sent[i..i + 16], t.s.base);
    ExtraBound(rate, Left(t.s.rem, t.s.fractional, i), Left(t.s.rem, t.s.fractional, i + 16), extra);
  }

  lemma WholeRates(rate: int)
    ensures rate in {8000, 16000, 32000, 48000, 96000} ==> Started(rate).fractional == 0
  {
    SharesOfRates();
  }

  /** Every packet has the base or one sample more. */
  predicate BaseOrMore(sent: seq<Sending>, base: int) {
    forall k :: 0 <= k < |sent| ==> base <= sent[k].n <= base + 1
  }

  lemma {:induction false} PacketsBaseOrMore(t: Stream, inputs: seq<Input>)
    ensures var (u, sent) := TalkerRuns.Run(t, inputs);
            u.s.base == t.s.base && BaseOrMore(sent, t.s.base)
  {
    if inputs == [] {
    } else {
      var shorter, i := inputs[..|inputs| - 1], inputs[|inputs| - 1];
      PacketsBaseOrMore(t, shorter);
      if i.Attempt? {
        AttemptAdvances(TalkerRuns.Run(t, shorter).0, i.time, i.fed);
      }
    }
  }

  /** All of a stretch have a sample more exactly when none has the base. */
  lemma {:induction false} ExtraCounts(sent: seq<Sending>, base: int)
    requires BaseOrMore(sent, base)
    ensures 0 <= Extra(sent, base) <= |sent|
    ensures Extra(sent, base) < |sent| <==> exists k :: 0 <= k < |sent| && sent[k].n == base
  {
    if sent != [] {
      var shorter, p := sent[..|sent| - 1], sent[|sent| - 1];
      assert sent == shorter + [p];
      ExtraCounts(shorter, base);
      ExtraSnoc(shorter, p, base);
      if k :| 0 <= k < |shorter| && shorter[k].n == base {
        assert sent[k].n == base;
      }
    }
  }

  // ---------- from the talker to the FIFOs ----------

  /** Packets of at most `limit` samples. */
  predicate Sized(sent: seq<Sending>, limit: int) {
    forall k :: 0 <= k < |sent| ==> 1 <= sent[k].n <= limit
  }

  lemma {:induction false} PacketsSized(t: Stream, inputs: seq<Input>)
    requires Sound(t) && ProperRun(t, inputs)
    ensures var (u, sent) := TalkerRuns.Run(t, inputs);
            Sound(u) && u.s.interval == t.s.interval && |u.qs| == |t.qs| && Sized(sent, t.s.interval)
  {
    if inputs == [] {
    } else {
      PacketsSized(t, inputs[..|inputs| - 1]);
      StepKeepsSound(TalkerRuns.Run(t, inputs[..|inputs| - 1]).0, inputs[|inputs| - 1]);
    }
  }

  /** A talker's packets are what the listener's guesses rest on. */
  lemma TalkerIsHeard(t: Stream, inputs: seq<Input>, channels: int, rate: int)
    requires Sound(t) && ProperRun(t, inputs) && t.s.initial && t.s.interval < 256 && channels > 0
    ensures var sent := TalkerRuns.Run(t, inputs).1;
            FromTalker(sent, channels) && Knows(Heard(Unlocked(rate), sent, channels), sent, channels, rate)
  {
    PacketsSized(t, inputs);
    BlockCountsAreContinuous(t, inputs);
    ListenerLocks(TalkerRuns.Run(t, inputs).1, channels, rate);
  }

  /** What a listener makes of a talker's rate. */
  predicate RateFound(l: Lock, rate: int, sent: seq<Sending>, base: int)
    requires |sent| >= 17
  {
    if !Inferable(rate) then l.rate == 0
    else if exists k :: 1 <= k <= 16 && sent[k].n == base then l.rate == rate
    else rate in {44100, 88200} && l.rate == if rate == 44100 then 48000 else 96000
  }

  lemma RateFromStretch(l: Lock, rate: int, sent: seq<Sending>, base: int)
    requires |sent| >= 17 && BaseOrMore(sent, base) && InputFifo.SytInterval(rate) > 0
    requires base == SamplesPerPacket(rate) / TWO_TO_16 && l.rate == RateOf(Total(sent[1..17]) / 16)
    requires Inferable(rate) && rate !in {44100, 88200} ==> Extra(sent[1..17], base) < 16
    ensures RateFound(l, rate, sent, base)
    ensures Inferable(rate) && Extra(sent[1..17], base) < 16 ==> l.rate == rate
  {
    var stretch := sent[1..17];
    ExtraCounts(stretch, base);
    RateInferred(rate, Total(stretch), Extra(stretch, base));
    BaseInStretch(sent, base);
  }

  /**
   The rate a fresh listener finds, in every run of a talker at any rate, with attempts skipped or not. 176.4 and 192
   kHz are taken for none. Any other rate is found exactly when one of the sixteen packets behind the first has no
   sample more than the base; otherwise 48 or 96 kHz is found in place of 44.1 or 88.2 kHz, and that never happens at
   the whole rates or while no attempt is skipped. The SYT interval that timestamps are attributed by is the talker's
   exactly at the rates a listener knows, and otherwise unset.
   */
  lemma ListenerFindsRate(rate: int, t: Stream, inputs: seq<Input>, channels: int, ownRate: int)
    requires Sound(t) && ProperRun(t, inputs) && t.s.initial && t.s.interval < 256 && channels > 0
    requires InputFifo.SytInterval(rate) > 0
    requires t.s.base == Started(rate).base && t.s.fractional == Started(rate).fractional
    requires |TalkerRuns.Run(t, inputs).1| >= 17
    ensures var sent := TalkerRuns.Run(t, inputs).1;
            var l := Heard(Unlocked(ownRate), sent, channels);
            && l.channels == channels && l.count == LOCK_COUNT && RateFound(l, rate, sent, t.s.base)
            && (Inferable(rate) && (rate !in {44100, 88200} || NoneSkipped(t, inputs)) ==> l.rate == rate)
            && InputFifo.SytInterval(l.rate) == (if Inferable(rate) then InputFifo.SytInterval(rate) else 0)
            && (InputFifo.SytInterval(l.rate) > 0 <==> Inferable(rate))
  {
    var sent := TalkerRuns.Run(t, inputs).1;
    var l := Heard(Unlocked(ownRate), sent, channels);
    TalkerIsHeard(t, inputs, channels, ownRate);
    PacketsBaseOrMore(t, inputs);
    if Inferable(rate) && (rate !in {44100, 88200} || NoneSkipped(t, inputs)) {
      StretchHasBase(rate, t, inputs, 1);
    }
    KnownOnceLocked(l, sent, channels, ownRate);
    RateFromStretch(l, rate, sent, t.s.base);
    IntervalFound(l, rate, sent, t.s.base);
  }

  lemma KnownOnceLocked(l: Lock, sent: seq<Sending>, channels: int, ownRate: int)
    requires Knows(l, sent, channels, ownRate) && |sent| >= 17
    ensures l.channels == channels && l.count == LOCK_COUNT && l.rate == RateOf(Total(sent[1..17]) / 16)
  {
  }

  lemma IntervalFound(l: Lock, rate: int, sent: seq<Sending>, base: int)
    requires |sent| >= 17 && RateFound(l, rate, sent, base) && InputFifo.SytInterval(rate) > 0
    ensures InputFifo.SytInterval(l.rate) == (if Inferable(rate) then InputFifo.SytInterval(rate) else 0)
    ensures InputFifo.SytInterval(l.rate) > 0 <==> Inferable(rate)
  {
  }

  lemma BaseInStretch(sent: seq<Sending>, base: int)
    requires |sent| >= 17
    ensures (exists k :: 1 <= k <= 16 && sent[k].n == base)
            <==> exists k :: 0 <= k < |sent[1..17]| && sent[1..17][k].n == base
  {
    if k :| 1 <= k <= 16 && sent[k].n == base {
      assert sent[1..17][k - 1].n == base;
    }
    if k :| 0 <= k < |sent[1..17]| && sent[1..17][k].n == base {
      assert sent[k + 1].n == base;
    }
  }

  lemma WordsOfLength(words: int)
    requires 0 <= words && CIP_HDR_SIZE + 4 * words < TWO_TO_16
    ensures PayloadWords((CIP_HDR_SIZE + 4 * words) % TWO_TO_16) == words
  {
  }

  /** A locked listener pushes, for each of its channels, the low 24 bits of what the talker sent on it. */
  lemma ListenerPushes(r: OutputFifo.Ring, h: Heading, l: Lock, c: nat, words: seq<uint32>, p: Sending, tag: Label,
                       ts: uint32, stray: nat)
    requires OutputFifo.InRange(r) && OnWire(p, words, l.channels, tag) && c < l.channels
    requires CIP_HDR_SIZE + 4 * Cell(p.n, 0, l.channels) < TWO_TO_16 && 0 <= Cell(p.n, 0, l.channels)
    requires h == HeadingOf(p, l.channels, ts)
    ensures PayloadFits(h, l, words)
    ensures Listener.Played(r, h, l, stray, c, words)
            == OutputFifo.Pushed(OutputFifo.Maintained(MarkedBy(r, h, l, stray)), Low(p.xs[c]))
  {
    WordsOfLength(Cell(p.n, 0, l.channels));
    RowsOfPayload(p.n, l.channels);
    forall i, k | 0 <= i < l.channels && 0 <= k < p.n ensures 0 <= Cell(k, i, l.channels) < |words| {
      ListenerReadsTalker(p, words, l.channels, tag, i);
    }
    ListenerReadsTalker(p, words, l.channels, tag, c);
  }

  lemma LowSum(a: seq<uint32>, b: seq<uint32>)
    ensures Low(a + b) == Low(a) + Low(b)
  {
  }

  /** A packet with a timestamp reaches an output FIFO that has room for it. */
  ghost predicate Arrives(p: Sending, c: nat, r: OutputFifo.Ring, l: Lock, words: seq<uint32>, tag: Label) {
    && OnWire(p, words, l.channels, tag) && c < l.channels && 0 <= Cell(p.n, 0, l.channels)
    && CIP_HDR_SIZE + 4 * Cell(p.n, 0, l.channels) < TWO_TO_16 && p.valid
    && OutputFifo.InRange(r) && r.marker == OutputFifo.NONE && !r.mode.Zeroing?
    && 0 < InputFifo.SytInterval(l.rate) && OutputFifo.FillLevel(r) + p.n < |r.cells|
  }

  /** The FIFO with the timestamp at its sample, and the samples queued. */
  ghost function Fed(p: Sending, c: nat, r: OutputFifo.Ring, l: Lock, ts: uint32): (s: OutputFifo.Ring)
    requires OutputFifo.InRange(r) && c < |p.xs| && 0 < InputFifo.SytInterval(l.rate)
    ensures OutputFifo.InRange(s) && |s.cells| == |r.cells|
  {
    OutputFifo.Pushed(OutputFifo.Marked(r, ts, SampleNumber(p.dbc, InputFifo.SytInterval(l.rate))), Low(p.xs[c]))
  }

  /** That is what the listener makes of the packet. */
  lemma ListenerFeeds(p: Sending, c: nat, r: OutputFifo.Ring, l: Lock, words: seq<uint32>, tag: Label, ts: uint32,
                      stray: nat)
    requires Arrives(p, c, r, l, words, tag)
    ensures var h := HeadingOf(p, l.channels, ts);
            PayloadFits(h, l, words) && Listener.Played(r, h, l, stray, c, words) == Fed(p, c, r, l, ts)
  {
    var h := HeadingOf(p, l.channels, ts);
    ListenerPushes(r, h, l, c, words, p, tag, ts, stray);
    MarkedAtStart(r, h, l, ts, stray);
  }

  /** A FIFO that is not zeroing is marked and left alone by maintenance. */
  lemma MarkedAtStart(r: OutputFifo.Ring, h: Heading, l: Lock, ts: uint32, stray: nat)
    requires OutputFifo.InRange(r) && !r.mode.Zeroing? && h.timestampValid && h.timestamp == ts
    requires InputFifo.SytInterval(l.rate) > 0
    ensures OutputFifo.Maintained(MarkedBy(r, h, l, stray))
            == OutputFifo.Marked(r, ts, SampleNumber(h.dbc, InputFifo.SytInterval(l.rate)))
  {
    assert Wrap32(h.timestamp) == ts;
  }

  /** The FIFO holds the PTP time `ptp` and the local time of the pull of sample `x`, the `j`th pull from here. */
  predicate RecordsPull(s: OutputFifo.Ring, ops: seq<Operation>, j: int, x: uint32, ptp: uint32)
    requires OutputFifo.InRange(s)
  {
    var times, played := PullTimes(s, ops), OutputFifoRuns.Played(s, ops);
    && |played| == |times| && 0 <= j && OutputFifoRuns.Run(s, ops).ptpTs == ptp
    && if |times| > j then OutputFifoRuns.Run(s, ops).localTs == Recorded(times[j]) && played[j] == x
       else OutputFifoRuns.Run(s, ops).localTs == 0
  }

  /** Sample `k` of the packet, `x`, is the one whose playout is recorded. */
  lemma FedRecords(p: Sending, c: nat, r: OutputFifo.Ring, l: Lock, words: seq<uint32>, tag: Label, ts: uint32, k: int,
                   j: int, x: uint32, ops: seq<Operation>)
    requires Arrives(p, c, r, l, words, tag) && k == SampleNumber(p.dbc, InputFifo.SytInterval(l.rate)) && 0 <= k < p.n
    requires AllPlay(ops)
    requires (k < |p.xs[c]| ==> p.xs[c][k] % TWO_TO_24 == x) && j == OutputFifo.FillLevel(r) + k
    ensures RecordsPull(Fed(p, c, r, l, ts), ops, j, x, Recorded(ts))
  {
    assert ColumnHolds(words, l.channels, c, 0, p.xs[c], tag);
    RecordsPlayoutOfItsSample(r, ts, k, Low(p.xs[c]), ops);
  }

  /** The header that a talker puts on its next packet. */
  function HeaderNow(a: AudioTalker, h: Header, t: Stream, timeInfo: GptpTime.TimeInfo): Header
    requires 0 <= Cell(PacketSamples(t.s), 0, a.channels)
  {
    var n := PacketSamples(t.s);
    a.HeaderOf(h, t.s, n, Talker.Head(QueuesAfter(t.s, n, t.qs)), timeInfo)
  }

  /** The header as a listener reads it. */
  lemma TalkersHeading(a: AudioTalker, h: Header, t: Stream, timeInfo: GptpTime.TimeInfo)
    requires Prepared(h) && a.channels == |t.qs| && 0 <= Cell(PacketSamples(t.s), 0, |t.qs|)
    ensures var header, p := HeaderNow(a, h, t, timeInfo), PacketOf(t);
            && Complete(header)
            && ReadHeading(header) == HeadingOf(p, |t.qs|, PresentedAt(p.ts, timeInfo, a.presentationDelay))
  {
    var p := PacketOf(t);
    var ts := if p.valid then PresentedAt(p.ts, timeInfo, a.presentationDelay) else 0;
    ListenerReadsHeader(h, p, |t.qs|, ts, t.s.sequence, a.streamId0);
  }

  /**
   When the next packet of talker `a` in state `t` arrives at FIFO `r` of channel `c`, then whatever `ops` push and
   play, the FIFO holds the presentation time of what was pushed at `ts`, and records the playout time of sample `x`,
   which is sample `k` of the packet.
   */
  ghost predicate PairRecorded(a: AudioTalker, h: Header, timeInfo: GptpTime.TimeInfo, t: Stream, r: OutputFifo.Ring,
                               l: Lock, c: nat, words: seq<uint32>, stray: nat, ops: seq<Operation>, k: int, x: uint32,
                               ts: uint32)
  {
    && 0 <= Cell(PacketSamples(t.s), 0, a.channels) && OutputFifo.InRange(r) &&
    var header := HeaderNow(a, h, t, timeInfo);
    && Complete(header) && PayloadFits(ReadHeading(header), l, words)
    && RecordsPull(Listener.Played(r, ReadHeading(header), l, stray, c, words), ops, OutputFifo.FillLevel(r) + k,
                   x % TWO_TO_24, Recorded(PresentedAt(ts, timeInfo, a.presentationDelay)))
  }

  lemma PacketRecordsPair(a: AudioTalker, h: Header, timeInfo: GptpTime.TimeInfo, t: Stream, p: Sending,
                          r: OutputFifo.Ring, l: Lock, c: nat, words: seq<uint32>, tag: Label, stray: nat,
                          ops: seq<Operation>, k: int, x: uint32)
    requires Prepared(h) && c < |t.qs| == a.channels == l.channels && AllPlay(ops)
    requires p == PacketOf(t) && Arrives(p, c, r, l, words, tag) && 0 <= k < p.n
    requires k == SampleNumber(p.dbc, InputFifo.SytInterval(l.rate)) && (k < |p.xs[c]| ==> p.xs[c][k] == x)
    ensures PairRecorded(a, h, timeInfo, t, r, l, c, words, stray, ops, k, x, p.ts)
  {
    var ts := PresentedAt(p.ts, timeInfo, a.presentationDelay);
    TalkersHeading(a, h, t, timeInfo);
    ListenerFeeds(p, c, r, l, words, tag, ts, stray);
    FedRecords(p, c, r, l, words, tag, ts, k, OutputFifo.FillLevel(r) + k, x % TWO_TO_24, ops);
  }
}
