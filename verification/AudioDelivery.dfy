/**
 Whole runs of the audio path: what is played out of one channel's output FIFO, from the configuration of the stream on,
 through the listener's lock, the zeroing of the FIFO, and the adjustments and resets the media clock asks for.
 */
module AudioDelivery {
  import opened Bytes
  import opened Seqs
  import opened Avtp
  import opened InputFifo
  import opened Talker
  import opened TalkerRuns
  import opened TalkerSupply
  import opened Listener
  import opened AudioPath
  import OutputFifo
  import OutputFifoRuns

  /** What the listener knows of the stream, and the output FIFO of one of its channels. */
  datatype Ear = Ear(l: Lock, r: OutputFifo.Ring)

  /** A packet arrives, with its payload and the time in its header; a sample is due; or the media clock has a wish. */
  datatype Hop =
    | Arrive(p: Sending, words: seq<uint32>, ts: uint32, stray: nat)
    | PlayOut(time: uint32)
    | Adjust(adjust: int) | Reset | Report

  /** `configure_stream`: an unlocked listener and a FIFO that has to be zeroed. */
  function Configure(r: OutputFifo.Ring, ownRate: int): Ear
    requires OutputFifo.InRange(r)
  {
    Ear(Unlocked(ownRate), OutputFifo.Enabled(r))
  }

  /**
   The packet has `channels` channels and, once the listener is locked, the words it looks for are there.
   */
  ghost predicate Fitting(e: Ear, c: nat, channels: int, p: Sending, words: seq<uint32>, ts: uint32, tag: Label) {
    && OutputFifo.InRange(e.r) && OnWire(p, words, channels, tag) && c < channels
    && 0 <= Cell(p.n, 0, channels) && CIP_HDR_SIZE + 4 * Cell(p.n, 0, channels) < TWO_TO_16
    && (e.l.count >= LOCK_COUNT ==> PayloadFits(HeadingOf(p, channels, ts), e.l, words))
  }

  ghost predicate Takes(e: Ear, c: nat, channels: int, h: Hop, tag: Label) {
    && OutputFifo.InRange(e.r)
    && (h.Arrive? ==> Fitting(e, c, channels, h.p, h.words, h.ts, tag))
  }

  /** What the listener makes of a packet on one channel: it learns from every one, and hands on if it is locked. */
  ghost function Heeded(e: Ear, c: nat, channels: int, p: Sending, words: seq<uint32>, ts: uint32, stray: nat,
                        tag: Label): Ear
    requires Fitting(e, c, channels, p, words, ts, tag)
  {
    var h := HeadingOf(p, channels, ts);
    Ear(Observed(e.l, h.dbc, PayloadWords(h.length)),
        if e.l.count >= LOCK_COUNT then Listener.Played(e.r, h, e.l, stray, c, words) else e.r)
  }

  ghost function Hopped(e: Ear, c: nat, channels: int, h: Hop, tag: Label): (f: Ear)
    requires Takes(e, c, channels, h, tag)
    ensures OutputFifo.InRange(f.r) && |f.r.cells| == |e.r.cells|
  {
    match h
    case Arrive(p, words, ts, stray) => Heeded(e, c, channels, p, words, ts, stray, tag)
    case PlayOut(time) => e.(r := OutputFifo.Pulled(e.r, time))
    case Adjust(a) => e.(r := OutputFifo.Adjusted(e.r, a))
    case Reset => e.(r := OutputFifo.Restarted(e.r))
    case Report => e.(r := OutputFifo.Reported(e.r))
  }

  /** Every packet of the run can be taken when it comes. */
  ghost predicate Flows(e: Ear, c: nat, channels: int, hops: seq<Hop>, tag: Label)
    decreases |hops|, 0
  {
    && OutputFifo.InRange(e.r)
    && (hops == [] ||
        (Flows(e, c, channels, hops[..|hops| - 1], tag)
         && Takes(After(e, c, channels, hops[..|hops| - 1], tag), c, channels, hops[|hops| - 1], tag)))
  }

  ghost function After(e: Ear, c: nat, channels: int, hops: seq<Hop>, tag: Label): (f: Ear)
    requires Flows(e, c, channels, hops, tag)
    ensures OutputFifo.InRange(f.r) && |f.r.cells| == |e.r.cells|
    decreases |hops|, 1
  {
    if hops == [] then e
    else Hopped(After(e, c, channels, hops[..|hops| - 1], tag), c, channels, hops[|hops| - 1], tag)
  }

  /** A sample played out, but not the zero an empty FIFO gives. */
  ghost function OutOf(r: OutputFifo.Ring, h: Hop): seq<uint32>
    requires OutputFifo.InRange(r)
  {
    if h.PlayOut? && r.dptr != r.wrptr then [OutputFifo.PulledSample(r)] else []
  }

  ghost function Out(e: Ear, c: nat, channels: int, hops: seq<Hop>, tag: Label): seq<uint32>
    requires Flows(e, c, channels, hops, tag)
  {
    if hops == [] then []
    else
      Out(e, c, channels, hops[..|hops| - 1], tag)
      + OutOf(After(e, c, channels, hops[..|hops| - 1], tag).r, hops[|hops| - 1])
  }

  function Carries(h: Hop): seq<Sending> {
    if h.Arrive? then [h.p] else []
  }

  /** The packets that arrive, in order. */
  function Packets(hops: seq<Hop>): seq<Sending> {
    if hops == [] then [] else Packets(hops[..|hops| - 1]) + Carries(hops[|hops| - 1])
  }

  /** The payload a talker fills for a packet (`CreatePacket`) is what `OnWire` asks of the packet's words. */
  lemma PayloadIsOnWire(t: Stream, time: uint32, fed: bool, words: seq<uint32>, tag: Label)
    requires Sound(t) && Makes(t.s, t.qs, t.fifoSize, time, fed) && |words| >= Cell(PacketSamples(t.s), 0, |t.qs|)
    requires forall c :: 0 <= c < |t.qs| ==>
               ColumnHolds(words, |t.qs|, c, 0, Takens(t.qs, Gone(t.s), PacketSamples(t.s))[c], tag)
    ensures OnWire(PacketOf(t), words, |t.qs|, tag)
  {
    forall c: nat | c < |t.qs| ensures |PacketOf(t).xs[c]| == PacketOf(t).n {
      PacketTakes(t, time, fed, c);
    }
  }

  // ---------- silence until the media clock adjusts the FIFO ----------

  /** A muted FIFO, which stays as it was enabled until the listener is locked. */
  predicate Silent(e: Ear) {
    && OutputFifo.InRange(e.r) && e.r.zeroFlag && (e.l.count < LOCK_COUNT ==> e.r.mode.Zeroing?)
  }

  lemma HopKeepsSilence(e: Ear, c: nat, channels: int, h: Hop, tag: Label)
    requires Takes(e, c, channels, h, tag) && Silent(e) && !h.Adjust?
    ensures Silent(Hopped(e, c, channels, h, tag))
    ensures forall x :: x in OutOf(e.r, h) ==> x == 0
  {
    if h.Arrive? && e.l.count >= LOCK_COUNT {
      var heading := HeadingOf(h.p, channels, h.ts);
      PlayedKeepsFlag(e.r, heading, e.l, h.stray, c, h.words);
    }
  }

  lemma PlayedKeepsFlag(r: OutputFifo.Ring, h: Heading, l: Lock, stray: nat, c: nat, words: seq<uint32>)
    requires OutputFifo.InRange(r) && PayloadFits(h, l, words) && r.zeroFlag
    ensures Listener.Played(r, h, l, stray, c, words).zeroFlag
  {
    var m := OutputFifo.Maintained(MarkedBy(r, h, l, stray));
    if c < l.channels {
      OutputFifo.RowsBound(PayloadWords(h.length), l.channels, 0);
      var rows := OutputFifo.Rows(PayloadWords(h.length), l.channels);
      OutputFifoRuns.PushKeepsReader(m, OutputFifo.Column(words, c, l.channels, rows));
    }
  }

  /** Streams begin in silence, and a reset brings it back, whatever went before. */
  lemma SilenceBegins(e: Ear, r: OutputFifo.Ring, ownRate: int)
    requires OutputFifo.InRange(e.r) && OutputFifo.InRange(r)
    ensures Silent(Configure(r, ownRate)) && Silent(e.(r := OutputFifo.Restarted(e.r)))
  {
  }

  /**
   From the configuration of a stream or a reset on, nothing but zeros is played until the media clock adjusts the fill
   of the FIFO, and the FIFO stays in zeroing until the listener is locked.
   */
  lemma {:induction false} SilentUntilAdjusted(e: Ear, c: nat, channels: int, hops: seq<Hop>, tag: Label)
    requires Silent(e) && Flows(e, c, channels, hops, tag)
    requires forall i :: 0 <= i < |hops| ==> !hops[i].Adjust?
    ensures Silent(After(e, c, channels, hops, tag))
    ensures forall x :: x in Out(e, c, channels, hops, tag) ==> x == 0
    decreases |hops|
  {
    if hops == [] {
    } else {
      var shorter := hops[..|hops| - 1];
      SilentUntilAdjusted(e, c, channels, shorter, tag);
      HopKeepsSilence(After(e, c, channels, shorter, tag), c, channels, hops[|hops| - 1], tag);
    }
  }

  // ---------- what the listener knows ----------

  lemma HeardSnoc(l: Lock, sent: seq<Sending>, p: Sending, channels: int)
    ensures Heard(l, sent + [p], channels) == Observed(Heard(l, sent, channels), p.dbc, Cell(p.n, 0, channels))
  {
    assert (sent + [p])[..|sent|] == sent;
  }

  lemma HopIsHeard(f: Ear, l: Lock, sent: seq<Sending>, c: nat, channels: int, h: Hop, tag: Label)
    requires Takes(f, c, channels, h, tag) && f.l == Heard(l, sent, channels)
    ensures Hopped(f, c, channels, h, tag).l == Heard(l, sent + Carries(h), channels)
  {
    if h.Arrive? {
      WordsOfLength(Cell(h.p.n, 0, channels));
      HeardSnoc(l, sent, h.p, channels);
    } else {
      assert sent + [] == sent;
    }
  }

  /** Whatever happens to the FIFO, the listener knows what the packets tell. */
  lemma {:induction false} LockFollowsPackets(e: Ear, c: nat, channels: int, hops: seq<Hop>, tag: Label)
    requires Flows(e, c, channels, hops, tag)
    ensures After(e, c, channels, hops, tag).l == Heard(e.l, Packets(hops), channels)
    decreases |hops|
  {
    if hops == [] {
    } else {
      var shorter, h := hops[..|hops| - 1], hops[|hops| - 1];
      LockFollowsPackets(e, c, channels, shorter, tag);
      HopIsHeard(After(e, c, channels, shorter, tag), e.l, Packets(shorter), c, channels, h, tag);
    }
  }

  lemma {:induction false} HeardSum(l: Lock, sent: seq<Sending>, more: seq<Sending>, channels: int)
    ensures Heard(Heard(l, sent, channels), more, channels) == Heard(l, sent + more, channels)
    decreases |more|
  {
    if more == [] {
      assert sent + more == sent;
    } else {
      var shorter, p := more[..|more| - 1], more[|more| - 1];
      HeardSum(l, sent, shorter, channels);
      HeardSnoc(l, sent + shorter, p, channels);
      assert sent + more == sent + shorter + [p];
    }
  }

  // ---------- one step of a FIFO that plays ----------

  /** A FIFO that plays what it is given, as it does from an adjustment on. */
  predicate Unmuted(r: OutputFifo.Ring) {
    OutputFifo.InRange(r) && !r.mode.Zeroing? && !r.zeroFlag
  }

  lemma AdjustmentUnmutes(r: OutputFifo.Ring, adjust: int)
    requires OutputFifo.InRange(r)
    ensures Unmuted(OutputFifo.Adjusted(r, adjust))
  {
    OutputFifoRuns.AdjustShiftsFill(r, adjust);
  }

  /** Neither a packet nor playout nor a report mutes a FIFO that plays. */
  lemma HopKeepsUnmuted(e: Ear, c: nat, channels: int, h: Hop, tag: Label)
    requires Takes(e, c, channels, h, tag) && Unmuted(e.r) && !h.Reset?
    ensures Unmuted(Hopped(e, c, channels, h, tag).r)
  {
    if h.Arrive? && e.l.count >= LOCK_COUNT {
      PlayedKeepsUnmuted(e.r, HeadingOf(h.p, channels, h.ts), e.l, h.stray, c, h.words);
    } else if h.Adjust? {
      AdjustmentUnmutes(e.r, h.adjust);
    }
  }

  lemma PlayedKeepsUnmuted(r: OutputFifo.Ring, h: Heading, l: Lock, stray: nat, c: nat, words: seq<uint32>)
    requires Unmuted(r) && PayloadFits(h, l, words)
    ensures Unmuted(Listener.Played(r, h, l, stray, c, words))
  {
    var m := OutputFifo.Maintained(MarkedBy(r, h, l, stray));
    if c < l.channels {
      OutputFifo.RowsBound(PayloadWords(h.length), l.channels, 0);
      var rows := OutputFifo.Rows(PayloadWords(h.length), l.channels);
      OutputFifoRuns.PushKeepsReader(m, OutputFifo.Column(words, c, l.channels, rows));
    }
  }

  /** There was no adjustment since the last reset, or since the beginning. */
  predicate Unadjusted(hops: seq<Hop>) {
    if hops == [] then true
    else
      var h := hops[|hops| - 1];
      h.Reset? || (!h.Adjust? && Unadjusted(hops[..|hops| - 1]))
  }

  /**
   In every run from the configuration on, the FIFO of a channel plays silence exactly while there was no adjustment
   since the last reset; until the listener is locked it is then still to be zeroed.
   */
  lemma {:induction false} SilentExactlyWhileUnadjusted(r: OutputFifo.Ring, ownRate: int, c: nat, channels: int,
                                                        hops: seq<Hop>, tag: Label)
    requires OutputFifo.InRange(r) && Flows(Configure(r, ownRate), c, channels, hops, tag)
    ensures var f := After(Configure(r, ownRate), c, channels, hops, tag);
            if Unadjusted(hops) then Silent(f) else Unmuted(f.r)
    decreases |hops|
  {
    var e := Configure(r, ownRate);
    if hops == [] {
      SilenceBegins(e, r, ownRate);
    } else {
      var shorter, h := hops[..|hops| - 1], hops[|hops| - 1];
      SilentExactlyWhileUnadjusted(r, ownRate, c, channels, shorter, tag);
      var f := After(e, c, channels, shorter, tag);
      if h.Reset? {
        SilenceBegins(f, r, ownRate);
      } else if h.Adjust? {
        AdjustmentUnmutes(f.r, h.adjust);
      } else if Unadjusted(shorter) {
        HopKeepsSilence(f, c, channels, h, tag);
      } else {
        HopKeepsUnmuted(f, c, channels, h, tag);
      }
    }
  }

  /** A packet with room for it joins the queue. */
  lemma HandedOn(r: OutputFifo.Ring, h: Heading, l: Lock, stray: nat, xs: seq<uint32>)
    requires Unmuted(r) && OutputFifo.FillLevel(r) + |xs| < |r.cells|
    ensures var s := OutputFifo.Pushed(OutputFifo.Maintained(MarkedBy(r, h, l, stray)), xs);
            Unmuted(s) && OutputFifo.Queue(s) == OutputFifo.Queue(r) + xs
  {
    var m := MarkedBy(r, h, l, stray);
    assert OutputFifo.Maintained(m) == m && OutputFifo.Queue(m) == OutputFifo.Queue(r);
    OutputFifoRuns.PushAllRefines(m, xs);
    OutputFifoRuns.PushKeepsReader(m, xs);
  }

  /** What a locked listener hands on are the low 24 bits of the channel's samples. */
  lemma ListenerHandsOn(e: Ear, c: nat, channels: int, p: Sending, words: seq<uint32>, ts: uint32, stray: nat,
                        tag: Label)
    requires Fitting(e, c, channels, p, words, ts, tag)
    requires e.l.count >= LOCK_COUNT ==> e.l.channels == channels
    ensures var h := HeadingOf(p, channels, ts);
            && PayloadWords(h.length) == Cell(p.n, 0, channels)
            && (e.l.count >= LOCK_COUNT ==>
                  Listener.Played(e.r, h, e.l, stray, c, words)
                  == OutputFifo.Pushed(OutputFifo.Maintained(MarkedBy(e.r, h, e.l, stray)), Low(p.xs[c])))
  {
    WordsOfLength(Cell(p.n, 0, channels));
    if e.l.count >= LOCK_COUNT {
      ListenerPushes(e.r, HeadingOf(p, channels, ts), e.l, c, words, p, tag, ts, stray);
    }
  }

  /** There is room for the packet, if it is handed on. */
  predicate HasRoom(e: Ear, h: Hop) {
    h.Arrive? && e.l.count >= LOCK_COUNT ==> OutputFifo.FillLevel(e.r) + h.p.n < |e.r.cells|
  }

  /** What a packet adds to the queue. */
  lemma HeededQueue(e: Ear, c: nat, channels: int, p: Sending, words: seq<uint32>, ts: uint32, stray: nat, tag: Label)
    requires Fitting(e, c, channels, p, words, ts, tag) && Unmuted(e.r) && HasRoom(e, Arrive(p, words, ts, stray))
    requires e.l.count >= LOCK_COUNT ==> e.l.channels == channels
    ensures var f := Heeded(e, c, channels, p, words, ts, stray, tag);
            && f.l == Observed(e.l, p.dbc, Cell(p.n, 0, channels)) && Unmuted(f.r)
            && OutputFifo.Queue(f.r)
               == OutputFifo.Queue(e.r) + if e.l.count >= LOCK_COUNT then Low(p.xs[c]) else []
  {
    ListenerHandsOn(e, c, channels, p, words, ts, stray, tag);
    if e.l.count >= LOCK_COUNT {
      HandedOn(e.r, HeadingOf(p, channels, ts), e.l, stray, Low(p.xs[c]));
    }
  }

  lemma LowCarriedSnoc(sent: seq<Sending>, p: Sending, c: nat)
    requires c < |p.xs|
    ensures Low(Carried(sent + [p], c)) == Low(Carried(sent, c)) + Low(p.xs[c])
  {
    CarriedSnoc(sent, p, c);
    LowSum(Carried(sent, c), p.xs[c]);
  }

  // ---------- from the last adjustment on ----------

  /**
   Of `more` packets behind `heard` ones, those that come when the listener is locked: behind the
   seventeenth in all.
   */
  function Handed(heard: nat, more: seq<Sending>): seq<Sending> {
    if heard >= 17 then more else if heard + |more| <= 17 then [] else more[17 - heard..]
  }

  /** Those that come before. */
  function Missed(heard: nat, more: seq<Sending>): seq<Sending> {
    if heard >= 17 then [] else if heard + |more| <= 17 then more else more[..17 - heard]
  }

  lemma HandedSnoc(heard: nat, more: seq<Sending>, p: Sending, c: nat)
    requires c < |p.xs|
    ensures Low(Carried(Handed(heard, more + [p]), c))
            == Low(Carried(Handed(heard, more), c)) + if heard + |more| >= 17 then Low(p.xs[c]) else []
  {
    if heard + |more| >= 17 {
      assert Handed(heard, more + [p]) == Handed(heard, more) + [p];
      LowCarriedSnoc(Handed(heard, more), p, c);
    } else {
      assert Handed(heard, more + [p]) == Handed(heard, more);
    }
  }

  /** Neither an adjustment nor a reset. */
  predicate Settled(hops: seq<Hop>) {
    forall i :: 0 <= i < |hops| ==> !hops[i].Adjust? && !hops[i].Reset?
  }

  /** The output FIFO has room for every packet that is handed on. */
  ghost predicate Roomy(e: Ear, c: nat, channels: int, hops: seq<Hop>, tag: Label)
    requires Flows(e, c, channels, hops, tag)
  {
    hops == [] ||
    (Roomy(e, c, channels, hops[..|hops| - 1], tag)
     && HasRoom(After(e, c, channels, hops[..|hops| - 1], tag), hops[|hops| - 1]))
  }

  /** From `e` on, which has heard `heard` packets, the FIFO has lost nothing of the `more` packets it was given. */
  predicate Delivers(e: Ear, f: Ear, heard: nat, more: seq<Sending>, out: seq<uint32>, c: nat) {
    && OutputFifo.InRange(e.r) && Unmuted(f.r)
    && out + OutputFifo.Queue(f.r) == OutputFifo.Queue(e.r) + Low(Carried(Handed(heard, more), c))
  }

  lemma ArrivalDelivers(e: Ear, f: Ear, heard: seq<Sending>, more: seq<Sending>, out: seq<uint32>, c: nat,
                        channels: int, p: Sending, words: seq<uint32>, ts: uint32, stray: nat, tag: Label, ownRate: int)
    requires Delivers(e, f, |heard|, more, out, c) && Fitting(f, c, channels, p, words, ts, tag)
    requires HasRoom(f, Arrive(p, words, ts, stray))
    requires f.l == Heard(Unlocked(ownRate), heard + more, channels) && FromTalker(heard + more, channels)
    ensures Delivers(e, Heeded(f, c, channels, p, words, ts, stray, tag), |heard|, more + [p], out, c)
  {
    ListenerLocks(heard + more, channels, ownRate);
    HeededQueue(f, c, channels, p, words, ts, stray, tag);
    HandedSnoc(|heard|, more, p, c);
    var added := if |heard| + |more| >= 17 then Low(p.xs[c]) else [];
    Assoc(out, OutputFifo.Queue(f.r), added);
    Assoc(OutputFifo.Queue(e.r), Low(Carried(Handed(|heard|, more), c)), added);
  }

  lemma OtherHopDelivers(e: Ear, f: Ear, heard: nat, more: seq<Sending>, out: seq<uint32>, c: nat, channels: int,
                         h: Hop, tag: Label)
    requires Delivers(e, f, heard, more, out, c) && (h.PlayOut? || h.Report?)
    ensures Delivers(e, Hopped(f, c, channels, h, tag), heard, more, out + OutOf(f.r, h), c)
  {
    if h.PlayOut? {
      OutputFifoRuns.PullRefines(f.r, h.time);
      if f.r.dptr != f.r.wrptr {
        Assoc(out, [f.r.cells[f.r.dptr]], OutputFifo.Queue(OutputFifo.Pulled(f.r, h.time)));
      } else {
        assert out + [] == out;
      }
    } else {
      assert OutputFifo.Queue(OutputFifo.Reported(f.r)) == OutputFifo.Queue(f.r);
      assert out + [] == out;
    }
  }

  lemma HopDelivers(e: Ear, f: Ear, heard: seq<Sending>, more: seq<Sending>, out: seq<uint32>, c: nat, channels: int,
                    h: Hop, tag: Label, ownRate: int)
    requires Delivers(e, f, |heard|, more, out, c) && Takes(f, c, channels, h, tag) && HasRoom(f, h)
    requires !h.Adjust? && !h.Reset?
    requires f.l == Heard(Unlocked(ownRate), heard + more, channels) && FromTalker(heard + more, channels)
    ensures Delivers(e, Hopped(f, c, channels, h, tag), |heard|, more + Carries(h), out + OutOf(f.r, h), c)
  {
    if h.Arrive? {
      ArrivalDelivers(e, f, heard, more, out, c, channels, h.p, h.words, h.ts, h.stray, tag, ownRate);
      assert out + [] == out;
    } else {
      OtherHopDelivers(e, f, |heard|, more, out, c, channels, h, tag);
      assert more + [] == more;
    }
  }

  /**
   A FIFO that plays, with a listener that has heard some packets: until the next adjustment or reset it plays what is
   queued and then the packets that come when the listener is locked.
   */
  lemma {:induction false} DeliveredOnceUnmuted(e: Ear, heard: seq<Sending>, c: nat, channels: int, hops: seq<Hop>,
                                                tag: Label, ownRate: int)
    requires Flows(e, c, channels, hops, tag) && Unmuted(e.r) && Settled(hops) && Roomy(e, c, channels, hops, tag)
    requires e.l == Heard(Unlocked(ownRate), heard, channels) && FromTalker(heard + Packets(hops), channels)
    ensures Delivers(e, After(e, c, channels, hops, tag), |heard|, Packets(hops), Out(e, c, channels, hops, tag), c)
    decreases |hops|
  {
    if hops == [] {
      assert Handed(|heard|, []) == [] && Carried([], c) == [] && Low([]) == [];
      assert [] + OutputFifo.Queue(e.r) == OutputFifo.Queue(e.r) + [];
    } else {
      var shorter, h := hops[..|hops| - 1], hops[|hops| - 1];
      var more := Packets(shorter);
      Assoc(heard, more, Carries(h));
      FromTalkerPrefix(heard + more, Carries(h), channels);
      DeliveredOnceUnmuted(e, heard, c, channels, shorter, tag, ownRate);
      LockFollowsPackets(e, c, channels, shorter, tag);
      HeardSum(Unlocked(ownRate), heard, more, channels);
      var f, out := After(e, c, channels, shorter, tag), Out(e, c, channels, shorter, tag);
      HopDelivers(e, f, heard, more, out, c, channels, h, tag, ownRate);
    }
  }

  // ---------- from the packets to the samples played ----------

  lemma RunIsFromTalker(u: Source, events: seq<Event>, sent: seq<Sending>)
    requires AtStart(u) && NeverOverflows(u, events) && u.s.interval < 256 && sent <= Runs(u, events).1
    ensures FromTalker(sent, |u.fs|)
  {
    StartIsOrderly(u);
    RunAsSeen(u, events);
    TalkerIsHeard(StreamOf(u), Inputs(u, events), |u.fs|, 0);
    var all := Runs(u, events).1;
    assert sent + all[|sent|..] == all;
    FromTalkerPrefix(sent, all[|sent|..], |u.fs|);
  }

  /**
   A listener configured for the stream, which has heard packets of the talker when the media clock
   adjusts its FIFO.
   */
  ghost predicate Listens(u: Source, events: seq<Event>, c: nat, e: Ear, before: seq<Hop>, adjust: int,
                          after: seq<Hop>, tag: Label) {
    && AtStart(u) && NeverOverflows(u, events) && u.s.interval < 256
    && Packets(before) + Packets(after) <= Runs(u, events).1
    && Flows(e, c, |u.fs|, before, tag)
    && Flows(AdjustedAfter(e, c, |u.fs|, before, adjust, tag), c, |u.fs|, after, tag)
  }

  ghost function AdjustedAfter(e: Ear, c: nat, channels: int, before: seq<Hop>, adjust: int, tag: Label): Ear
    requires Flows(e, c, channels, before, tag)
  {
    var f := After(e, c, channels, before, tag);
    f.(r := OutputFifo.Adjusted(f.r, adjust))
  }

  /**
   The audio path is the identity on the low 24 bits from an adjustment to the next adjustment or reset, in every run of
   a talker and in every run of a listener from its configuration on: what is played and what is queued at the end are
   what was queued at the adjustment, followed by the samples of all packets that came since then while the listener was
   locked, in order.
   */
  lemma AudioPathIsIdentity(u: Source, events: seq<Event>, c: nat, r: OutputFifo.Ring, ownRate: int, before: seq<Hop>,
                            adjust: int, after: seq<Hop>, tag: Label)
    requires OutputFifo.InRange(r) && Listens(u, events, c, Configure(r, ownRate), before, adjust, after, tag)
    requires Settled(after)
    requires Roomy(AdjustedAfter(Configure(r, ownRate), c, |u.fs|, before, adjust, tag), c, |u.fs|, after, tag)
    ensures var f := AdjustedAfter(Configure(r, ownRate), c, |u.fs|, before, adjust, tag);
            var g := After(f, c, |u.fs|, after, tag);
            && Unmuted(g.r)
            && Out(f, c, |u.fs|, after, tag) + OutputFifo.Queue(g.r)
               == OutputFifo.Queue(f.r) + Low(Carried(Handed(|Packets(before)|, Packets(after)), c))
  {
    var e := Configure(r, ownRate);
    RunIsFromTalker(u, events, Packets(before) + Packets(after));
    LockFollowsPackets(e, c, |u.fs|, before, tag);
    AdjustmentUnmutes(After(e, c, |u.fs|, before, tag).r, adjust);
    var f := AdjustedAfter(e, c, |u.fs|, before, adjust, tag);
    DeliveredOnceUnmuted(f, Packets(before), c, |u.fs|, after, tag, ownRate);
  }

  // ---------- a talker's packets are taken ----------

  /** The words that come are those of the packets, and each packet is short enough for its length field. */
  ghost predicate AsSent(hops: seq<Hop>, channels: int, tag: Label) {
    forall i :: 0 <= i < |hops| && hops[i].Arrive? ==>
      && OnWire(hops[i].p, hops[i].words, channels, tag)
      && CIP_HDR_SIZE + 4 * Cell(hops[i].p.n, 0, channels) < TWO_TO_16
  }

  lemma ArrivalFits(f: Ear, heard: seq<Sending>, c: nat, channels: int, h: Hop, tag: Label, ownRate: int)
    requires OutputFifo.InRange(f.r) && h.Arrive? && c < channels
    requires OnWire(h.p, h.words, channels, tag) && CIP_HDR_SIZE + 4 * Cell(h.p.n, 0, channels) < TWO_TO_16
    requires FromTalker(heard, channels) && f.l == Heard(Unlocked(ownRate), heard, channels)
    ensures Takes(f, c, channels, h, tag)
  {
    ListenerLocks(heard, channels, ownRate);
    if f.l.count >= LOCK_COUNT {
      ListenerPushes(f.r, HeadingOf(h.p, channels, h.ts), f.l, c, h.words, h.p, tag, h.ts, h.stray);
    }
  }

  lemma {:induction false} PacketsAreTaken(e: Ear, heard: seq<Sending>, c: nat, channels: int, hops: seq<Hop>,
                                           tag: Label, ownRate: int)
    requires OutputFifo.InRange(e.r) && c < channels && AsSent(hops, channels, tag)
    requires FromTalker(heard + Packets(hops), channels) && e.l == Heard(Unlocked(ownRate), heard, channels)
    ensures Flows(e, c, channels, hops, tag)
    decreases |hops|
  {
    if hops == [] {
    } else {
      var shorter, h := hops[..|hops| - 1], hops[|hops| - 1];
      Assoc(heard, Packets(shorter), Carries(h));
      FromTalkerPrefix(heard + Packets(shorter), Carries(h), channels);
      PacketsAreTaken(e, heard, c, channels, shorter, tag, ownRate);
      LockFollowsPackets(e, c, channels, shorter, tag);
      HeardSum(Unlocked(ownRate), heard, Packets(shorter), channels);
      if h.Arrive? {
        ArrivalFits(After(e, c, channels, shorter, tag), heard + Packets(shorter), c, channels, h, tag, ownRate);
      }
    }
  }

  /**
   A listener takes every packet of a talker, at every rate a talker can be configured for, in every run and whenever it
   comes: once the listener is locked, the payload has the words of every channel it looks for.
   */
  lemma TalkerIsListenedTo(u: Source, events: seq<Event>, c: nat, r: OutputFifo.Ring, ownRate: int, before: seq<Hop>,
                           adjust: int, after: seq<Hop>, tag: Label)
    requires AtStart(u) && NeverOverflows(u, events) && u.s.interval < 256 && c < |u.fs|
    requires OutputFifo.InRange(r) && AsSent(before, |u.fs|, tag) && AsSent(after, |u.fs|, tag)
    requires Packets(before) + Packets(after) <= Runs(u, events).1
    ensures Listens(u, events, c, Configure(r, ownRate), before, adjust, after, tag)
  {
    var e, heard := Configure(r, ownRate), Packets(before);
    RunIsFromTalker(u, events, heard + Packets(after));
    FromTalkerPrefix(heard, Packets(after), |u.fs|);
    assert [] + heard == heard;
    PacketsAreTaken(e, [], c, |u.fs|, before, tag, ownRate);
    LockFollowsPackets(e, c, |u.fs|, before, tag);
    PacketsAreTaken(AdjustedAfter(e, c, |u.fs|, before, adjust, tag), heard, c, |u.fs|, after, tag, ownRate);
  }

  // ---------- from the samples pushed to the samples played ----------

  lemma CarriedSum(a: seq<Sending>, b: seq<Sending>, c: nat)
    ensures Carried(a + b, c) == Carried(a, c) + Carried(b, c)
  {
    FlatMapAppend(Column(c), a, b);
  }

  lemma PartsOfStream(heard: seq<Sending>, more: seq<Sending>, sent: seq<Sending>, c: nat)
    requires heard + more <= sent
    ensures Carried(sent, c)
            == Carried(heard + Missed(|heard|, more), c) + Carried(Handed(|heard|, more), c)
               + Carried(sent[|heard| + |more|..], c)
  {
    var lead, handed, rest := heard + Missed(|heard|, more), Handed(|heard|, more), sent[|heard| + |more|..];
    assert sent == lead + handed + rest;
    CarriedSum(lead + handed, rest, c);
    CarriedSum(lead, handed, c);
  }

  /** Where the samples pushed on a channel are, when `heard` and then `more` of the talker's packets have come. */
  ghost predicate InParts(u: Source, events: seq<Event>, c: nat, heard: seq<Sending>, more: seq<Sending>) {
    var (v, sent) := Runs(u, events);
    && c < |v.fs| && heard + more <= sent
    && Samples(Given(events, c))
       == Carried(heard + Missed(|heard|, more), c) + Carried(Handed(|heard|, more), c)
          + Carried(sent[|heard| + |more|..], c) + Rest(StreamOf(v), c) + v.fs[c].partial
  }

  lemma PushedInParts(u: Source, events: seq<Event>, c: nat, heard: seq<Sending>, more: seq<Sending>)
    requires AtStart(u) && NeverOverflows(u, events) && c < |u.fs| && heard + more <= Runs(u, events).1
    ensures InParts(u, events, c, heard, more)
  {
    WireCarriesWhatIsPushed(u, events, c);
    PartsOfStream(heard, more, Runs(u, events).1, c);
  }

  /**
   From the samples pushed to the samples played: of each channel, the samples pushed into the input FIFO are, in this
   order, those in packets that came before the adjustment or before the lock, those that the output FIFO was given
   since then, and those still on the wire and in the talker. Those in the middle, and nothing else, are played behind
   what was queued.
   */
  lemma PushedIsPlayed(u: Source, events: seq<Event>, c: nat, r: OutputFifo.Ring, ownRate: int, before: seq<Hop>,
                       adjust: int, after: seq<Hop>, tag: Label)
    requires OutputFifo.InRange(r) && Listens(u, events, c, Configure(r, ownRate), before, adjust, after, tag)
    requires Settled(after) && c < |u.fs|
    requires Roomy(AdjustedAfter(Configure(r, ownRate), c, |u.fs|, before, adjust, tag), c, |u.fs|, after, tag)
    ensures InParts(u, events, c, Packets(before), Packets(after))
    ensures var f := AdjustedAfter(Configure(r, ownRate), c, |u.fs|, before, adjust, tag);
            Out(f, c, |u.fs|, after, tag) + OutputFifo.Queue(After(f, c, |u.fs|, after, tag).r)
            == OutputFifo.Queue(f.r) + Low(Carried(Handed(|Packets(before)|, Packets(after)), c))
  {
    AudioPathIsIdentity(u, events, c, r, ownRate, before, adjust, after, tag);
    PushedInParts(u, events, c, Packets(before), Packets(after));
  }
}
