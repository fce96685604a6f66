/**
 The timestamps on the wire in terms of the samples that were pushed: over whole runs of a talker with its input FIFOs,
 the sample a timestamp is for, and the time it was pushed at.
 */
module TalkerTimestamps {
  import opened Bytes
  import opened Seqs
  import opened Wrappers
  import opened Avtp
  import opened InputFifo
  import opened Talker
  import opened TalkerRuns
  import opened TalkerSupply

  // ---------- block counts stay aligned ----------

  predicate AlignedFifo(f: FifoState, p: int) {
    p > 0 && f.dbc % p == 0 && AlignedQueue(f.queue, p)
  }

  predicate AllAligned(u: Source) {
    forall c :: 0 <= c < |u.fs| ==> AlignedFifo(u.fs[c], u.s.interval)
  }

  lemma OperatedAligned(u: Source, f: FifoState, o: Operation)
    requires IsSytInterval(u.s.interval) && AlignedFifo(f, u.s.interval)
    ensures AlignedFifo(Operated(u, f, o), u.s.interval)
  {
    var g, p := Operated(u, f, o), u.s.interval;
    NextIsAligned(f.dbc, p);
    forall i | 0 <= i < |g.queue| ensures AlignedPacket(g.queue[i], p) {
      assert i < |f.queue| ==> AlignedPacket(f.queue[i], p);
      assert i + 1 < |f.queue| ==> AlignedPacket(f.queue[i + 1], p);
    }
  }

  /** In every run, with or without overflows, the block counts of all FIFOs are multiples of the SYT interval. */
  lemma {:induction false} AlignedInEveryRun(u: Source, events: seq<Event>)
    requires AtStart(u) && IsSytInterval(u.s.interval)
    ensures AllAligned(Runs(u, events).0) && Runs(u, events).0.s.interval == u.s.interval
    decreases |events|
  {
    if events == [] {
    } else {
      var v, e := Runs(u, events[..|events| - 1]).0, events[|events| - 1];
      AlignedInEveryRun(u, events[..|events| - 1]);
      RunKeepsShape(u, events);
      forall c | 0 <= c < |v.fs| ensures AlignedFifo(FifoAfter(v, e, c), v.s.interval) {
        assert AlignedFifo(v.fs[c], v.s.interval);
        var o := OperationOn(v, e, c);
        if o.Some? {
          OperatedAligned(v, v.fs[c], o.value);
        }
      }
    }
  }

  // ---------- where the talker is in the stream ----------

  lemma {:induction false} FlatSize(q: seq<FifoPacket>, p: int)
    requires Uniform(q, p)
    ensures |Flat(q)| == Product(p, |q|)
  {
    if q == [] {
    } else {
      FlatSize(q[1..], p);
      ProductStep(p, |q| - 1);
    }
  }

  /** A queue of a channel is what is left of the cut stream, and the talker is that far in the stream. */
  ghost predicate Placed(s: Progress, q: seq<FifoPacket>, given: seq<Stamped>, p: nat, total: int) {
    p > 0 &&
    var packets := Cut(given, p, 0).packets;
    var t := |packets| - |q|;
    t >= 0 && q == packets[t..] && total == Product(p, t) + Gone(s)
  }

  lemma Differ(p: int, a: int, b: int)
    ensures Product(p, a) - Product(p, b) == Product(p, a - b)
  {
  }

  /** What is counted of a channel: carried, left in complete packets, and in the packet being filled. */
  lemma PlacedByCount(s: Progress, f: FifoState, taken: seq<FifoPacket>, given: seq<Stamped>, p: nat, total: int,
                      rest: seq<uint32>)
    requires p > 0 && HoldsStream(f, taken, Cut(given, p, 0)) && Uniform(f.queue, p) && 0 <= Gone(s)
    requires (s.initial || Gone(s) <= |Flat(f.queue)|) && rest == Remaining(f.queue, Gone(s))
    requires total + |rest| + |f.partial| == |given|
    ensures Placed(s, f.queue, given, p, total)
  {
    FlatSize(f.queue, p);
    CutLength(given, p, 0);
    Differ(p, |Cut(given, p, 0).packets|, |f.queue|);
  }

  lemma InStream(u: Source, events: seq<Event>, c: nat)
    requires AtStart(u) && NeverOverflows(u, events) && c < |u.fs|
    ensures var (v, sent) := Runs(u, events);
            && |v.fs| == |u.fs| && v.s.interval == u.s.interval && v.size == u.size && Sound(StreamOf(v))
            && Filled(sent, |u.fs|)
            && Placed(v.s, v.fs[c].queue, Given(events, c), IntervalOf(u), Total(sent))
  {
    var (v, sent) := Runs(u, events);
    StartIsOrderly(u);
    RunAsSeen(u, events);
    var p, ops, q := IntervalOf(u), Operations(u, events, c), StreamOf(v).qs[c];
    PacketsFilled(StreamOf(u), Inputs(u, events));
    FifoRuns(u, events, c);
    QueueIsTheStream(p, SlotsOf(u), ops);
    WireCarriesWhatIsPushed(u, events, c);
    CarriedLength(sent, c, |u.fs|);
    assert Has(q, if v.s.initial then 0 else 1, v.s.interval);
    FlatSize(q, p);
    ProductAtLeast(p, |q|);
    PlacedByCount(v.s, v.fs[c], InputFifo.Run(p, SlotsOf(u), ops).1, Given(events, c), p, Total(sent),
                  Rest(StreamOf(v), c));
  }

  lemma ProductAtLeast(p: nat, n: nat)
    ensures n >= 1 ==> Product(p, n) >= p
  {
    if n > 1 && p > 0 {
      Multiples(1, n, p);
    }
  }

  // ---------- one packet ----------

  /** Sample `i` of a channel begins a FIFO packet. */
  predicate BeginsPacket(i: int, p: int) {
    p > 0 && i % p == 0
  }

  lemma BeginsAt(p: int, t: int, r: int)
    requires p > 0 && 0 <= r <= p
    ensures BeginsPacket(Product(p, t) + r, p) <==> r == 0 || r == p
  {
    if r < p {
      QuotientIs(t, r, p, Product(p, t) + r);
    } else {
      ProductStep(p, t);
      QuotientIs(t + 1, 0, p, Product(p, t) + r);
    }
  }

  /** The time of packet `j` of a queue is that of the sample it begins with. */
  lemma HeadInStream(s: Progress, q: seq<FifoPacket>, given: seq<Stamped>, p: nat, total: int, j: nat)
    requires Placed(s, q, given, p, total) && j < |q|
    ensures var i := total - Gone(s) + Product(p, j);
            0 <= i && i + p <= |given| && BeginsPacket(i, p) && q[j].ts == given[i].ts
  {
    var packets := Cut(given, p, 0).packets;
    var t := |packets| - |q|;
    CutAt(given, p, 0, t + j);
    Differ(p, t + j, j);
    BeginsAt(p, t + j, 0);
  }

  /**
   Behind `at` samples, the packet has a timestamp exactly if a sample that begins a FIFO packet is in it; and then the
   sample a listener computes from the block count is that one, and the timestamp is the time it was pushed at.
   */
  ghost predicate TimedRight(p: Sending, at: int, interval: int, given: seq<Stamped>) {
    && 0 <= at && 0 < interval && 1 <= p.n <= interval && at + p.n <= |given|
    && (p.valid <==> exists i :: at <= i < at + p.n && BeginsPacket(i, interval))
    && (p.valid ==>
          var i := at + SampleNumber(p.dbc, interval);
          at <= i < at + p.n && BeginsPacket(i, interval) && p.ts == given[i].ts)
  }

  /** No sample of a packet within a FIFO packet begins one. */
  lemma NoneBegins(s: Progress, total: int, p: nat, t: int, n: int)
    requires p > 0 && total == Product(p, t) + Gone(s) && 0 < Gone(s) && 0 <= n && Gone(s) + n <= p
    ensures forall i :: total <= i < total + n ==> !BeginsPacket(i, p)
  {
    forall i | total <= i < total + n ensures !BeginsPacket(i, p) {
      BeginsAt(p, t, i - total + Gone(s));
    }
  }

  lemma TimedAt(x: Sending, at: int, interval: int, given: seq<Stamped>, i: int)
    requires 0 <= at && 0 < interval && 1 <= x.n <= interval && at + x.n <= |given| && x.valid
    requires i == at + SampleNumber(x.dbc, interval) && at <= i < at + x.n && BeginsPacket(i, interval)
    requires x.ts == given[i].ts
    ensures TimedRight(x, at, interval, given)
  {
  }

  /** A packet that begins a FIFO packet: the first packet sent, or one that straddles. */
  lemma StartIsTimed(s: Progress, x: Sending, q: seq<FifoPacket>, given: seq<Stamped>, p: nat, total: int, j: nat)
    requires Placed(s, q, given, p, total) && s.interval == p && j < |q| && j == (if s.initial then 0 else 1)
    requires !s.initial ==> 0 <= s.left < p && s.left < x.n
    requires 1 <= x.n <= p && x.valid && x.ts == q[j].ts
    requires SampleNumber(x.dbc, p) == if s.initial then 0 else s.left
    ensures TimedRight(x, total, p, given)
  {
    HeadInStream(s, q, given, p, total, j);
    ProductStep(p, 0);
    TimedAt(x, total, p, given, total - Gone(s) + Product(p, j));
  }

  /** The FIFO packet whose time and block count go into the header. */
  lemma HeadAfter(t: Stream, time: uint32, fed: bool, q: seq<FifoPacket>)
    requires Sound(t) && Makes(t.s, t.qs, t.fifoSize, time, fed) && q == t.qs[|t.qs| - 1]
    ensures var n := PacketSamples(t.s);
            && 1 <= n <= t.s.interval && |q| >= (if t.s.initial || Straddles(t.s, n) then 2 else 1)
            && Head(QueuesAfter(t.s, n, t.qs)) == if Straddles(t.s, n) then q[1] else q[0]
  {
    var n := PacketSamples(t.s);
    MakesHas(t, time, fed);
    assert Has(q, if t.s.initial || t.s.left < n then 2 else 1, t.s.interval);
  }

  lemma StepIsTimed(t: Stream, time: uint32, fed: bool, given: seq<Stamped>, p: nat, total: int)
    requires Sound(t) && Makes(t.s, t.qs, t.fifoSize, time, fed) && p == t.s.interval && IsSytInterval(p)
    requires Placed(t.s, t.qs[|t.qs| - 1], given, p, total) && Head(t.qs).dbc % p == 0
    ensures TimedRight(PacketOf(t), total, p, given)
  {
    var q, n := t.qs[|t.qs| - 1], PacketSamples(t.s);
    HeadAfter(t, time, fed, q);
    if t.s.initial || Straddles(t.s, n) {
      CountPointsAt(t.s, Head(QueuesAfter(t.s, n, t.qs)));
      StartIsTimed(t.s, PacketOf(t), q, given, p, total, if t.s.initial then 0 else 1);
    } else {
      HeadInStream(t.s, q, given, p, total, 0);
      NoneBegins(t.s, total, p, |Cut(given, p, 0).packets| - |q|, n);
    }
  }

  // ---------- every packet of every run ----------

  /**
   In every run: a packet with a timestamp has that of the last channel's FIFO packet, and in each channel the sample
   the listener computes is the first of that channel's FIFO packet, and the only first sample there; a packet without
   one holds no first sample.
   */
  lemma AgreementInEveryRun(u: Source, events: seq<Event>, time: uint32, fed: bool, c: nat, v: Source, p: Sending)
    requires AtStart(u) && IsSytInterval(u.s.interval) && NeverOverflows(u, events) && c < |u.fs|
    requires v == Runs(u, events).0 && Next(v, Poll(time, fed)).1 == Some(p)
    ensures var qs, after := StreamOf(v).qs, StreamOf(Next(v, Poll(time, fed)).0).qs;
            && |qs| == |after| == |p.xs| == |u.fs| && after[c] != []
            && if p.valid then
                 && p.ts == Head(after).ts
                 && StartsOnce(v.s, p.xs[c], SampleNumber(p.dbc, u.s.interval), p.n, qs[c], after[c][0].samples)
               else HoldsNoStart(v.s, p.n, qs[c], after[c], p.xs[c])
  {
    InStream(u, events, c);
    AlignedInEveryRun(u, events);
    HeadIsAligned(v, time, fed);
    PollAsSeen(v, time, fed);
    TimestampAgreement(StreamOf(v), time, fed, c);
  }

  lemma HeadIsAligned(v: Source, time: uint32, fed: bool)
    requires Sound(StreamOf(v)) && AllAligned(v) && Next(v, Poll(time, fed)).1.Some?
    ensures Head(StreamOf(v).qs).dbc % v.s.interval == 0
  {
    var t, c := StreamOf(v), |v.fs| - 1;
    MakesHas(t, time, fed);
    assert Has(t.qs[c], if v.s.initial || v.s.left < PacketSamples(v.s) then 2 else 1, v.s.interval);
    assert AlignedFifo(v.fs[c], v.s.interval) && AlignedPacket(t.qs[c][0], v.s.interval);
  }

  lemma AttemptIsTimed(v: Source, time: uint32, fed: bool, c: nat, given: seq<Stamped>, total: int)
    requires Sound(StreamOf(v)) && AllAligned(v) && IsSytInterval(v.s.interval) && Next(v, Poll(time, fed)).1.Some?
    requires |v.fs| == c + 1 && Placed(v.s, v.fs[c].queue, given, IntervalOf(v), total)
    ensures TimedRight(Next(v, Poll(time, fed)).1.value, total, v.s.interval, given)
  {
    HeadIsAligned(v, time, fed);
    StepIsTimed(StreamOf(v), time, fed, given, v.s.interval, total);
  }

  /** The next packet of a run is timed right. */
  lemma NextIsTimed(u: Source, events: seq<Event>, time: uint32, fed: bool)
    requires AtStart(u) && IsSytInterval(u.s.interval) && NeverOverflows(u, events)
    requires Next(Runs(u, events).0, Poll(time, fed)).1.Some?
    ensures var (v, sent) := Runs(u, events);
            TimedRight(Next(v, Poll(time, fed)).1.value, Total(sent), u.s.interval, Given(events, |u.fs| - 1))
  {
    var (v, sent) := Runs(u, events);
    var c := |u.fs| - 1;
    InStream(u, events, c);
    AlignedInEveryRun(u, events);
    assert IntervalOf(v) == IntervalOf(u);
    AttemptIsTimed(v, time, fed, c, Given(events, c), Total(sent));
  }

  /** The samples of a channel that a packet behind `at` of them holds. */
  predicate HoldsSamples(p: Sending, c: nat, at: int, given: seq<Stamped>) {
    c < |p.xs| && 0 <= at && 0 <= p.n && at + p.n <= |given| && p.xs[c] == Samples(given[at..at + p.n])
  }

  lemma SliceOfSum(a: seq<uint32>, x: seq<uint32>, b: seq<uint32>, given: seq<Stamped>)
    requires a + x + b == Samples(given)
    ensures |a| + |x| <= |given| && x == Samples(given[|a|..|a| + |x|])
  {
    assert |a + x + b| == |given|;
    forall i | 0 <= i < |x| ensures x[i] == given[|a| + i].sample {
      assert (a + x + b)[|a| + i] == x[i];
    }
  }

  /** One attempt more. */
  lemma RunWithPoll(u: Source, events: seq<Event>, e: Event)
    requires e.Poll? && Next(Runs(u, events).0, e).1.Some?
    ensures var (v, sent) := Runs(u, events);
            Runs(u, events + [e]) == (Next(v, e).0, sent + [Next(v, e).1.value])
    ensures NeverOverflows(u, events) ==> NeverOverflows(u, events + [e])
    ensures forall c :: Given(events + [e], c) == Given(events, c)
  {
    assert (events + [e])[..|events|] == events;
  }

  /** What is carried by packets is what comes first of the samples pushed. */
  lemma CarriedFirst(u: Source, events: seq<Event>, c: nat)
    requires AtStart(u) && NeverOverflows(u, events) && c < |u.fs|
    ensures Filled(Runs(u, events).1, |u.fs|) && Carried(Runs(u, events).1, c) <= Samples(Given(events, c))
  {
    InStream(u, events, c);
    WireCarriesWhatIsPushed(u, events, c);
    var (v, sent) := Runs(u, events);
    Assoc(Carried(sent, c), Rest(StreamOf(v), c), v.fs[c].partial);
  }

  /** The next packet of a run holds the samples that come next. */
  lemma NextHolds(u: Source, events: seq<Event>, time: uint32, fed: bool, c: nat)
    requires AtStart(u) && NeverOverflows(u, events) && c < |u.fs|
    requires Next(Runs(u, events).0, Poll(time, fed)).1.Some?
    ensures var (v, sent) := Runs(u, events);
            HoldsSamples(Next(v, Poll(time, fed)).1.value, c, Total(sent), Given(events, c))
  {
    var e, sent := Poll(time, fed), Runs(u, events).1;
    RunWithPoll(u, events, e);
    CarriedFirst(u, events, c);
    CarriedFirst(u, events + [e], c);
    HoldsNext(sent, Next(Runs(u, events).0, e).1.value, c, |u.fs|, Given(events, c));
  }

  lemma HoldsNext(sent: seq<Sending>, p: Sending, c: nat, channels: int, given: seq<Stamped>)
    requires Filled(sent, channels) && Filled(sent + [p], channels) && c < channels
    requires Carried(sent + [p], c) <= Samples(given)
    ensures HoldsSamples(p, c, Total(sent), given)
  {
    assert FilledPacket((sent + [p])[|sent|], channels);
    CarriedLength(sent, c, channels);
    CarriedSnoc(sent, p, c);
    var b := Samples(given)[|Carried(sent + [p], c)|..];
    assert Carried(sent, c) + p.xs[c] + b == Samples(given);
    SliceOfSum(Carried(sent, c), p.xs[c], b, given);
  }

  /** Packet `j` of a run is made by attempt `m`, after which only more samples are pushed. */
  ghost predicate MadeAt(u: Source, events: seq<Event>, j: nat, m: nat) {
    && m < |events| && j < |Runs(u, events).1| && events[m].Poll?
    && Runs(u, events[..m]).1 == Runs(u, events).1[..j]
    && Next(Runs(u, events[..m]).0, events[m]).1 == Some(Runs(u, events).1[j])
    && forall c :: Given(events[..m], c) <= Given(events, c)
  }

  lemma {:induction false} PacketIsMade(u: Source, events: seq<Event>, j: nat) returns (m: nat)
    requires NeverOverflows(u, events) && j < |Runs(u, events).1|
    ensures MadeAt(u, events, j, m) && NeverOverflows(u, events[..m])
    decreases |events|
  {
    var n := |events| - 1;
    var shorter, sent := events[..n], Runs(u, events[..n]).1;
    if j < |sent| {
      m := PacketIsMade(u, shorter, j);
      assert shorter[..m] == events[..m] && Runs(u, events).1[..j] == sent[..j];
    } else {
      m := n;
      assert Runs(u, events).1[..j] == sent;
    }
  }

  lemma TimedByMore(p: Sending, at: int, interval: int, given: seq<Stamped>, all: seq<Stamped>)
    requires given <= all
    ensures TimedRight(p, at, interval, given) ==> TimedRight(p, at, interval, all)
    ensures forall c :: HoldsSamples(p, c, at, given) ==> HoldsSamples(p, c, at, all)
  {
    if 0 <= at && 0 <= p.n && at + p.n <= |given| {
      assert given[at..at + p.n] == all[at..at + p.n];
    }
  }

  /**
   Timestamps over whole runs of a talker and its input FIFOs, which never overflow: every packet holds, of each
   channel, the samples pushed behind those of the packets before. It has a timestamp exactly if one of them begins a
   FIFO packet, which can only be one; the block count points at that sample; and the timestamp is the time at which
   that sample of the last channel was pushed.
   */
  lemma TimestampsInEveryRun(u: Source, events: seq<Event>, j: nat)
    requires AtStart(u) && IsSytInterval(u.s.interval) && NeverOverflows(u, events) && j < |Runs(u, events).1|
    ensures var sent := Runs(u, events).1;
            && TimedRight(sent[j], Total(sent[..j]), u.s.interval, Given(events, |u.fs| - 1))
            && forall c :: 0 <= c < |u.fs| ==> HoldsSamples(sent[j], c, Total(sent[..j]), Given(events, c))
  {
    var sent := Runs(u, events).1;
    var m := PacketIsMade(u, events, j);
    var e, last := events[m], |u.fs| - 1;
    NextIsTimed(u, events[..m], e.time, e.fed);
    TimedByMore(sent[j], Total(sent[..j]), u.s.interval, Given(events[..m], last), Given(events, last));
    forall c: nat | c < |u.fs| ensures HoldsSamples(sent[j], c, Total(sent[..j]), Given(events, c)) {
      NextHolds(u, events[..m], e.time, e.fed, c);
      TimedByMore(sent[j], Total(sent[..j]), u.s.interval, Given(events[..m], c), Given(events, c));
    }
  }

  /** No packet holds two samples that begin FIFO packets. */
  lemma BeginsOnce(p: Sending, at: int, interval: int, given: seq<Stamped>, i: int, k: int)
    requires TimedRight(p, at, interval, given) && at <= i < at + p.n && at <= k < at + p.n
    requires BeginsPacket(i, interval) && BeginsPacket(k, interval)
    ensures i == k
  {
    if i < k {
      ApartByInterval(i, k, interval);
    } else if k < i {
      ApartByInterval(k, i, interval);
    }
  }

  lemma ApartByInterval(i: int, k: int, p: int)
    requires p > 0 && i < k && i % p == 0 && k % p == 0
    ensures k - i >= p
  {
    if i / p < k / p {
      Multiples(i / p, k / p, p);
    } else {
      assert k / p <= i / p;
    }
  }
}
