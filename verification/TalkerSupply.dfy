/**
 A talker with the input FIFOs it reads: samples pushed into the FIFOs of its channels, attempts to send, and packets
 released from every FIFO when a wire packet has used them up.
 */
module TalkerSupply {
  import opened Bytes
  import opened Seqs
  import opened Wrappers
  import opened InputFifo
  import opened Talker
  import opened TalkerRuns

  /** The talker's progress and the FIFOs of its channels, of `size` words each. */
  datatype Source = Source(s: Progress, fs: seq<FifoState>, size: nat)

  /** A sample pushed into the FIFO of channel `c`, or an attempt to send. */
  datatype Event = Feed(c: nat, x: Stamped) | Poll(time: uint32, fed: bool)

  /** What the talker sees: the complete packets of each FIFO. */
  function StreamOf(u: Source): Stream {
    Stream(u.s, seq(|u.fs|, c requires 0 <= c < |u.fs| => u.fs[c].queue), u.size)
  }

  function IntervalOf(u: Source): nat {
    if u.s.interval > 0 then u.s.interval else 0
  }

  /** The packets of the talker's rate that fit in a FIFO, one of which is being filled. */
  function SlotsOf(u: Source): nat {
    if u.size > 0 then Slots(u.size, IntervalOf(u) + 2) else 0
  }

  function Operated(u: Source, f: FifoState, o: Operation): FifoState {
    Stepped(f, [], IntervalOf(u), SlotsOf(u), o).0
  }

  /** The attempt makes a packet that uses up the FIFO packets in hand. */
  predicate Releases(u: Source, e: Event) {
    e.Poll? && Makes(u.s, StreamOf(u).qs, u.size, e.time, e.fed) && Straddles(u.s, PacketSamples(u.s))
  }

  /** What the event does to the FIFO of channel `c`, if anything. */
  function OperationOn(u: Source, e: Event, c: nat): Option<Operation> {
    match e
    case Feed(d, x) => if d == c then Some(Push(x)) else None
    case Poll(_, _) => if Releases(u, e) then Some(Take) else None
  }

  function FifoAfter(u: Source, e: Event, c: nat): FifoState
    requires c < |u.fs|
  {
    match OperationOn(u, e, c)
    case Some(o) => Operated(u, u.fs[c], o)
    case None => u.fs[c]
  }

  function Next(u: Source, e: Event): (Source, Option<Sending>) {
    var (s, packet) := if e.Poll? then
                         var (v, p) := Step(StreamOf(u), Attempt(e.time, e.fed)); (v.s, p)
                       else (u.s, None);
    (Source(s, seq(|u.fs|, c requires 0 <= c < |u.fs| => FifoAfter(u, e, c)), u.size), packet)
  }

  function Runs(u: Source, events: seq<Event>): (Source, seq<Sending>) {
    if events == [] then (u, [])
    else
      var (v, sent) := Runs(u, events[..|events| - 1]);
      var (w, packet) := Next(v, events[|events| - 1]);
      (w, if packet.Some? then sent + [packet.value] else sent)
  }

  /** A talker of a rate that was just started, with empty FIFOs. */
  function Begun(rate: int, channels: nat, size: nat): Source {
    Source(Started(rate), seq(channels, c => FifoState([], [], 0, 0)), size)
  }

  // ---------- one event ----------

  /** The event completes a packet in the FIFO of its channel. */
  predicate Completes(u: Source, e: Event) {
    e.Feed? && e.c < |u.fs| && |u.fs[e.c].partial| + 1 == u.s.interval
  }

  /** The packet it completes. */
  function CompletedBy(u: Source, e: Event): FifoPacket
    requires Completes(u, e)
  {
    var f := u.fs[e.c];
    FifoPacket(if f.partial == [] then e.x.ts else f.stamp, f.dbc, f.partial + [e.x.sample])
  }

  /** The event leaves room: no packet is completed while all slots but one are queued. */
  predicate LeavesRoom(u: Source, e: Event) {
    Completes(u, e) ==> |u.fs[e.c].queue| + 1 < SlotsOf(u)
  }

  /** The event as the talker sees it. */
  function Seen(u: Source, e: Event): seq<Input> {
    match e
    case Feed(c, x) => if Completes(u, e) then [Fill(c, CompletedBy(u, e))] else []
    case Poll(time, fed) => [Attempt(time, fed)]
  }

  /** FIFOs between two events: packets of one size, numbered one after the other, the next one begun. */
  predicate Orderly(f: FifoState, p: int) {
    && |f.partial| < p && (f.queue != [] ==> f.dbc == Wrap32(f.queue[|f.queue| - 1].dbc + p))
  }

  predicate AllOrderly(u: Source) {
    forall c :: 0 <= c < |u.fs| ==> Orderly(u.fs[c], u.s.interval)
  }

  lemma OperatedOrderly(u: Source, f: FifoState, o: Operation)
    requires Orderly(f, u.s.interval)
    ensures Orderly(Operated(u, f, o), u.s.interval)
  {
    if o.Take? && |f.queue| > 1 {
      assert f.queue[1..][|f.queue| - 2] == f.queue[|f.queue| - 1];
    }
  }

  lemma NextOrderly(u: Source, e: Event)
    requires AllOrderly(u)
    ensures AllOrderly(Next(u, e).0) && Next(u, e).0.s.interval == u.s.interval && |Next(u, e).0.fs| == |u.fs|
  {
    var v := Next(u, e).0;
    forall c | 0 <= c < |v.fs| ensures Orderly(v.fs[c], v.s.interval) {
      assert Orderly(u.fs[c], u.s.interval);
      var o := OperationOn(u, e, c);
      if o.Some? {
        OperatedOrderly(u, u.fs[c], o.value);
      }
    }
  }

  /** An event that leaves room is for the talker what it sees of it. */
  lemma NextAsSeen(u: Source, e: Event)
    requires AllOrderly(u) && LeavesRoom(u, e) && Sound(StreamOf(u))
    ensures var (v, packet) := Next(u, e);
            if Seen(u, e) == [] then StreamOf(v) == StreamOf(u) && packet == None
            else |Seen(u, e)| == 1 && Proper(StreamOf(u), Seen(u, e)[0])
                 && Step(StreamOf(u), Seen(u, e)[0]) == (StreamOf(v), packet)
  {
    match e
    case Feed(c, x) => FeedAsSeen(u, c, x);
    case Poll(time, fed) => PollAsSeen(u, time, fed);
  }

  lemma FeedAsSeen(u: Source, c: nat, x: Stamped)
    requires AllOrderly(u) && LeavesRoom(u, Feed(c, x))
    ensures var e := Feed(c, x);
            var v := Next(u, e).0;
            if Completes(u, e) then
              && Proper(StreamOf(u), Fill(c, CompletedBy(u, e)))
              && StreamOf(v) == Step(StreamOf(u), Fill(c, CompletedBy(u, e))).0
            else StreamOf(v) == StreamOf(u)
  {
    var e := Feed(c, x);
    var t, v := StreamOf(u), StreamOf(Next(u, e).0);
    if c < |u.fs| {
      assert Orderly(u.fs[c], u.s.interval);
    }
    var qs := if Completes(u, e) then t.qs[c := t.qs[c] + [CompletedBy(u, e)]] else t.qs;
    forall d | 0 <= d < |t.qs| ensures v.qs[d] == qs[d] {
    }
    assert v.qs == qs;
  }

  lemma PollAsSeen(u: Source, time: uint32, fed: bool)
    requires Sound(StreamOf(u))
    ensures var e := Poll(time, fed);
            var v := Next(u, e).0;
            (StreamOf(v), Next(u, e).1) == Step(StreamOf(u), Attempt(time, fed))
  {
    var e := Poll(time, fed);
    var t, v := StreamOf(u), StreamOf(Next(u, e).0);
    var after := Step(t, Attempt(time, fed)).0;
    if Makes(u.s, t.qs, u.size, time, fed) {
      MakesHas(t, time, fed);
    }
    forall c | 0 <= c < |t.qs| ensures v.qs[c] == after.qs[c] {
    }
    assert v.qs == after.qs;
  }

  // ---------- whole runs ----------

  /** No FIFO is ever full when a packet is completed in it. */
  predicate NeverOverflows(u: Source, events: seq<Event>) {
    events == [] ||
    (NeverOverflows(u, events[..|events| - 1])
     && LeavesRoom(Runs(u, events[..|events| - 1]).0, events[|events| - 1]))
  }

  /** The run as the talker sees it. */
  function Inputs(u: Source, events: seq<Event>): seq<Input> {
    if events == [] then []
    else Inputs(u, events[..|events| - 1]) + Seen(Runs(u, events[..|events| - 1]).0, events[|events| - 1])
  }

  /** The run as the FIFO of channel `c` sees it. */
  function Operations(u: Source, events: seq<Event>, c: nat): seq<Operation> {
    if events == [] then []
    else
      var o := OperationOn(Runs(u, events[..|events| - 1]).0, events[|events| - 1], c);
      Operations(u, events[..|events| - 1], c) + if o.Some? then [o.value] else []
  }

  /** The samples pushed on channel `c`. */
  function Given(events: seq<Event>, c: nat): seq<Stamped> {
    if events == [] then []
    else
      var e := events[|events| - 1];
      Given(events[..|events| - 1], c) + if e.Feed? && e.c == c then [e.x] else []
  }

  /** The FIFO packets completed on a channel, in order. */
  function Completed(inputs: seq<Input>, c: nat): seq<FifoPacket> {
    if inputs == [] then []
    else
      var last := inputs[|inputs| - 1];
      Completed(inputs[..|inputs| - 1], c) + if last.Fill? && last.c == c then [last.x] else []
  }

  lemma {:induction false} SuppliedIsCompleted(inputs: seq<Input>, c: nat)
    ensures Supplied(inputs, c) == Flat(Completed(inputs, c))
    decreases |inputs|
  {
    if inputs == [] {
    } else {
      var shorter, last := inputs[..|inputs| - 1], inputs[|inputs| - 1];
      SuppliedIsCompleted(shorter, c);
      if last.Fill? && last.c == c {
        FlatSnoc(Completed(shorter, c), last.x);
      } else {
        assert Completed(shorter, c) + [] == Completed(shorter, c) && Supplied(shorter, c) + [] == Supplied(shorter, c);
      }
    }
  }

  /** A source between two events. */
  ghost predicate Steady(u: Source, v: Source) {
    && AllOrderly(v) && Sound(StreamOf(v)) && v.s.interval == u.s.interval && |v.fs| == |u.fs| && v.size == u.size
  }

  /** A run that never overflows a FIFO is a proper run of the talker, with the same packets. */
  lemma {:induction false} RunAsSeen(u: Source, events: seq<Event>)
    requires AllOrderly(u) && Sound(StreamOf(u)) && NeverOverflows(u, events)
    ensures var (v, sent) := Runs(u, events);
            && Steady(u, v) && ProperRun(StreamOf(u), Inputs(u, events))
            && TalkerRuns.Run(StreamOf(u), Inputs(u, events)) == (StreamOf(v), sent)
    decreases |events|
  {
    if events == [] {
    } else {
      var shorter, e := events[..|events| - 1], events[|events| - 1];
      RunAsSeen(u, shorter);
      var v := Runs(u, shorter).0;
      NextAsSeen(v, e);
      NextOrderly(v, e);
      if Seen(v, e) == [] {
        assert Inputs(u, events) == Inputs(u, shorter);
      } else {
        var i := Seen(v, e)[0];
        assert Seen(v, e) == [i];
        RunSnoc(StreamOf(u), Inputs(u, shorter), i);
        StepKeepsSound(StreamOf(v), i);
      }
    }
  }

  /** What stays the same over any run, with or without overflows. */
  lemma {:induction false} RunKeepsShape(u: Source, events: seq<Event>)
    ensures var v := Runs(u, events).0; v.s.interval == u.s.interval && |v.fs| == |u.fs| && v.size == u.size
    decreases |events|
  {
    if events == [] {
    } else {
      RunKeepsShape(u, events[..|events| - 1]);
    }
  }

  /** Each channel's FIFO goes through a run of its own, of the samples pushed on it and the talker's releases. */
  lemma {:induction false} FifoRuns(u: Source, events: seq<Event>, c: nat)
    requires c < |u.fs| && u.fs[c] == FifoState([], [], 0, 0)
    ensures var v, ops := Runs(u, events).0, Operations(u, events, c);
            && |v.fs| == |u.fs| && v.fs[c] == InputFifo.Run(IntervalOf(u), SlotsOf(u), ops).0
            && AllPushed(ops) == Given(events, c)
            && (NeverOverflows(u, events) ==> NeverFull(IntervalOf(u), SlotsOf(u), ops))
    decreases |events|
  {
    if events == [] {
    } else {
      var shorter, e := events[..|events| - 1], events[|events| - 1];
      FifoRuns(u, shorter, c);
      RunKeepsShape(u, shorter);
      var v, ops := Runs(u, shorter).0, Operations(u, shorter, c);
      FifoStep(v, e, c, ops, IntervalOf(u), SlotsOf(u));
      GivenByFeed(e, c, ops, OperationOn(v, e, c), Given(shorter, c));
      OneEventMore(u, events, c, shorter, e, v);
    }
  }

  /** The run with its last event, seen from one channel. */
  lemma OneEventMore(u: Source, events: seq<Event>, c: nat, shorter: seq<Event>, e: Event, v: Source)
    requires events != [] && shorter == events[..|events| - 1] && e == events[|events| - 1]
    requires v == Runs(u, shorter).0 && c < |v.fs|
    ensures var w, o, ops := Runs(u, events).0, OperationOn(v, e, c), Operations(u, shorter, c);
            && |w.fs| == |v.fs| && w.fs[c] == FifoAfter(v, e, c)
            && Operations(u, events, c) == (if o.Some? then ops + [o.value] else ops)
            && Given(events, c) == Given(shorter, c) + (if e.Feed? && e.c == c then [e.x] else [])
            && (NeverOverflows(u, events) ==> NeverOverflows(u, shorter) && LeavesRoom(v, e))
  {
    var ops := Operations(u, shorter, c);
    assert ops + [] == ops;
  }

  /** What one event does to a FIFO is what its operation, if any, does at the end of the FIFO's own run. */
  lemma FifoStep(v: Source, e: Event, c: nat, ops: seq<Operation>, p: nat, slots: nat)
    requires p == IntervalOf(v) && slots == SlotsOf(v)
    requires c < |v.fs| && v.fs[c] == InputFifo.Run(p, slots, ops).0
    ensures var o := OperationOn(v, e, c);
            var all := if o.Some? then ops + [o.value] else ops;
            && FifoAfter(v, e, c) == InputFifo.Run(p, slots, all).0
            && (NeverFull(p, slots, ops) && LeavesRoom(v, e) ==> NeverFull(p, slots, all))
  {
    var o := OperationOn(v, e, c);
    if o.Some? {
      RunAddsStep(p, slots, ops, o.value);
      NeverFullSnoc(p, slots, ops, o.value);
      OperatedIsStepped(v, v.fs[c], InputFifo.Run(p, slots, ops).1, o.value);
    }
  }

  lemma OperatedIsStepped(u: Source, f: FifoState, taken: seq<FifoPacket>, o: Operation)
    ensures Operated(u, f, o) == Stepped(f, taken, IntervalOf(u), SlotsOf(u), o).0
  {
  }

  lemma GivenByFeed(e: Event, c: nat, ops: seq<Operation>, o: Option<Operation>, given: seq<Stamped>)
    requires AllPushed(ops) == given
    requires if e.Feed? then o == (if e.c == c then Some(Push(e.x)) else None) else o.None? || o == Some(Take)
    ensures AllPushed(if o.Some? then ops + [o.value] else ops)
            == given + if e.Feed? && e.c == c then [e.x] else []
  {
    assert given + [] == given;
    if o.Some? {
      PushedSnoc(ops, o.value);
    }
  }

  /** A talker that was just started, before any sample. */
  ghost predicate AtStart(u: Source) {
    && Sound(StreamOf(u)) && u.s.initial && u.s.interval > 0
    && forall c :: 0 <= c < |u.fs| ==> u.fs[c] == FifoState([], [], 0, 0)
  }

  lemma StartIsOrderly(u: Source)
    requires AtStart(u)
    ensures AllOrderly(u)
  {
    forall c | 0 <= c < |u.fs| ensures Orderly(u.fs[c], u.s.interval) {
    }
  }

  lemma BegunAtStart(rate: int, channels: nat, size: nat)
    requires SytInterval(rate) > 0 && channels > 0
    ensures AtStart(Begun(rate, channels, size))
  {
    RatesConfigured(rate);
  }

  /** What the FIFO of a channel holds of what was pushed on it. */
  lemma FifoHolds(u: Source, events: seq<Event>, c: nat)
    requires AtStart(u) && NeverOverflows(u, events) && c < |u.fs|
    ensures var v, cut := Runs(u, events).0, Cut(Given(events, c), IntervalOf(u), 0);
            && |v.fs| == |u.fs| && v.s.interval == u.s.interval
            && v.fs[c].partial == Samples(cut.rest) && v.fs[c].dbc == cut.dbc
            && (cut.rest != [] ==> v.fs[c].stamp == cut.rest[0].ts)
  {
    FifoRuns(u, events, c);
    RunKeepsShape(u, events);
    QueueIsTheStream(IntervalOf(u), SlotsOf(u), Operations(u, events, c));
  }

  /** The packets the talker sees completed on a channel are the samples pushed, cut into groups. */
  lemma {:induction false} CompletedIsCut(u: Source, events: seq<Event>, c: nat)
    requires AtStart(u) && NeverOverflows(u, events) && c < |u.fs|
    ensures Completed(Inputs(u, events), c) == Cut(Given(events, c), IntervalOf(u), 0).packets
    decreases |events|
  {
    if events == [] {
    } else {
      var shorter, e := events[..|events| - 1], events[|events| - 1];
      CompletedIsCut(u, shorter, c);
      FifoHolds(u, shorter, c);
      var v := Runs(u, shorter).0;
      CompletedSnoc(Inputs(u, shorter), Seen(v, e), c);
      if e.Feed? && e.c == c {
        CutByFeed(v, e, Given(shorter, c), IntervalOf(u));
      } else {
        assert Given(events, c) == Given(shorter, c);
      }
    }
  }

  /** What a sample completes is what cutting the longer stream completes. */
  lemma CutByFeed(v: Source, e: Event, given: seq<Stamped>, p: nat)
    requires e.Feed? && e.c < |v.fs| && v.s.interval == p > 0
    requires var cut, f := Cut(given, p, 0), v.fs[e.c];
             f.partial == Samples(cut.rest) && f.dbc == cut.dbc && (cut.rest != [] ==> f.stamp == cut.rest[0].ts)
    ensures Cut(given + [e.x], p, 0).packets
            == Cut(given, p, 0).packets + if Completes(v, e) then [CompletedBy(v, e)] else []
  {
    CutSnoc(given, e.x, p, 0);
    SamplesSnoc(Cut(given, p, 0).rest, e.x);
  }

  lemma CompletedSnoc(inputs: seq<Input>, seen: seq<Input>, c: nat)
    requires |seen| <= 1
    ensures Completed(inputs + seen, c)
            == Completed(inputs, c) + if seen != [] && seen[0].Fill? && seen[0].c == c then [seen[0].x] else []
  {
    if seen == [] {
      assert inputs + seen == inputs;
      assert Completed(inputs, c) + [] == Completed(inputs, c);
    } else {
      assert (inputs + seen)[..|inputs|] == inputs;
    }
  }

  /**
   Conservation from the samples pushed to the packets on the wire: of each channel, what the packets carry, what the
   FIFO holds in complete packets that are not used up, and what is in the packet being filled are the samples pushed,
   in order, over every run that never overflows a FIFO.
   */
  lemma WireCarriesWhatIsPushed(u: Source, events: seq<Event>, c: nat)
    requires AtStart(u) && NeverOverflows(u, events) && c < |u.fs|
    ensures var (v, sent) := Runs(u, events);
            && |v.fs| == |u.fs|
            && Carried(sent, c) + Rest(StreamOf(v), c) + v.fs[c].partial == Samples(Given(events, c))
  {
    StartIsOrderly(u);
    RunAsSeen(u, events);
    var inputs, p := Inputs(u, events), IntervalOf(u);
    WireCarriesTheStream(StreamOf(u), inputs, c);
    assert Rest(StreamOf(u), c) == [] && [] + Supplied(inputs, c) == Supplied(inputs, c);
    SuppliedIsCompleted(inputs, c);
    CompletedIsCut(u, events, c);
    CutKeepsAll(Given(events, c), p, 0);
    FifoHolds(u, events, c);
  }

  // ---------- when a talker can start ----------

  /** The samples a FIFO of `size` words can hold in complete packets of `p` samples. */
  function Capacity(p: nat, size: nat): int
    requires size > 0
  {
    Product(p, Slots(size, p + 2) - 1)
  }

  /** The FIFOs are enabled: more words than one packet takes, with its time and block count. */
  predicate Enabled(u: Source) {
    u.fs != [] && u.s.interval > 0 && u.size > u.s.interval + 2
  }

  predicate QueueFits(u: Source, f: FifoState) {
    |f.queue| < SlotsOf(u)
  }

  /** Nothing was sent, and no FIFO holds more than it has slots for. */
  predicate Waiting(u: Source, sent: seq<Sending>) {
    sent == [] && u.s.initial && forall c :: 0 <= c < |u.fs| ==> QueueFits(u, u.fs[c])
  }

  lemma WaitsOn(u: Source, e: Event)
    requires Waiting(u, []) && Enabled(u) && Capacity(IntervalOf(u), u.size) < u.size / 2
    ensures var (v, packet) := Next(u, e); packet == None && Waiting(v, [])
  {
    var f, t := u.fs[0], StreamOf(u);
    assert QueueFits(u, f);
    MoreHoldsMore(IntervalOf(u), |f.queue|, SlotsOf(u) - 1);
    assert e.Poll? ==> Starting(u.s, t.qs, u.size);
    var v := Next(u, e).0;
    forall c | 0 <= c < |v.fs| ensures QueueFits(v, v.fs[c]) {
      assert QueueFits(u, u.fs[c]);
    }
  }

  lemma MoreHoldsMore(p: nat, k: nat, n: int)
    requires p > 0
    ensures k <= n ==> Product(p, k) <= Product(p, n)
    ensures Product(p, k) == Product(p, n) ==> k == n
  {
    if k < n {
      Multiples(k, n, p);
    } else if n < k {
      Multiples(n, k, p);
    }
  }

  lemma {:induction false} NeverStarts(u: Source, events: seq<Event>)
    requires AtStart(u) && Enabled(u) && Capacity(IntervalOf(u), u.size) < u.size / 2
    ensures Waiting(Runs(u, events).0, Runs(u, events).1)
    decreases |events|
  {
    if events == [] {
      SlotCount(u.size, IntervalOf(u) + 2);
    } else {
      NeverStarts(u, events[..|events| - 1]);
      RunKeepsShape(u, events[..|events| - 1]);
      WaitsOn(Runs(u, events[..|events| - 1]).0, events[|events| - 1]);
    }
  }

  /** The FIFO has taken `n` samples. */
  predicate Took(u: Source, f: FifoState, n: int) {
    Product(IntervalOf(u), |f.queue|) + |f.partial| == n && |f.partial| < u.s.interval
  }

  /** Full FIFOs on the first `c` channels, `r` samples on the next one, and nothing sent. */
  predicate Stocked(u: Source, c: nat, r: int) {
    && u.s.initial && Enabled(u) && c <= |u.fs|
    && forall d :: 0 <= d < |u.fs| ==>
         Took(u, u.fs[d], if d < c then Capacity(IntervalOf(u), u.size) else if d == c then r else 0)
  }

  const SILENCE: Stamped := Stamped(0, 0)

  /** Samples for channel after channel until each FIFO is full, and `r` for channel `c`. */
  function Stock(c: nat, r: nat, full: nat): seq<Event>
    decreases c, r
  {
    if r > 0 then Stock(c, r - 1, full) + [Feed(c, SILENCE)]
    else if c > 0 then Stock(c - 1, full, full)
    else []
  }

  lemma OneMoreSample(u: Source, f: FifoState, n: int)
    requires Enabled(u) && Took(u, f, n) && n < Capacity(IntervalOf(u), u.size)
    ensures Took(u, Operated(u, f, Push(SILENCE)), n + 1)
    ensures |f.partial| + 1 == u.s.interval ==> |f.queue| + 1 < SlotsOf(u)
  {
    var p, k := IntervalOf(u), |f.queue|;
    ProductStep(p, k);
    if |f.partial| + 1 == p && k + 1 >= SlotsOf(u) {
      MoreHoldsMore(p, SlotsOf(u), k + 1);
      SlotCount(u.size, p + 2);
      ProductStep(p, SlotsOf(u) - 1);
    }
  }

  lemma StocksOne(u: Source, c: nat, r: nat)
    requires Stocked(u, c, r) && c < |u.fs| && r < Capacity(IntervalOf(u), u.size)
    ensures LeavesRoom(u, Feed(c, SILENCE)) && Next(u, Feed(c, SILENCE)).1 == None
    ensures Stocked(Next(u, Feed(c, SILENCE)).0, c, r + 1)
  {
    var e := Feed(c, SILENCE);
    var v := Next(u, e).0;
    assert Took(u, u.fs[c], r);
    OneMoreSample(u, u.fs[c], r);
    forall d | 0 <= d < |v.fs|
      ensures Took(v, v.fs[d], if d < c then Capacity(IntervalOf(v), v.size) else if d == c then r + 1 else 0)
    {
      assert Took(u, u.fs[d], if d < c then Capacity(IntervalOf(u), u.size) else if d == c then r else 0);
    }
  }

  lemma {:induction false} StockedUp(u: Source, c: nat, r: nat, full: nat)
    requires AtStart(u) && Enabled(u) && full == Capacity(IntervalOf(u), u.size) && r <= full
    requires c < |u.fs| || (c == |u.fs| && r == 0)
    ensures var events := Stock(c, r, full);
            NeverOverflows(u, events) && Runs(u, events).1 == [] && Stocked(Runs(u, events).0, c, r)
            && Runs(u, events).0.s.interval == u.s.interval && Runs(u, events).0.size == u.size
            && |Runs(u, events).0.fs| == |u.fs|
    decreases c, r
  {
    RunKeepsShape(u, Stock(c, r, full));
    if r > 0 {
      var shorter := Stock(c, r - 1, full);
      StockedUp(u, c, r - 1, full);
      assert Stock(c, r, full)[..|shorter|] == shorter;
      StocksOne(Runs(u, shorter).0, c, r - 1);
    } else if c > 0 {
      StockedUp(u, c - 1, full, full);
      StockedMoves(Runs(u, Stock(c - 1, full, full)).0, c - 1, full);
    } else {
      assert Product(IntervalOf(u), 0) == 0;
    }
  }

  lemma StockedMoves(u: Source, c: nat, full: nat)
    requires c < |u.fs| && Stocked(u, c, full) && full == Capacity(IntervalOf(u), u.size)
    ensures Stocked(u, c + 1, 0)
  {
    forall d | 0 <= d < |u.fs|
      ensures Took(u, u.fs[d], if d < c + 1 then full else if d == c + 1 then 0 else 0)
    {
      assert Took(u, u.fs[d], if d < c then full else if d == c then full else 0);
    }
  }

  /**
   With every FIFO full a packet goes out, if the first one is half as long as its buffer and all have
   two packets.
   */
  lemma FullFifosStart(u: Source)
    requires Stocked(u, |u.fs|, 0) && u.s.interval > 0 && Capacity(IntervalOf(u), u.size) >= u.size / 2
    ensures Next(u, Poll(0, true)).1.Some?
  {
    var p, t := IntervalOf(u), StreamOf(u);
    TwoPacketsFit(p, u.size);
    forall c | 0 <= c < |u.fs| ensures |t.qs[c]| == SlotsOf(u) - 1 {
      var f := u.fs[c];
      assert Took(u, f, Capacity(p, u.size));
      SameMultiple(p, SlotsOf(u) - 1, |f.queue|, |f.partial|);
    }
    assert !Starting(t.s, t.qs, u.size);
    assert !Starved(t.s, t.qs, PacketSamples(t.s));
  }

  lemma TwoPacketsFit(p: nat, size: nat)
    requires p > 0 && size > p + 2 && Capacity(p, size) >= size / 2
    ensures Slots(size, p + 2) >= 3
  {
    SlotCount(size, p + 2);
    assert Product(p, 0) == 0 && Product(p, 1) == p;
  }

  lemma PollAdds(u: Source, stock: seq<Event>)
    requires NeverOverflows(u, stock) && Next(Runs(u, stock).0, Poll(0, true)).1.Some?
    ensures NeverOverflows(u, stock + [Poll(0, true)]) && Runs(u, stock + [Poll(0, true)]).1 != []
  {
    assert (stock + [Poll(0, true)])[..|stock|] == stock;
  }

  lemma StartsOnceFull(u: Source) returns (events: seq<Event>)
    requires AtStart(u) && Enabled(u) && Capacity(IntervalOf(u), u.size) >= u.size / 2
    ensures NeverOverflows(u, events) && Runs(u, events).1 != []
  {
    var full := Capacity(IntervalOf(u), u.size);
    var stock := Stock(|u.fs|, 0, full);
    StockedUp(u, |u.fs|, 0, full);
    FullFifosStart(Runs(u, stock).0);
    PollAdds(u, stock);
    events := stock + [Poll(0, true)];
  }

  /**
   When a talker can start: exactly if a FIFO has room for so many complete packets that their samples are half of
   its words. Otherwise no packet is ever sent, whatever is pushed and however often the talker tries.
   */
  lemma StartsExactlyWhen(u: Source)
    requires AtStart(u) && Enabled(u)
    ensures (exists events :: NeverOverflows(u, events) && Runs(u, events).1 != [])
            <==> Capacity(IntervalOf(u), u.size) >= u.size / 2
    ensures Capacity(IntervalOf(u), u.size) < u.size / 2 ==> forall events :: Runs(u, events).1 == []
  {
    if Capacity(IntervalOf(u), u.size) >= u.size / 2 {
      var events := StartsOnceFull(u);
      assert NeverOverflows(u, events) && Runs(u, events).1 != [];
    } else {
      forall events ensures Runs(u, events).1 == [] {
        NeverStarts(u, events);
      }
    }
  }

  /** At 8 and 16 kHz the times and block counts take too much of the FIFO: no talker starts, whatever its size. */
  lemma LowRatesNeverStart(rate: int, channels: nat, size: nat, events: seq<Event>)
    requires rate in {8000, 16000} && channels > 0 && size > SytInterval(rate) + 2
    ensures Runs(Begun(rate, channels, size), events).1 == []
  {
    var u := Begun(rate, channels, size);
    BegunAtStart(rate, channels, size);
    TooSmall(SytInterval(rate), size);
    StartsExactlyWhen(u);
  }

  lemma TooSmall(p: nat, size: nat)
    requires 1 <= p <= 2 && size > p + 2
    ensures Capacity(p, size) < size / 2
  {
    if p == 1 {
      assert Product(1, (size - 1) / 3 - 1) == (size - 1) / 3 - 1;
    } else {
      assert Product(2, (size - 1) / 4 - 1) == 2 * ((size - 1) / 4 - 1);
    }
  }

  /** At all other rates it starts with the sizes the FIFOs are built with: 64 words up to 48 kHz, and 128 words. */
  lemma OtherRatesStart(rate: int, channels: nat, size: nat)
    requires channels > 0
    requires (rate in {32000, 44100, 48000, 88200, 96000} && size in {64, 128})
             || (rate in {176400, 192000} && size == 128)
    ensures exists events ::
      NeverOverflows(Begun(rate, channels, size), events) && Runs(Begun(rate, channels, size), events).1 != []
  {
    BegunAtStart(rate, channels, size);
    assert Slots(64, 10) == 6 && Slots(128, 10) == 12 && Slots(64, 18) == 3 && Slots(128, 18) == 7
        && Slots(128, 34) == 3;
    assert Product(8, 5) == 40 && Product(8, 11) == 88 && Product(16, 2) == 32 && Product(16, 6) == 96;
    assert Product(32, 2) == 64;
    StartsExactlyWhen(Begun(rate, channels, size));
  }
}
