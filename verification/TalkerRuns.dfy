/**
 What a talker sends over whole runs: the samples of its FIFOs, all of them and in order, with continuous block
 counts, and timestamps that a listener attributes to the right sample.
 */
module TalkerRuns {
  import opened Bytes
  import opened Seqs
  import opened Wrappers
  import opened Avtp
  import opened InputFifo
  import opened Talker

  /** A FIFO packet completed on a channel, or an attempt to send. */
  datatype Input = Fill(c: nat, x: FifoPacket) | Attempt(time: uint32, fed: bool)

  /** The stream between two inputs. */
  datatype Stream = Stream(s: Progress, qs: seq<seq<FifoPacket>>, fifoSize: int)

  /** A wire packet: what each channel gave to it, and what its header says of them. */
  datatype Sending = Sending(n: int, xs: seq<seq<uint32>>, dbc: byte, valid: bool, ts: uint32)

  function PacketOf(t: Stream): Sending {
    var n := PacketSamples(t.s);
    var valid, head := t.s.initial || Straddles(t.s, n), Head(QueuesAfter(t.s, n, t.qs));
    Sending(n, Takens(t.qs, Gone(t.s), n), BlockCount(t.s, head), valid, if valid then head.ts else 0)
  }

  function Step(t: Stream, i: Input): (Stream, Option<Sending>) {
    match i
    case Fill(c, x) => (if c < |t.qs| then t.(qs := t.qs[c := t.qs[c] + [x]]) else t, None)
    case Attempt(time, fed) =>
      var (qs, s) := Attempted(t.s, t.qs, t.fifoSize, time, fed);
      (Stream(s, qs, t.fifoSize),
       if Makes(t.s, t.qs, t.fifoSize, time, fed) then Some(PacketOf(t)) else None)
  }

  /** Streams whose FIFOs hold whole packets, numbered one after the other on the last channel. */
  ghost predicate Sound(t: Stream) {
    && Configured(t.s) && t.qs != [] && AllHave(t.qs, if t.s.initial then 0 else 1, t.s.interval)
    && Numbered(t.qs[|t.qs| - 1], t.s.interval)
    && (!t.s.initial ==> t.s.dbcAtStart == Head(t.qs).dbc && t.s.left < t.s.interval)
  }

  predicate Numbered(q: seq<FifoPacket>, p: int) {
    forall i :: 0 <= i < |q| - 1 ==> Follows(q[i], q[i + 1], p)
  }

  predicate Follows(x: FifoPacket, y: FifoPacket, p: int) {
    y.dbc == Wrap32(x.dbc + p)
  }

  /** What a FIFO may complete next. */
  predicate Proper(t: Stream, i: Input) {
    i.Fill? ==>
      && |i.x.samples| == t.s.interval
      && (i.c == |t.qs| - 1 && t.qs[i.c] != [] ==> Follows(t.qs[i.c][|t.qs[i.c]| - 1], i.x, t.s.interval))
  }

  lemma NumberedTail(q: seq<FifoPacket>, p: int)
    requires Numbered(q, p) && |q| >= 2
    ensures Numbered(q[1..], p) && Follows(q[0], q[1..][0], p)
  {
    forall i | 0 <= i < |q[1..]| - 1 ensures Follows(q[1..][i], q[1..][i + 1], p) {
      assert Follows(q[i + 1], q[i + 2], p);
    }
    assert Follows(q[0], q[0 + 1], p);
  }

  lemma MakesHas(t: Stream, time: uint32, fed: bool)
    requires Sound(t) && Makes(t.s, t.qs, t.fifoSize, time, fed)
    ensures AllHave(t.qs, if t.s.initial || t.s.left < PacketSamples(t.s) then 2 else 1, t.s.interval)
    ensures 1 <= PacketSamples(t.s) <= t.s.interval
  {
    forall c | 0 <= c < |t.qs|
      ensures Has(t.qs[c], if t.s.initial || t.s.left < PacketSamples(t.s) then 2 else 1, t.s.interval)
    {
      assert Has(t.qs[c], if t.s.initial then 0 else 1, t.s.interval);
    }
  }

  // ---------- samples ----------

  /** What a channel still has to send. */
  function Rest(t: Stream, c: nat): seq<uint32>
    requires c < |t.qs|
  {
    if Gone(t.s) < 0 then [] else Remaining(t.qs[c], Gone(t.s))
  }

  lemma FlatSnoc(q: seq<FifoPacket>, x: FifoPacket)
    ensures Flat(q + [x]) == Flat(q) + x.samples
  {
    if q == [] {
      assert [x][1..] == [];
      assert Flat([x]) == x.samples + [];
    } else {
      assert (q + [x])[1..] == q[1..] + [x];
      FlatSnoc(q[1..], x);
      Assoc(q[0].samples, Flat(q[1..]), x.samples);
    }
  }

  lemma {:induction false} FlatLength(q: seq<FifoPacket>, p: int)
    requires Uniform(q, p) && q != []
    ensures |Flat(q)| >= p
  {
    assert Flat(q) == q[0].samples + Flat(q[1..]);
  }

  /** How far into its first FIFO packet a channel is after a packet of `n` samples. */
  function GoneAfter(s: Progress, n: int): int {
    s.interval - LeftAfter(s, n)
  }

  /** What a packet of `n` samples takes of a channel, in terms of its first two FIFO packets. */
  predicate TakesFrom(s: Progress, n: int, q: seq<FifoPacket>, after: seq<FifoPacket>, xs: seq<uint32>) {
    var m := GoneAfter(s, n);
    && q != [] && after != [] && |q[0].samples| == |after[0].samples| == s.interval && |xs| == n
    && 0 <= Gone(s) <= s.interval && 0 <= m <= s.interval
    && if Straddles(s, n) then xs == q[0].samples[Gone(s)..] + after[0].samples[..m]
       else after == q && Gone(s) <= m && xs == q[0].samples[Gone(s)..m]
  }

  /** The samples taken and what is left are what there was. */
  predicate TakesNext(s: Progress, n: int, q: seq<FifoPacket>, after: seq<FifoPacket>, xs: seq<uint32>) {
    0 <= Gone(s) && 0 <= GoneAfter(s, n) && xs + Remaining(after, GoneAfter(s, n)) == Remaining(q, Gone(s))
  }

  lemma ChannelAcross(s: Progress, n: int, q: seq<FifoPacket>, after: seq<FifoPacket>)
    requires 1 <= n <= s.interval && 0 <= s.left && Straddles(s, n) && Has(q, 2, s.interval) && after == q[1..]
    ensures TakesFrom(s, n, q, after, Taken(q, Gone(s), n)) && TakesNext(s, n, q, after, Taken(q, Gone(s), n))
  {
    TakenAcross(q, s.interval, Gone(s), n, GoneAfter(s, n), after);
  }

  lemma ChannelWithin(s: Progress, n: int, q: seq<FifoPacket>)
    requires 1 <= n <= s.interval && 0 <= s.left <= s.interval && !Straddles(s, n) && Has(q, 1, s.interval)
    ensures TakesFrom(s, n, q, q, Taken(q, Gone(s), n)) && TakesNext(s, n, q, q, Taken(q, Gone(s), n))
  {
    TakenWithin(q, s.interval, Gone(s), n, GoneAfter(s, n));
  }

  /** One packet: every channel gives the next `n` of its samples, and has the rest left. */
  lemma PacketTakes(t: Stream, time: uint32, fed: bool, c: nat)
    requires Sound(t) && Makes(t.s, t.qs, t.fifoSize, time, fed) && c < |t.qs|
    ensures var qs, xs := QueuesAfter(t.s, PacketSamples(t.s), t.qs), PacketOf(t).xs;
            && |qs| == |xs| == |t.qs|
            && TakesFrom(t.s, PacketSamples(t.s), t.qs[c], qs[c], xs[c])
            && TakesNext(t.s, PacketSamples(t.s), t.qs[c], qs[c], xs[c])
  {
    MakesHas(t, time, fed);
    var n, q := PacketSamples(t.s), t.qs[c];
    assert Has(q, if t.s.initial || t.s.left < n then 2 else 1, t.s.interval);
    if Straddles(t.s, n) {
      ChannelAcross(t.s, n, q, q[1..]);
    } else {
      ChannelWithin(t.s, n, q);
    }
  }

  lemma RemainingSnoc(q: seq<FifoPacket>, x: FifoPacket, gone: nat)
    requires gone <= |Flat(q)|
    ensures Remaining(q + [x], gone) == Remaining(q, gone) + x.samples
  {
    FlatSnoc(q, x);
  }

  lemma FillAdds(t: Stream, c: nat, x: FifoPacket, d: nat)
    requires Sound(t) && c < |t.qs| && d < |t.qs|
    ensures Rest(Step(t, Fill(c, x)).0, d) == if d == c then Rest(t, d) + x.samples else Rest(t, d)
  {
    if d == c {
      assert Has(t.qs[c], if t.s.initial then 0 else 1, t.s.interval);
      if !t.s.initial {
        FlatLength(t.qs[c], t.s.interval);
      }
      RemainingSnoc(t.qs[c], x, Gone(t.s));
    }
  }

  // ---------- the invariant ----------

  lemma StepKeepsSound(t: Stream, i: Input)
    requires Sound(t) && Proper(t, i)
    ensures Sound(Step(t, i).0) && |Step(t, i).0.qs| == |t.qs| && Step(t, i).0.s.interval == t.s.interval
  {
    match i
    case Fill(c, x) =>
      if c < |t.qs| {
        FillKeepsSound(t, c, x);
      }
    case Attempt(time, fed) =>
      if Makes(t.s, t.qs, t.fifoSize, time, fed) {
        PacketKeepsSound(t, time, fed);
      }
  }

  lemma FillKeepsSound(t: Stream, c: nat, x: FifoPacket)
    requires Sound(t) && c < |t.qs| && Proper(t, Fill(c, x))
    ensures Sound(t.(qs := t.qs[c := t.qs[c] + [x]]))
  {
    var qs := t.qs[c := t.qs[c] + [x]];
    forall d | 0 <= d < |qs| ensures Has(qs[d], if t.s.initial then 0 else 1, t.s.interval) {
      assert Has(t.qs[d], if t.s.initial then 0 else 1, t.s.interval);
    }
    var last := |qs| - 1;
    forall i | 0 <= i < |qs[last]| - 1 ensures Follows(qs[last][i], qs[last][i + 1], t.s.interval) {
      if i < |t.qs[last]| - 1 {
        assert Follows(t.qs[last][i], t.qs[last][i + 1], t.s.interval);
      }
    }
    assert Has(t.qs[last], if t.s.initial then 0 else 1, t.s.interval);
  }

  lemma PacketKeepsSound(t: Stream, time: uint32, fed: bool)
    requires Sound(t) && Makes(t.s, t.qs, t.fifoSize, time, fed)
    ensures Sound(Step(t, Attempt(time, fed)).0)
  {
    MakesHas(t, time, fed);
    var s, n, last := t.s, PacketSamples(t.s), |t.qs| - 1;
    var qs := QueuesAfter(s, n, t.qs);
    forall c | 0 <= c < |qs| ensures Has(qs[c], 1, s.interval) {
      assert Has(t.qs[c], if s.initial || s.left < n then 2 else 1, s.interval);
    }
    assert Has(t.qs[last], if s.initial || s.left < n then 2 else 1, s.interval);
    if Straddles(s, n) {
      NumberedTail(t.qs[last], s.interval);
    }
  }

  // ---------- whole runs ----------

  function Run(t: Stream, inputs: seq<Input>): (Stream, seq<Sending>) {
    if inputs == [] then (t, [])
    else
      var (u, sent) := Run(t, inputs[..|inputs| - 1]);
      var (v, packet) := Step(u, inputs[|inputs| - 1]);
      (v, if packet.Some? then sent + [packet.value] else sent)
  }

  predicate ProperRun(t: Stream, inputs: seq<Input>) {
    inputs == [] ||
    (ProperRun(t, inputs[..|inputs| - 1]) && Proper(Run(t, inputs[..|inputs| - 1]).0, inputs[|inputs| - 1]))
  }

  lemma RunSnoc(t: Stream, inputs: seq<Input>, i: Input)
    ensures var (u, sent) := Run(t, inputs);
            var (v, packet) := Step(u, i);
            Run(t, inputs + [i]) == (v, if packet.Some? then sent + [packet.value] else sent)
    ensures ProperRun(t, inputs + [i]) <==> ProperRun(t, inputs) && Proper(Run(t, inputs).0, i)
  {
    assert (inputs + [i])[..|inputs|] == inputs;
  }

  /** The samples of the FIFO packets completed on a channel. */
  function Supplied(inputs: seq<Input>, c: nat): seq<uint32> {
    if inputs == [] then []
    else
      var last := inputs[|inputs| - 1];
      Supplied(inputs[..|inputs| - 1], c) + if last.Fill? && last.c == c then last.x.samples else []
  }

  function Column(c: nat): Sending -> seq<uint32> {
    (p: Sending) => if c < |p.xs| then p.xs[c] else []
  }

  /** What the wire packets carry of a channel. */
  function Carried(sent: seq<Sending>, c: nat): seq<uint32> {
    FlatMap(Column(c), sent)
  }

  lemma CarriedSnoc(sent: seq<Sending>, p: Sending, c: nat)
    ensures Carried(sent + [p], c) == Carried(sent, c) + Column(c)(p)
  {
    FlatMapAppend(Column(c), sent, [p]);
    FlatMapOne(Column(c), p);
  }

  /** The samples of each channel in the packets. */
  function Total(sent: seq<Sending>): int {
    if sent == [] then 0 else Total(sent[..|sent| - 1]) + sent[|sent| - 1].n
  }

  lemma TotalSnoc(sent: seq<Sending>, p: Sending)
    ensures Total(sent + [p]) == Total(sent) + p.n
  {
    assert (sent + [p])[..|sent|] == sent;
  }

  /** Every packet gives each channel as many samples as it says. */
  predicate Filled(sent: seq<Sending>, channels: int) {
    forall k :: 0 <= k < |sent| ==> FilledPacket(sent[k], channels)
  }

  predicate FilledPacket(p: Sending, channels: int) {
    |p.xs| == channels && forall c :: 0 <= c < channels ==> |p.xs[c]| == p.n
  }

  lemma {:induction false} CarriedLength(sent: seq<Sending>, c: nat, channels: int)
    requires Filled(sent, channels) && c < channels
    ensures |Carried(sent, c)| == Total(sent)
  {
    if sent == [] {
    } else {
      var shorter, p := sent[..|sent| - 1], sent[|sent| - 1];
      assert sent == shorter + [p] && FilledPacket(p, channels);
      CarriedLength(shorter, c, channels);
      CarriedSnoc(shorter, p, c);
    }
  }

  lemma {:induction false} PacketsFilled(t: Stream, inputs: seq<Input>)
    requires Sound(t) && ProperRun(t, inputs)
    ensures var (u, sent) := Run(t, inputs); Sound(u) && |u.qs| == |t.qs| && Filled(sent, |t.qs|)
  {
    if inputs == [] {
    } else {
      var shorter, i := inputs[..|inputs| - 1], inputs[|inputs| - 1];
      PacketsFilled(t, shorter);
      var u := Run(t, shorter).0;
      StepKeepsSound(u, i);
      if i.Attempt? && Makes(u.s, u.qs, u.fifoSize, i.time, i.fed) {
        PacketIsFilled(u, i.time, i.fed);
      }
    }
  }

  lemma PacketIsFilled(t: Stream, time: uint32, fed: bool)
    requires Sound(t) && Makes(t.s, t.qs, t.fifoSize, time, fed)
    ensures FilledPacket(PacketOf(t), |t.qs|)
  {
    forall c: nat | c < |t.qs| ensures |PacketOf(t).xs[c]| == PacketOf(t).n {
      PacketTakes(t, time, fed, c);
    }
  }

  /**
   Over any run, what the wire packets carry of a channel, followed by what is left to send, is what its FIFO has
   supplied: no sample is lost, repeated or moved, however FIFO packets are cut into wire packets.
   */
  lemma {:induction false} WireCarriesTheStream(t: Stream, inputs: seq<Input>, c: nat)
    requires Sound(t) && ProperRun(t, inputs) && c < |t.qs|
    ensures var (u, sent) := Run(t, inputs);
            && Sound(u) && |u.qs| == |t.qs| && u.s.interval == t.s.interval
            && Carried(sent, c) + Rest(u, c) == Rest(t, c) + Supplied(inputs, c)
  {
    if inputs == [] {
      assert Rest(t, c) + [] == Rest(t, c);
    } else {
      var shorter, last := inputs[..|inputs| - 1], inputs[|inputs| - 1];
      WireCarriesTheStream(t, shorter, c);
      var (u, sent) := Run(t, shorter);
      StepKeepsSound(u, last);
      OneMoreStep(u, last, sent, Rest(t, c) + Supplied(shorter, c), c);
      var extra := if last.Fill? && last.c == c then last.x.samples else [];
      Assoc(Rest(t, c), Supplied(shorter, c), extra);
    }
  }

  lemma OneMoreStep(u: Stream, i: Input, sent: seq<Sending>, stream: seq<uint32>, c: nat)
    requires Sound(u) && Proper(u, i) && c < |u.qs| && Carried(sent, c) + Rest(u, c) == stream
    ensures var (v, packet) := Step(u, i);
            var extra := if i.Fill? && i.c == c then i.x.samples else [];
            && |v.qs| == |u.qs|
            && Carried(if packet.Some? then sent + [packet.value] else sent, c) + Rest(v, c) == stream + extra
  {
    match i
    case Fill(d, x) =>
      if d < |u.qs| {
        FillAdds(u, d, x, c);
        if d == c {
          Assoc(Carried(sent, c), Rest(u, c), x.samples);
        }
      }
    case Attempt(time, fed) =>
      if Makes(u.s, u.qs, u.fifoSize, time, fed) {
        OneMorePacket(u, time, fed, sent, c);
      }
  }

  lemma OneMorePacket(u: Stream, time: uint32, fed: bool, sent: seq<Sending>, c: nat)
    requires Sound(u) && c < |u.qs| && Makes(u.s, u.qs, u.fifoSize, time, fed)
    ensures var v := Step(u, Attempt(time, fed)).0;
            |v.qs| == |u.qs| && Carried(sent + [PacketOf(u)], c) + Rest(v, c) == Carried(sent, c) + Rest(u, c)
  {
    PacketTakes(u, time, fed, c);
    var v := Step(u, Attempt(time, fed)).0;
    assert Gone(v.s) == GoneAfter(u.s, PacketSamples(u.s));
    MoreCarried(sent, PacketOf(u), c, Rest(v, c), Rest(u, c));
  }

  lemma MoreCarried(sent: seq<Sending>, p: Sending, c: nat, rest: seq<uint32>, before: seq<uint32>)
    requires c < |p.xs| && p.xs[c] + rest == before
    ensures Carried(sent + [p], c) + rest == Carried(sent, c) + before
  {
    CarriedSnoc(sent, p, c);
    Assoc(Carried(sent, c), p.xs[c], rest);
  }

  // ---------- block counts ----------

  /** The block count the next packet will have. */
  function NextCount(s: Progress): int {
    Wrap32(s.dbcAtStart + s.interval - s.left) % 256
  }

  lemma WrapModulo(x: int)
    ensures Wrap32(x) % 256 == x % 256
  {
  }

  /** The count moves on by `n`, within a FIFO packet or into the next. */
  lemma CountMovesOn(start: uint32, p: int, left: int, n: int)
    ensures Wrap32(start + p - (left - n)) % 256 == (Wrap32(start + p - left) % 256 + n) % 256
    ensures Wrap32(Wrap32(start + p) + p - (p - (n - left))) % 256 == (Wrap32(start + p - left) % 256 + n) % 256
  {
    var x := start + p - left;
    WrapModulo(x + n);
    WrapModulo(x);
    AddModulo(x, n);
    WrapModulo(Wrap32(start + p) + (n - left));
    AddModulo(Wrap32(start + p), n - left);
    WrapModulo(start + p);
    AddModulo(start + p, n - left);
  }

  lemma AddModulo(x: int, n: int)
    ensures (x % 256 + n) % 256 == (x + n) % 256
  {
  }

  lemma CountAfterPacket(t: Stream, time: uint32, fed: bool)
    requires Sound(t) && Makes(t.s, t.qs, t.fifoSize, time, fed)
    ensures var (u, sent) := Step(t, Attempt(time, fed));
            && sent.Some? && NextCount(u.s) == (sent.value.dbc + sent.value.n) % 256 && !u.s.initial
            && (!t.s.initial ==> sent.value.dbc == NextCount(t.s))
  {
    MakesHas(t, time, fed);
    var s, n, last := t.s, PacketSamples(t.s), |t.qs| - 1;
    assert Has(t.qs[last], if s.initial || s.left < n then 2 else 1, s.interval);
    if s.initial {
      FirstPacketCounts(Head(t.qs).dbc, s.interval, n);
    } else {
      CountMovesOn(s.dbcAtStart, s.interval, s.left, n);
      if Straddles(s, n) {
        NumberedTail(t.qs[last], s.interval);
        assert Head(Tails(t.qs)).dbc == Wrap32(s.dbcAtStart + s.interval);
      }
    }
  }

  lemma FirstPacketCounts(dbc: uint32, p: int, n: int)
    ensures Wrap32(dbc + p - (p - n)) % 256 == (dbc % 256 + n) % 256
  {
    assert dbc + p - (p - n) == dbc + n;
    WrapModulo(dbc + n);
    AddModulo(dbc, n);
  }

  /** Each block count is the one before plus the samples of the packet before, modulo 256. */
  predicate Continuous(sent: seq<Sending>) {
    forall k :: 0 < k < |sent| ==> CountsOn(sent[k - 1], sent[k])
  }

  predicate CountsOn(p: Sending, q: Sending) {
    q.dbc == (p.dbc + p.n) % 256
  }

  lemma ContinuousSnoc(sent: seq<Sending>, p: Sending)
    requires Continuous(sent) && (sent != [] ==> CountsOn(sent[|sent| - 1], p))
    ensures Continuous(sent + [p])
  {
    var all := sent + [p];
    forall k | 0 < k < |all| ensures CountsOn(all[k - 1], all[k]) {
      if k < |sent| {
        assert CountsOn(sent[k - 1], sent[k]);
      }
    }
  }

  /** The counts so far are continuous, and the next packet will go on from them. */
  predicate CountsFit(u: Stream, sent: seq<Sending>) {
    && Continuous(sent) && (sent == [] <==> u.s.initial)
    && (sent != [] ==> NextCount(u.s) == (sent[|sent| - 1].dbc + sent[|sent| - 1].n) % 256)
  }

  lemma CountsFitStep(u: Stream, i: Input, sent: seq<Sending>)
    requires Sound(u) && CountsFit(u, sent)
    ensures var (v, packet) := Step(u, i); CountsFit(v, if packet.Some? then sent + [packet.value] else sent)
  {
    if i.Attempt? && Makes(u.s, u.qs, u.fifoSize, i.time, i.fed) {
      CountAfterPacket(u, i.time, i.fed);
      ContinuousSnoc(sent, PacketOf(u));
    }
  }

  /** Over any run of a stream from its start, the block counts of the packets it sends are continuous. */
  lemma {:induction false} BlockCountsAreContinuous(t: Stream, inputs: seq<Input>)
    requires Sound(t) && ProperRun(t, inputs) && t.s.initial
    ensures var (u, sent) := Run(t, inputs); Sound(u) && CountsFit(u, sent)
  {
    if inputs == [] {
    } else {
      var shorter, last := inputs[..|inputs| - 1], inputs[|inputs| - 1];
      BlockCountsAreContinuous(t, shorter);
      var (u, sent) := Run(t, shorter);
      StepKeepsSound(u, last);
      CountsFitStep(u, last, sent);
    }
  }

  // ---------- timestamps ----------

  predicate IsSytInterval(p: int) {
    p == 1 || p == 2 || p == 8 || p == 16 || p == 32
  }

  /** 256 is a multiple of every SYT interval. */
  lemma Modulo256(y: int, p: int)
    requires IsSytInterval(p)
    ensures y % 256 % p == y % p
  {
    var f := if p == 1 then 256 else if p == 2 then 128 else if p == 8 then 32 else if p == 16 then 16 else 8;
    var m := y % 256;
    Regroup(f, y / 256, m / p, p);
    QuotientIs(f * (y / 256) + m / p, m % p, p, y);
  }

  lemma Regroup(f: int, k: int, j: int, p: int)
    ensures (f * k + j) * p == (p * f) * k + j * p
  {
  }

  lemma AlignedLess(start: int, p: int, left: int)
    requires p > 0 && start % p == 0 && 0 <= left < p
    ensures (start + p - left) % p == if left == 0 then 0 else p - left
  {
    var q := start / p;
    if left == 0 {
      assert start + p == (q + 1) * p;
      QuotientIs(q + 1, 0, p, start + p);
    } else {
      QuotientIs(q, p - left, p, start + p - left);
    }
  }

  lemma CountWithinInterval(start: uint32, p: int, left: int)
    requires IsSytInterval(p) && start % p == 0 && 0 <= left < p
    ensures SampleNumber(Wrap32(start + p - left) % 256, p) == left
  {
    var y := start + p - left;
    WrapModulo(y);
    Modulo256(y, p);
    AlignedLess(start, p, left);
    Backwards(p, left);
  }

  lemma Backwards(p: int, left: int)
    requires 0 <= left < p
    ensures (p - if left == 0 then 0 else p - left) % p == left
  {
    if left == 0 {
      QuotientIs(1, 0, p, p);
    } else {
      QuotientIs(0, left, p, left);
    }
  }

  /** Sample `k` of `n` is the first of `samples`, and the others follow. */
  predicate CarriesStart(xs: seq<uint32>, k: int, n: int, samples: seq<uint32>) {
    0 <= k < n == |xs| && n - k <= |samples| && xs[k..] == samples[..n - k]
  }

  /** There is one such sample: before it stands the end of a FIFO packet whose first sample has been sent. */
  predicate StartsOnce(s: Progress, xs: seq<uint32>, k: int, n: int, q: seq<FifoPacket>, samples: seq<uint32>) {
    && CarriesStart(xs, k, n, samples) && q != []
    && if s.initial then k == 0 else 0 < Gone(s) <= |q[0].samples| && xs[..k] == q[0].samples[Gone(s)..]
  }

  lemma ChannelTimestamp(s: Progress, n: int, q: seq<FifoPacket>, after: seq<FifoPacket>, xs: seq<uint32>,
                         head: FifoPacket)
    requires TakesFrom(s, n, q, after, xs) && IsSytInterval(s.interval)
    requires 1 <= n <= s.interval && 0 <= s.left && (!s.initial ==> s.left < s.interval)
    requires if s.initial then head.dbc % s.interval == 0 else s.dbcAtStart % s.interval == 0
    ensures if s.initial || Straddles(s, n)
            then StartsOnce(s, xs, SampleNumber(BlockCount(s, head), s.interval), n, q, after[0].samples)
            else HoldsNoStart(s, n, q, after, xs)
  {
    CountPointsAt(s, head);
    if s.initial {
      StartsHere([], xs, n, after[0].samples);
    } else if Straddles(s, n) {
      StartsHere(q[0].samples[Gone(s)..], xs, GoneAfter(s, n), after[0].samples);
    }
  }

  /** The sample number of a block count: how many samples of the FIFO packet in hand are left. */
  lemma CountPointsAt(s: Progress, head: FifoPacket)
    requires IsSytInterval(s.interval) && (!s.initial ==> 0 <= s.left < s.interval)
    requires if s.initial then head.dbc % s.interval == 0 else s.dbcAtStart % s.interval == 0
    ensures SampleNumber(BlockCount(s, head), s.interval) == if s.initial then 0 else s.left
  {
    if s.initial {
      FirstCount(head.dbc, s.interval);
    } else {
      CountWithinInterval(s.dbcAtStart, s.interval, s.left);
    }
  }

  /** All samples come from the middle of the FIFO packet that is being sent. */
  predicate HoldsNoStart(s: Progress, n: int, q: seq<FifoPacket>, after: seq<FifoPacket>, xs: seq<uint32>) {
    && after == q != [] && 0 < Gone(s) && 0 <= n && Gone(s) + n <= |q[0].samples|
    && xs == q[0].samples[Gone(s)..Gone(s) + n]
  }

  /**
   A packet with a valid timestamp: in every channel, the sample the listener computes is the first of the FIFO packet
   whose time was sent, and the only first sample in the packet. A packet without one holds none.
   */
  lemma TimestampAgreement(t: Stream, time: uint32, fed: bool, c: nat)
    requires Sound(t) && Makes(t.s, t.qs, t.fifoSize, time, fed) && c < |t.qs|
    requires IsSytInterval(t.s.interval) && Head(t.qs).dbc % t.s.interval == 0
    ensures var p, after := PacketOf(t), Step(t, Attempt(time, fed)).0.qs;
            && Step(t, Attempt(time, fed)).1 == Some(p) && |after| == |t.qs| == |p.xs| && after[c] != []
            && if p.valid then
                 p.ts == Head(after).ts
                 && StartsOnce(t.s, p.xs[c], SampleNumber(p.dbc, t.s.interval), p.n, t.qs[c], after[c][0].samples)
               else HoldsNoStart(t.s, p.n, t.qs[c], after[c], p.xs[c])
  {
    MakesHas(t, time, fed);
    PacketTakes(t, time, fed, c);
    var n := PacketSamples(t.s);
    var after := QueuesAfter(t.s, n, t.qs);
    ChannelTimestamp(t.s, n, t.qs[c], after[c], PacketOf(t).xs[c], Head(after));
  }

  lemma StartsHere(a: seq<uint32>, xs: seq<uint32>, m: int, samples: seq<uint32>)
    requires 0 < m <= |samples| && xs == a + samples[..m]
    ensures CarriesStart(xs, |a|, |a| + m, samples) && xs[..|a|] == a
  {
    PartsOfSum(a, samples[..m]);
  }

  lemma FirstCount(dbc: uint32, p: int)
    requires IsSytInterval(p) && dbc % p == 0
    ensures SampleNumber(dbc % 256, p) == 0
  {
    Modulo256(dbc, p);
    Backwards(p, 0);
  }

  /** Block counts that are multiples of the SYT interval. */
  predicate AlignedQueue(q: seq<FifoPacket>, p: int)
    requires p > 0
  {
    forall i :: 0 <= i < |q| ==> AlignedPacket(q[i], p)
  }

  predicate AlignedPacket(x: FifoPacket, p: int)
    requires p > 0
  {
    x.dbc % p == 0
  }

  /** The block count after an aligned one is aligned, also where it wraps. */
  lemma NextIsAligned(dbc: uint32, p: int)
    requires IsSytInterval(p) && dbc % p == 0
    ensures Wrap32(dbc + p) % p == 0
  {
    var q, k := dbc / p, (dbc + p) / TWO_TO_32;
    var f := if p == 1 then TWO_TO_32 else if p == 2 then 0x8000_0000 else if p == 8 then 0x2000_0000
             else if p == 16 then 0x1000_0000 else 0x800_0000;
    assert Wrap32(dbc + p) == (q + 1) * p - k * TWO_TO_32;
    RegroupLess(q + 1, f, k, p);
    QuotientIs(q + 1 - f * k, 0, p, Wrap32(dbc + p));
  }

  lemma RegroupLess(q: int, f: int, k: int, p: int)
    ensures (q - f * k) * p == q * p - k * (p * f)
  {
  }
}
