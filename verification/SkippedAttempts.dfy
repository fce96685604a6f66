/**
 A run in which a talker's 44.1 kHz are taken for 48 kHz: the talker is polled more often than it may send, and the
 sample fractions of the attempts in between add to those of the packets.
 */
module SkippedAttempts {
  import opened Bytes
  import opened Wrappers
  import opened InputFifo
  import opened Talker
  import opened TalkerRuns
  import opened Listener
  import opened AudioPath

  /** The words of an input FIFO in a build for 48 kHz. */
  const FIFO_SIZE := 64

  /** As many complete packets as such a FIFO holds at 44.1 kHz. */
  const QUEUED := 5

  /** The packets that a listener needs to lock. */
  const PACKETS: nat := 17

  /** A talker of one channel at 44.1 kHz, just started. */
  function Fresh(): Stream {
    Stream(Started(44100), [[]], FIFO_SIZE)
  }

  /** The channel's next FIFO packet, numbered behind the last one. */
  function NextPacket(u: Stream): Input {
    var q := if u.qs == [] then [] else u.qs[0];
    Fill(0, FifoPacket(0, if q == [] then 0 else Wrap32(q[|q| - 1].dbc + 8), seq(8, i => 0)))
  }

  predicate Few(u: Stream) {
    |u.qs| == 1 && |u.qs[0]| <= QUEUED
  }

  /** At no time of the run are more packets queued than the FIFO has room for. */
  predicate NeverMore(inputs: seq<Input>) {
    forall k :: 0 <= k <= |inputs| ==> Few(TalkerRuns.Run(Fresh(), inputs[..k]).0)
  }

  lemma NeverMoreSnoc(inputs: seq<Input>, i: Input)
    requires NeverMore(inputs) && Few(TalkerRuns.Run(Fresh(), inputs + [i]).0)
    ensures NeverMore(inputs + [i])
  {
    var all := inputs + [i];
    forall k | 0 <= k <= |all| ensures Few(TalkerRuns.Run(Fresh(), all[..k]).0) {
      if k <= |inputs| {
        assert all[..k] == inputs[..k];
      } else {
        assert all[..k] == all;
      }
    }
  }

  predicate AllOfSix(sent: seq<Sending>) {
    forall k :: 0 <= k < |sent| ==> sent[k].n == 6
  }

  /** The run leads to `u` and has sent `sent`, all packets of six samples. */
  ghost predicate Reaches(inputs: seq<Input>, u: Stream, sent: seq<Sending>) {
    && TalkerRuns.Run(Fresh(), inputs) == (u, sent) && ProperRun(Fresh(), inputs) && AllOfSix(sent) && NeverMore(inputs)
  }

  lemma ReachesOn(inputs: seq<Input>, u: Stream, sent: seq<Sending>, i: Input, v: Stream, packet: Option<Sending>)
    requires Reaches(inputs, u, sent) && Proper(u, i) && Step(u, i) == (v, packet) && Few(v)
    requires packet.Some? ==> packet.value.n == 6
    ensures Reaches(inputs + [i], v, if packet.Some? then sent + [packet.value] else sent)
  {
    RunSnoc(Fresh(), inputs, i);
    NeverMoreSnoc(inputs, i);
  }

  // ---------- the first packets ----------

  function Filling(k: nat): seq<Input> {
    if k == 0 then [] else Filling(k - 1) + [NextPacket(TalkerRuns.Run(Fresh(), Filling(k - 1)).0)]
  }

  ghost predicate Primed(u: Stream, k: nat) {
    Sound(u) && u.s == Started(44100) && u.fifoSize == FIFO_SIZE && |u.qs| == 1 && |u.qs[0]| == k
  }

  lemma FreshIsSound()
    ensures Primed(Fresh(), 0) && Started(44100).interval == 8 && Started(44100).base == 5
    ensures Started(44100).fractional == 33587
  {
    SharesOfRates();
  }

  lemma OneFilled(u: Stream, k: nat)
    requires Primed(u, k)
    ensures Proper(u, NextPacket(u)) && Step(u, NextPacket(u)).1 == None && Primed(Step(u, NextPacket(u)).0, k + 1)
  {
    FreshIsSound();
    StepKeepsSound(u, NextPacket(u));
  }

  lemma {:induction false} FilledUp(k: nat) returns (u: Stream)
    requires k <= QUEUED
    ensures Reaches(Filling(k), u, []) && Primed(u, k)
  {
    FreshIsSound();
    if k == 0 {
      u := Fresh();
    } else {
      var v := FilledUp(k - 1);
      OneFilled(v, k - 1);
      u := Step(v, NextPacket(v)).0;
      ReachesOn(Filling(k - 1), v, [], NextPacket(v), u, None);
    }
  }

  // ---------- one packet ----------

  /** The attempt that is skipped: before anything is fed at first, and one tick too early from then on. */
  function TooSoon(j: nat): Input
    requires j <= 17
  {
    if j == 0 then Attempt(0, false) else Attempt(PACKET_PERIOD_TIMER_TICKS * j - 1, true)
  }

  function InTime(j: nat): Input
    requires j <= 17
  {
    Attempt(PACKET_PERIOD_TIMER_TICKS * j, true)
  }

  /** After `j` packets, and `skips` attempts skipped behind them: the fractions stand at 1638 for each packet. */
  ghost predicate Stands(u: Stream, j: nat, skips: nat) {
    && Sound(u) && u.fifoSize == FIFO_SIZE && |u.qs| == 1
    && u.s.base == 5 && u.s.fractional == 33587 && u.s.interval == 8 && u.s.rem == 1638 * j + 33587 * skips
    && (u.s.initial <==> j == 0)
    && (j > 0 ==> !u.s.transmitOk && u.s.lastTransmit == PACKET_PERIOD_TIMER_TICKS * (j - 1))
  }

  lemma OneSkipped(u: Stream, j: nat)
    requires j <= 16 && Stands(u, j, 0) && |u.qs[0]| == QUEUED
    ensures var (v, packet) := Step(u, TooSoon(j));
            packet == None && Stands(v, j, 1) && v.qs == u.qs
  {
    assert Product(8, QUEUED) == 40;
    StepKeepsSound(u, TooSoon(j));
  }

  lemma OneMade(u: Stream, j: nat)
    requires j <= 16 && Stands(u, j, 1) && |u.qs[0]| == QUEUED
    ensures var (v, packet) := Step(u, InTime(j));
            packet.Some? && packet.value.n == 6 && Stands(v, j + 1, 0)
            && QUEUED - 1 <= |v.qs[0]| <= QUEUED
  {
    assert Product(8, QUEUED) == 40;
    StepKeepsSound(u, InTime(j));
  }

  lemma OneRefilled(u: Stream, j: nat)
    requires Stands(u, j, 0) && |u.qs[0]| == QUEUED - 1
    ensures Proper(u, NextPacket(u))
    ensures var (v, packet) := Step(u, NextPacket(u));
            packet == None && Stands(v, j, 0) && |v.qs[0]| == QUEUED
  {
    StepKeepsSound(u, NextPacket(u));
  }

  // ---------- the run ----------

  /** One packet more: an attempt that is skipped, one that is not, and a FIFO packet if one was used up. */
  function Lapped(inputs: seq<Input>, j: nat): seq<Input>
    requires j <= 16
  {
    var attempts := inputs + [TooSoon(j)] + [InTime(j)];
    var u := TalkerRuns.Run(Fresh(), attempts).0;
    if |u.qs| == 1 && |u.qs[0]| < QUEUED then attempts + [NextPacket(u)] else attempts
  }

  function Laps(n: nat): seq<Input>
    requires n <= 17
  {
    if n == 0 then Filling(QUEUED) else Lapped(Laps(n - 1), n - 1)
  }

  /** The run has sent `j` packets, and its FIFO is as full as it may be. */
  ghost predicate Going(inputs: seq<Input>, u: Stream, sent: seq<Sending>, j: nat) {
    Reaches(inputs, u, sent) && Stands(u, j, 0) && |u.qs[0]| == QUEUED && |sent| == j
  }

  lemma OneLap(inputs: seq<Input>, u: Stream, sent: seq<Sending>, j: nat) returns (v: Stream, more: seq<Sending>)
    requires j <= 16 && Going(inputs, u, sent, j)
    ensures Going(Lapped(inputs, j), v, more, j + 1)
  {
    OneSkipped(u, j);
    v := Step(u, TooSoon(j)).0;
    ReachesOn(inputs, u, sent, TooSoon(j), v, None);
    v, more := AttemptInTime(inputs + [TooSoon(j)], v, sent, j);
    if |v.qs[0]| < QUEUED {
      var attempts, w := inputs + [TooSoon(j)] + [InTime(j)], v;
      OneRefilled(w, j + 1);
      v := Step(w, NextPacket(w)).0;
      ReachesOn(attempts, w, more, NextPacket(w), v, None);
    }
  }

  lemma AttemptInTime(inputs: seq<Input>, u: Stream, sent: seq<Sending>, j: nat) returns (v: Stream, more: seq<Sending>)
    requires j <= 16 && Reaches(inputs, u, sent) && Stands(u, j, 1) && |u.qs[0]| == QUEUED && |sent| == j
    ensures Reaches(inputs + [InTime(j)], v, more) && Stands(v, j + 1, 0) && |more| == j + 1
    ensures QUEUED - 1 <= |v.qs[0]| <= QUEUED
  {
    OneMade(u, j);
    var (next, packet) := Step(u, InTime(j));
    v, more := next, sent + [packet.value];
    ReachesOn(inputs, u, sent, InTime(j), v, packet);
  }

  lemma {:induction false} EveryPacketHasSix(n: nat) returns (u: Stream, sent: seq<Sending>)
    requires n <= 17
    ensures Going(Laps(n), u, sent, n)
  {
    if n == 0 {
      FreshIsSound();
      u := FilledUp(QUEUED);
      sent := [];
    } else {
      u, sent := EveryPacketHasSix(n - 1);
      u, sent := OneLap(Laps(n - 1), u, sent, n - 1);
    }
  }

  lemma RateOfSixes(inputs: seq<Input>, u: Stream, sent: seq<Sending>, n: nat, ownRate: int)
    requires n == PACKETS && Going(inputs, u, sent, n)
    ensures Heard(Unlocked(ownRate), sent, 1).rate == 48000
  {
    FreshIsSound();
    ListenerFindsRate(44100, Fresh(), inputs, 1, ownRate);
  }

  /** A run of as many packets as a listener needs, all of six samples, of a talker whose FIFO never overflows. */
  ghost predicate Mistaken(inputs: seq<Input>, ownRate: int) {
    var sent := TalkerRuns.Run(Fresh(), inputs).1;
    && ProperRun(Fresh(), inputs) && NeverMore(inputs) && |sent| == PACKETS && AllOfSix(sent)
    && Heard(Unlocked(ownRate), sent, 1).rate == 48000
  }

  lemma MistakenAfter(n: nat, ownRate: int) returns (inputs: seq<Input>)
    requires n == PACKETS
    ensures Mistaken(inputs, ownRate)
  {
    inputs := Laps(n);
    var u, sent := EveryPacketHasSix(n);
    RateOfSixes(inputs, u, sent, n, ownRate);
  }

  /**
   With one attempt skipped before each packet, all packets of a 44.1 kHz talker have six samples, its FIFO never holds
   more than it has slots for, and every listener takes its stream for one at 48 kHz.
   */
  lemma TakenFor48kHz(ownRate: int)
    ensures QUEUED + 1 == Slots(FIFO_SIZE, SytInterval(44100) + 2)
    ensures exists inputs :: Mistaken(inputs, ownRate)
  {
    var inputs := MistakenAfter(PACKETS, ownRate);
  }
}
