/**
 What a listener infers from any packets whatever, with losses and repetitions: the law of its lock
 (module_avb_1722/src/avb_1722_listener_support_audio.c).
 */
module ListenerLock {
  import opened Bytes
  import opened Listener

  /** What a packet tells: its block count and its words of samples. */
  datatype Packet = Packet(dbc: byte, words: int)

  /** A channel count that two packets in a row give, with the words of the second. */
  datatype Inference = Inference(channels: int, words: int)

  function AfterPackets(l: Lock, packets: seq<Packet>): Lock {
    if packets == [] then l
    else
      var p := packets[|packets| - 1];
      Observed(AfterPackets(l, packets[..|packets| - 1]), p.dbc, p.words)
  }

  /** Packet `p` gives a channel count if the block count has moved since `before`, which was not empty. */
  predicate Infers(before: Packet, p: Packet) {
    before.words != 0 && p.dbc != before.dbc
  }

  /** The words of the packet before go with so many samples as the block count has moved by, modulo 256. */
  function InferenceOf(before: Packet, p: Packet): Inference
    requires Infers(before, p)
  {
    Inference(TruncDiv(before.words, (p.dbc - before.dbc) % 256), p.words)
  }

  /** The inferences from a run of packets, in order. */
  function Inferences(packets: seq<Packet>): seq<Inference> {
    if |packets| < 2 then []
    else
      var n := |packets|;
      Inferences(packets[..n - 1])
      + if Infers(packets[n - 2], packets[n - 1]) then [InferenceOf(packets[n - 2], packets[n - 1])] else []
  }

  function Words(gs: seq<Inference>): int {
    if gs == [] then 0 else Words(gs[..|gs| - 1]) + gs[|gs| - 1].words
  }

  /** The `c` inferences before position `n` give the same count; counts of 0 agree with nothing. */
  predicate Agree(gs: seq<Inference>, n: int, c: int) {
    && 0 <= c <= n <= |gs|
    && (forall i :: n - c <= i < n ==> gs[i].channels == gs[n - 1].channels)
    && (c > 1 ==> gs[n - 1].channels != 0)
  }

  /** Sixteen in a row have agreed when the first `n` inferences are in. */
  predicate Locks(gs: seq<Inference>, n: int) {
    Agree(gs, n, LOCK_COUNT)
  }

  ghost predicate LocksFirst(gs: seq<Inference>, n: int) {
    Locks(gs, n) && forall m :: m < n ==> !Locks(gs, m)
  }

  ghost predicate NeverLocks(gs: seq<Inference>) {
    forall n :: !Locks(gs, n)
  }

  // ---------- one inference at a time ----------

  lemma AgreeBefore(gs: seq<Inference>, x: Inference, n: int, c: int)
    requires n <= |gs|
    ensures Agree(gs + [x], n, c) <==> Agree(gs, n, c)
  {
    assert forall i :: 0 <= i < n ==> (gs + [x])[i] == gs[i];
  }

  lemma AgreeSnoc(gs: seq<Inference>, x: Inference, c: int)
    requires c >= 1
    ensures Agree(gs + [x], |gs| + 1, c)
            <==> c == 1 || (Agree(gs, |gs|, c - 1) && x.channels == gs[|gs| - 1].channels && x.channels != 0)
  {
    var all := gs + [x];
    if Agree(all, |gs| + 1, c) && c > 1 {
      assert all[|gs|] == x && all[|gs| - 1].channels == x.channels;
      assert forall i :: |gs| - (c - 1) <= i < |gs| ==> gs[i] == all[i];
    }
  }

  lemma LocksSnoc(gs: seq<Inference>, x: Inference)
    ensures NeverLocks(gs + [x]) <==> NeverLocks(gs) && !Locks(gs + [x], |gs| + 1)
    ensures NeverLocks(gs) && Locks(gs + [x], |gs| + 1) ==> LocksFirst(gs + [x], |gs| + 1)
    ensures forall n :: n <= |gs| && LocksFirst(gs, n) ==> LocksFirst(gs + [x], n)
  {
    forall n ensures n <= |gs| ==> (Locks(gs + [x], n) <==> Locks(gs, n)) {
      if n <= |gs| {
        AgreeBefore(gs, x, n, LOCK_COUNT);
      }
    }
  }

  lemma WordsSnoc(gs: seq<Inference>, x: Inference)
    ensures Words(gs + [x]) == Words(gs) + x.words
  {
    assert (gs + [x])[..|gs|] == gs;
  }

  /** What is held before a lock: the last count inferred, how many in a row have given it, and their words. */
  predicate Counting(l: Lock, gs: seq<Inference>, rate: int) {
    if gs == [] then l.channels == 0 && l.count == 0 && l.rate == rate
    else
      && l.channels == gs[|gs| - 1].channels && 1 <= l.count < LOCK_COUNT
      && Agree(gs, |gs|, l.count) && !Agree(gs, |gs|, l.count + 1)
      && l.rate == Words(gs[|gs| - l.count..|gs|])
  }

  /** What is held from the lock on: the count that sixteen agreed on, and the rate of those sixteen. */
  predicate LockedAt(l: Lock, gs: seq<Inference>, n: int)
    requires Locks(gs, n)
  {
    && l.channels == gs[n - 1].channels && l.count == LOCK_COUNT
    && l.channels != 0 && l.rate == RateOf(TruncDiv(TruncDiv(Words(gs[n - LOCK_COUNT..n]), l.channels), 16))
  }

  lemma StreakGoesOn(l: Lock, gs: seq<Inference>, x: Inference, rate: int)
    requires gs != [] && Counting(l, gs, rate) && x.channels == l.channels && x.channels != 0
    ensures var all, c := gs + [x], l.count + 1;
            Agree(all, |all|, c) && !Agree(all, |all|, c + 1) && Words(all[|all| - c..|all|]) == l.rate + x.words
  {
    AgreeSnoc(gs, x, l.count + 1);
    AgreeSnoc(gs, x, l.count + 2);
    WordsSnoc(gs[|gs| - l.count..|gs|], x);
    assert (gs + [x])[|gs| - l.count..|gs| + 1] == gs[|gs| - l.count..|gs|] + [x];
  }

  lemma StreakBegins(l: Lock, gs: seq<Inference>, x: Inference, rate: int)
    requires Counting(l, gs, rate) && (gs == [] || x.channels != l.channels || l.channels == 0)
    ensures var all := gs + [x];
            Agree(all, |all|, 1) && !Agree(all, |all|, 2) && Words(all[|all| - 1..|all|]) == x.words
  {
    AgreeSnoc(gs, x, 1);
    AgreeSnoc(gs, x, 2);
    WordsSnoc([], x);
    assert (gs + [x])[|gs|..|gs| + 1] == [] + [x];
  }

  /** Where a number of inferences does not agree, no larger number does. */
  lemma NotMore(gs: seq<Inference>, c: int, d: int)
    requires 2 <= c <= d && !Agree(gs, |gs|, c)
    ensures !Agree(gs, |gs|, d)
  {
  }

  lemma Confirmed(l: Lock, x: Inference)
    requires x.channels == l.channels && l.channels != 0
    ensures var m := Guessed(l, x.channels, x.words);
            m.channels == x.channels && m.count == l.count + 1
            && m.rate == if m.count == LOCK_COUNT then RateOf(TruncDiv(TruncDiv(l.rate + x.words, l.channels), 16))
                         else l.rate + x.words
  {
  }

  lemma Restarted(l: Lock, x: Inference)
    requires x.channels != l.channels || l.channels == 0
    ensures Guessed(l, x.channels, x.words) == l.(channels := x.channels, count := 1, rate := x.words)
  {
  }

  /** The `c` last of `all` agree, and no more: so much is held before the lock. */
  lemma CountingSo(m: Lock, all: seq<Inference>, c: int, rate: int)
    requires all != [] && 1 <= c < LOCK_COUNT && Agree(all, |all|, c) && !Agree(all, |all|, c + 1)
    requires m.channels == all[|all| - 1].channels && m.count == c && m.rate == Words(all[|all| - c..|all|])
    ensures !Locks(all, |all|) && Counting(m, all, rate)
  {
    NotMore(all, c + 1, LOCK_COUNT);
  }

  /** One more inference confirms the count held, or begins again with another. */
  lemma GuessCounts(l: Lock, gs: seq<Inference>, x: Inference, rate: int)
    requires Counting(l, gs, rate)
    ensures var all, m := gs + [x], Guessed(l, x.channels, x.words);
            if Locks(all, |all|) then LockedAt(m, all, |all|) else Counting(m, all, rate)
  {
    var all, m := gs + [x], Guessed(l, x.channels, x.words);
    if gs != [] && x.channels == l.channels && l.channels != 0 {
      StreakGoesOn(l, gs, x, rate);
      Confirmed(l, x);
      if l.count + 1 < LOCK_COUNT {
        CountingSo(m, all, l.count + 1, rate);
      } else {
        assert LockedAt(m, all, |all|);
      }
    } else {
      StreakBegins(l, gs, x, rate);
      Restarted(l, x);
      CountingSo(m, all, 1, rate);
    }
  }

  // ---------- any packets ----------

  ghost predicate Holding(l: Lock, gs: seq<Inference>, rate: int) {
    if NeverLocks(gs) then Counting(l, gs, rate) else exists n :: LocksFirst(gs, n) && LockedAt(l, gs, n)
  }

  lemma HoldingTells(l: Lock, gs: seq<Inference>, rate: int)
    requires Holding(l, gs, rate)
    ensures l.count >= LOCK_COUNT <==> !NeverLocks(gs)
  {
    if NeverLocks(gs) {
      assert Counting(l, gs, rate);
    } else {
      var n :| LocksFirst(gs, n) && LockedAt(l, gs, n);
    }
  }

  lemma OneInference(l: Lock, gs: seq<Inference>, x: Inference, rate: int)
    requires Holding(l, gs, rate)
    ensures Holding(if l.count >= LOCK_COUNT then l else Guessed(l, x.channels, x.words), gs + [x], rate)
  {
    LocksSnoc(gs, x);
    if NeverLocks(gs) {
      GuessCounts(l, gs, x, rate);
    } else {
      var n :| LocksFirst(gs, n) && LockedAt(l, gs, n);
      assert (gs + [x])[n - LOCK_COUNT..n] == gs[n - LOCK_COUNT..n];
      assert LocksFirst(gs + [x], n) && LockedAt(l, gs + [x], n);
    }
  }

  lemma DifferenceIsReal(dbc: byte, before: byte)
    ensures BlockDifference(dbc, before) == (dbc - before) % 256
    ensures BlockDifference(dbc, before) == 0 <==> dbc == before
  {
  }

  /** The last packet is remembered. */
  predicate Remembers(l: Lock, packets: seq<Packet>) {
    if packets == [] then l.prevNumSamples == 0
    else l.dbc == packets[|packets| - 1].dbc && l.prevNumSamples == packets[|packets| - 1].words
  }

  lemma InferencesSnoc(packets: seq<Packet>, p: Packet)
    ensures packets == [] ==> Inferences(packets + [p]) == Inferences(packets) == []
    ensures packets != [] ==>
              var q := packets[|packets| - 1];
              Inferences(packets + [p]) == Inferences(packets) + if Infers(q, p) then [InferenceOf(q, p)] else []
  {
    assert (packets + [p])[..|packets|] == packets;
  }

  lemma OnePacket(l: Lock, packets: seq<Packet>, p: Packet, rate: int)
    requires Remembers(l, packets) && Holding(l, Inferences(packets), rate)
    ensures var m := Observed(l, p.dbc, p.words);
            Remembers(m, packets + [p]) && Holding(m, Inferences(packets + [p]), rate)
  {
    var gs, seen := Inferences(packets), l.(dbc := p.dbc, prevNumSamples := p.words);
    InferencesSnoc(packets, p);
    SameHolding(l, seen, gs, rate);
    if packets != [] {
      var q := packets[|packets| - 1];
      DifferenceIsReal(p.dbc, q.dbc);
      if Infers(q, p) {
        OneInference(seen, gs, InferenceOf(q, p), rate);
      } else {
        assert gs + [] == gs;
      }
    }
  }

  lemma SameHolding(l: Lock, m: Lock, gs: seq<Inference>, rate: int)
    requires Holding(l, gs, rate) && m.channels == l.channels && m.count == l.count && m.rate == l.rate
    ensures Holding(m, gs, rate)
  {
    if !NeverLocks(gs) {
      var n :| LocksFirst(gs, n) && LockedAt(l, gs, n);
      assert LockedAt(m, gs, n);
    }
  }

  lemma {:induction false} LockHolds(packets: seq<Packet>, rate: int)
    ensures var l := AfterPackets(Unlocked(rate), packets);
            Remembers(l, packets) && Holding(l, Inferences(packets), rate)
  {
    if packets == [] {
      assert NeverLocks([]);
    } else {
      var shorter, p := packets[..|packets| - 1], packets[|packets| - 1];
      LockHolds(shorter, rate);
      OnePacket(AfterPackets(Unlocked(rate), shorter), shorter, p, rate);
      assert packets == shorter + [p];
    }
  }

  /**
   Over any packets whatever, lost, repeated or out of order, a fresh listener counts the present streak: that many
   inferences at the end all give the channel count it holds, and not one more.
   */
  lemma CountIsAgreement(packets: seq<Packet>, rate: int)
    requires NeverLocks(Inferences(packets))
    ensures Counting(AfterPackets(Unlocked(rate), packets), Inferences(packets), rate)
  {
    LockHolds(packets, rate);
  }

  /** It locks exactly when sixteen in a row agree on a channel count. */
  lemma LocksExactlyWhenSixteenAgree(packets: seq<Packet>, rate: int)
    ensures AfterPackets(Unlocked(rate), packets).count < LOCK_COUNT <==> NeverLocks(Inferences(packets))
  {
    LockHolds(packets, rate);
    HoldingTells(AfterPackets(Unlocked(rate), packets), Inferences(packets), rate);
  }

  /**
   From the first sixteen that agree on, it holds their count and the rate of their words, and no other packet moves it.
   */
  lemma LockIsOfFirstSixteen(packets: seq<Packet>, rate: int, n: int)
    requires LocksFirst(Inferences(packets), n)
    ensures LockedAt(AfterPackets(Unlocked(rate), packets), Inferences(packets), n)
  {
    LockHolds(packets, rate);
  }
}
