/**
 How often an endpoint sends: the periods of announcements, syncs and delay requests on the wrapping clock
 (module_gptp/src/gptp.c).
 */
module GptpBeats {
  import opened Bytes
  import opened GptpBmca

  /** When something with a period last went out, by the times of the calls alone; it was last due at `start`. */
  function LastBeat(start: int, period: int, times: seq<int>): int {
    if times == [] then start
    else
      var last, now := LastBeat(start, period, times[..|times| - 1]), times[|times| - 1];
      if now > last + period then now else last
  }

  /** It goes out at the last call: more than a period after it last did. */
  predicate Beats(start: int, period: int, times: seq<int>) {
    times != [] && times[|times| - 1] > LastBeat(start, period, times[..|times| - 1]) + period
  }

  /** At every call the last beat is at most a period ago, or as long as it was at the start. */
  lemma {:induction false} BeatIsRecent(from: int, period: int, start: int, gap: int, times: seq<int>)
    requires 0 <= period && from <= start && Paced(start, gap, times)
    ensures var now := Before(start, times, |times|);
            0 <= now - LastBeat(from, period, times) <= if start - from > period then now - from else period
    ensures Before(start, times, |times|) >= start
  {
    if times == [] {
    } else {
      PacedPrefix(start, gap, times);
      BeatIsRecent(from, period, start, gap, times[..|times| - 1]);
    }
  }

  /** Beats that were not overdue are more than a period apart, and at most a gap between calls more than that. */
  lemma BeatsApart(from: int, period: int, start: int, gap: int, times: seq<int>)
    requires 0 <= period && 0 <= gap && 0 <= start - from <= period
    requires Paced(start, gap, times) && Beats(from, period, times)
    ensures var shorter, now := times[..|times| - 1], times[|times| - 1];
            period < now - LastBeat(from, period, shorter) <= period + gap
  {
    PacedPrefix(start, gap, times);
    BeatIsRecent(from, period, start, gap, times[..|times| - 1]);
  }

  lemma DueIsReal(now: int, last: int, period: int)
    requires 0 <= now - last < TWO_TO_31 && 0 <= period < TWO_TO_31
    ensures TimeAfter(Wrap32(now), Wrap32(Wrap32(last) + period)) <==> now > last + period
  {
    assert Wrap32(Wrap32(last) + period) == Wrap32(last + period);
    TimeAfterIsReal(now, last + period);
  }

  // ---------- a node that keeps its role ----------

  /** When the three kinds of messages last went out, in real time. */
  datatype Times = Times(announced: int, synced: int, asked: int)

  predicate Keeps(n: Node, x: Times) {
    n.lastAnnounce == Wrap32(x.announced) && n.lastSync == Wrap32(x.synced) && n.lastPdelay == Wrap32(x.asked)
  }

  /** The times are recent enough at `now` for the wrapping clock. */
  predicate Recent(x: Times, now: int) {
    && 0 <= now - x.announced < TWO_TO_31 && 0 <= now - x.synced < TWO_TO_31 && 0 <= now - x.asked < TWO_TO_31
  }

  /** What goes out at `now`, in real time. */
  function Due(role: Role, x: Times, now: int, legacy: bool): Outgoing {
    Outgoing(now > x.announced + ANNOUNCE_PERIOD, role.Master? && now > x.synced + SYNC_PERIOD,
             (!legacy || !role.Master?) && now > x.asked + PDELAY_REQ_PERIOD)
  }

  function TimesAfter(x: Times, out: Outgoing, now: int): Times {
    Times(if out.announce then now else x.announced, if out.sync then now else x.synced,
          if out.pdelayRequest then now else x.asked)
  }

  /** A call at which no timeout runs out sends exactly what is due. */
  lemma CallSendsWhatIsDue(n: Node, x: Times, now: int, legacy: bool)
    requires Keeps(n, x) && Recent(x, now) && (n.role.Master? || !TimedOut(n, Wrap32(now)))
    ensures var t, out := Wrap32(now), Due(n.role, x, now, legacy);
            && Sends(Expired(n, t), t, legacy) == out && Keeps(Periodic(n, t, legacy), TimesAfter(x, out, now))
            && Periodic(n, t, legacy).role == n.role
  {
    DueIsReal(now, x.announced, ANNOUNCE_PERIOD);
    DueIsReal(now, x.synced, SYNC_PERIOD);
    DueIsReal(now, x.asked, PDELAY_REQ_PERIOD);
  }

  /** No timeout of the node runs out at any of the calls. */
  predicate Untroubled(n: Node, times: seq<int>, legacy: bool) {
    times == [] ||
    (Untroubled(n, times[..|times| - 1], legacy)
     && var m := PeriodicAll(n, times[..|times| - 1], legacy);
        m.role.Master? || !TimedOut(m, Wrap32(times[|times| - 1])))
  }

  /** The beats of a role: a slave sends no syncs, and a master in legacy mode asks for no delay. */
  function BeatsOf(role: Role, x: Times, times: seq<int>, legacy: bool): Times {
    Times(LastBeat(x.announced, ANNOUNCE_PERIOD, times),
          if role.Master? then LastBeat(x.synced, SYNC_PERIOD, times) else x.synced,
          if legacy && role.Master? then x.asked else LastBeat(x.asked, PDELAY_REQ_PERIOD, times))
  }

  /** The last messages were recent at the start, and the calls do not go on for longer than the clock can tell. */
  predicate Told(x: Times, start: int, gap: int, times: seq<int>) {
    && Recent(x, start) && 0 <= gap && Paced(start, gap, times)
    && forall k :: 0 <= k < |times| ==> Recent(x, times[k])
  }

  lemma ToldPrefix(x: Times, start: int, gap: int, times: seq<int>)
    requires times != [] && Told(x, start, gap, times)
    ensures Told(x, start, gap, times[..|times| - 1])
  {
    PacedPrefix(start, gap, times);
    var shorter := times[..|times| - 1];
    forall k | 0 <= k < |shorter| ensures Recent(x, shorter[k]) {
      assert Recent(x, times[k]);
    }
  }

  lemma BeatsAreRecent(role: Role, x: Times, start: int, gap: int, times: seq<int>, legacy: bool)
    requires times != [] && Told(x, start, gap, times)
    ensures Recent(BeatsOf(role, x, times[..|times| - 1], legacy), times[|times| - 1])
  {
    var shorter := times[..|times| - 1];
    assert Recent(x, times[|times| - 1]);
    PacedPrefix(start, gap, times);
    LastBeatBetween(x.announced, ANNOUNCE_PERIOD, start, gap, shorter);
    LastBeatBetween(x.synced, SYNC_PERIOD, start, gap, shorter);
    LastBeatBetween(x.asked, PDELAY_REQ_PERIOD, start, gap, shorter);
  }

  lemma {:induction false} LastBeatBetween(from: int, period: int, start: int, gap: int, times: seq<int>)
    requires from <= start && Paced(start, gap, times)
    ensures from <= LastBeat(from, period, times) <= Before(start, times, |times|)
    ensures start <= Before(start, times, |times|)
  {
    if times == [] {
    } else {
      PacedPrefix(start, gap, times);
      LastBeatBetween(from, period, start, gap, times[..|times| - 1]);
    }
  }

  /**
   Over any calls at which no timeout runs out, a node keeps its role, and sends announcements, syncs and delay requests
   exactly on the beats of their periods, as far as its role sends them.
   */
  lemma {:induction false} SendsOnTheBeat(n: Node, x: Times, start: int, gap: int, times: seq<int>, legacy: bool)
    requires Keeps(n, x) && Told(x, start, gap, times) && Untroubled(n, times, legacy)
    ensures var m := PeriodicAll(n, times, legacy); m.role == n.role && Keeps(m, BeatsOf(n.role, x, times, legacy))
    ensures times != [] ==>
              var m, now := PeriodicAll(n, times[..|times| - 1], legacy), Wrap32(times[|times| - 1]);
              Sends(Expired(m, now), now, legacy)
              == Outgoing(Beats(x.announced, ANNOUNCE_PERIOD, times),
                          n.role.Master? && Beats(x.synced, SYNC_PERIOD, times),
                          (!legacy || !n.role.Master?) && Beats(x.asked, PDELAY_REQ_PERIOD, times))
  {
    if times == [] {
    } else {
      var shorter := times[..|times| - 1];
      ToldPrefix(x, start, gap, times);
      SendsOnTheBeat(n, x, start, gap, shorter, legacy);
      BeatsAreRecent(n.role, x, start, gap, times, legacy);
      CallSendsWhatIsDue(PeriodicAll(n, shorter, legacy), BeatsOf(n.role, x, shorter, legacy), times[|times| - 1],
                         legacy);
    }
  }

  // ---------- taking up a role ----------

  /** A new master has its first announcement and sync a whole period ahead, and nothing left of the master before. */
  lemma NewMasterStartsBeating(n: Node, now: int, legacy: bool)
    requires n.role.Uncertain? && TimedOut(n, Wrap32(now))
    ensures var m := Expired(n, Wrap32(now));
            m.role.Master? && m.best == n.me && Keeps(m, Times(now, now, n.lastPdelay))
  {
  }

  /** A new slave has its first delay request a whole period ahead. */
  lemma NewSlaveStartsBeating(n: Node, a: Announce, source: PortId, now: int)
    requires Adopts(n, a)
    ensures var m := Received(n, a, source, Wrap32(now));
            m.role.Slave? && m.lastPdelay == Wrap32(now) && m.lastAnnounce == n.lastAnnounce
  {
  }
}
