/**
 What the estimates of a gPTP endpoint promise beyond one update: when the sync lock is gained and lost, what a change
 of role forgets, and how close the measured path delay comes to the real one (module_gptp/src/gptp.c).
 */
module GptpEstimates {
  import opened Bytes
  import opened GptpTime
  import opened GptpSync
  import opened GptpRate

  // ---------- gaining and losing the lock ----------

  /** All of the last six variations are below two to the 20. */
  predicate SixClose(vs: seq<int>) {
    |vs| >= 6 && forall i :: |vs| - 6 <= i < |vs| ==> vs[i] < 0x10_0000
  }

  predicate SixFar(vs: seq<int>) {
    |vs| >= 6 && forall i :: |vs| - 6 <= i < |vs| ==> vs[i] > 0x10_0000
  }

  /** The lock stood at `l` before each of the last six. */
  predicate StoodForSix(locked: bool, vs: seq<int>, l: bool) {
    forall i :: |vs| - 6 <= i < |vs| && 0 <= i ==> LockAfter(locked, vs, i) == l
  }

  lemma SixthMeans(locked: bool, vs: seq<int>, l: bool)
    ensures Sixth(locked, vs, l) <==> StoodForSix(locked, vs, l) && if l then SixFar(vs) else SixClose(vs)
  {
    var n := |vs|;
    if Sixth(locked, vs, l) {
      assert Against(locked, vs, l, n - 6);
      forall i | n - 6 <= i < n ensures LockAfter(locked, vs, i) == l && Contrary(l, vs[i]) {
        assert Against(locked, vs, l, i);
      }
    } else if StoodForSix(locked, vs, l) && if l then SixFar(vs) else SixClose(vs) {
      forall i | n - 6 <= i < n ensures Against(locked, vs, l, i) {
        assert LockAfter(locked, vs, i) == l;
      }
    }
  }

  /**
   In every run a sample gains the lock exactly when it and the five compared before it, none of which found a lock,
   were close to the average, and loses it exactly when all of six that found one were far.
   */
  lemma LockedBySixClose(s: SyncState, run: seq<Input>, x: Sample)
    requires s.count == 0
    ensures var before, vs, l := After(s, run), Variations(s, run + [Sampled(x)]), LockBefore(s, run);
            var gains := !before.locked && Adjusted(before, x).locked;
            var loses := before.locked && !Adjusted(before, x).locked;
            && (gains <==> !before.locked && Compares(before, Sampled(x)) && StoodForSix(l, vs, false) && SixClose(vs))
            && (loses <==> before.locked && Compares(before, Sampled(x)) && StoodForSix(l, vs, true) && SixFar(vs))
  {
    LockFlipsExactlyWhen(s, run, x);
    SixthMeans(LockBefore(s, run), Variations(s, run + [Sampled(x)]), After(s, run).locked);
  }

  /** A lock that has been confirmed `n` times in a row, or gained by then. */
  predicate Gaining(s: SyncState, n: nat) {
    if n >= 6 then s.locked && s.count == 0 else !s.locked && s.count == n
  }

  lemma CloseToAverage(average: int, raw: int, p: int, q: int)
    requires p > 0 && Abs(RateError(average, p, q)) <= 32 * p && Abs(RateError(raw, p, q)) <= p
    ensures Abs(raw - average) <= 33
  {
    MinusDistributes(p, raw, average);
    if raw - average > 33 {
      AtMost(p, 34, raw - average);
    } else if raw - average < -33 {
      AtMost(p, raw - average, -34);
    }
  }

  lemma OneMoreConfirmed(s: SyncState, x: Sample, n: nat)
    requires Usable(s, x) && s.adjustValid && Abs(Raw(s, x) - s.adjust) <= 33 && Gaining(s, n)
    ensures Gaining(Adjusted(s, x), n + 1)
  {
  }

  /**
   A clock at a steady rate gains the lock: from its first two syncs on the sixth more gains it, and nothing at that
   rate loses it again.
   */
  lemma {:induction false} SteadyRateLocks(s: SyncState, y: Sync, ys: seq<Sync>, p: int, q: int)
    requires p > 0 && q > 0 && s.adjustValid && SawLast(s, y) && Steady(y, ys, p, q)
    requires !s.locked && s.count == 0 && Abs(RateError(s.adjust, p, q)) <= 32 * p
    ensures Gaining(AfterSyncs(s, ys), |ys|)
  {
    if ys == [] {
    } else {
      var shorter, z := ys[..|ys| - 1], ys[|ys| - 1];
      SteadyRateLocks(s, y, shorter, p, q);
      SteadyRateIsFound(s, y, shorter, p, q);
      var u := AfterSyncs(s, shorter);
      SettledStays(Abs(RateError(u.adjust, p, q)), Abs(RateError(s.adjust, p, q)), p, |shorter|);
      var last := LastOf(y, shorter);
      RawIsTheRate(u, last, z);
      ErrorAtRate(Raw(u, SampleOf(z)), MasterTime(last, z), LocalTime(last, z), p, q);
      CloseToAverage(u.adjust, Raw(u, SampleOf(z)), p, q);
      OneMoreConfirmed(u, SampleOf(z), |shorter|);
    }
  }

  // ---------- what a new role forgets ----------

  /** The parts of the estimates that anything is computed from. */
  predicate Alike(s: SyncState, t: SyncState) {
    && s.prevValid == t.prevValid && (s.prevValid ==> s.prevMaster == t.prevMaster && s.prevLocal == t.prevLocal)
    && s.adjustValid == t.adjustValid && s.adjust == t.adjust && s.invAdjust == t.invAdjust
    && s.locked == t.locked && s.count == t.count
    && s.delayValid == t.delayValid && (s.delayValid ==> s.delay == t.delay)
  }

  lemma AlikeStays(s: SyncState, t: SyncState, i: Input)
    requires Alike(s, t)
    ensures Alike(Next(s, i), Next(t, i))
  {
  }

  lemma {:induction false} AlikeInEveryRun(s: SyncState, t: SyncState, run: seq<Input>)
    requires Alike(s, t)
    ensures Alike(After(s, run), After(t, run))
  {
    if run == [] {
    } else {
      AlikeInEveryRun(s, t, run[..|run| - 1]);
      AlikeStays(After(s, run[..|run| - 1]), After(t, run[..|run| - 1]), run[|run| - 1]);
    }
  }

  /**
   Becoming a slave forgets the master before: whatever was measured until then, every run that follows leaves the same
   rates, lock and delay. In particular no rate is ever measured from a sync of one master to a sync of another.
   */
  lemma SlaveStartsAfresh(s: SyncState, t: SyncState, run: seq<Input>)
    requires s.adjustValid == t.adjustValid
    ensures Alike(After(AsSlave(s), run), After(AsSlave(t), run))
    ensures !AsSlave(s).delayValid && !AsSlave(s).prevValid && !AsSlave(s).locked
  {
    AlikeInEveryRun(AsSlave(s), AsSlave(t), run);
  }

  /** So does a sync without a difference to the one before: the next one is compared with nothing. */
  lemma UselessSyncStartsAfresh(s: SyncState, x: Sample, y: Sample)
    requires s.prevValid && !Usable(s, x)
    ensures var t := Adjusted(Adjusted(s, x), y);
            t.adjust == s.adjust && t.locked == s.locked && t.prevValid && t.prevMaster == y.master
  {
  }

  /** A master's own time is PTP time: nothing is corrected. */
  lemma MasterCorrectsNothing(s: SyncState, ticks: uint32)
    ensures LocalToPtpInterval(AsMaster(s), ticks) == 10 * ticks
  {
    NothingCorrected(ticks * 10);
  }

  // ---------- the path delay ----------

  /**
   On a link that takes `delay` each way, with the other end waiting `wait` of its time and the clocks at `p` to `q`,
   the delay is measured to half the slack of the conversion, and half a nanosecond of rounding.
   */
  lemma MeasuredDelayIsReal(s: SyncState, delay: nat, wait: nat, ticks: uint32, p: int, q: int, units: nat)
    requires p > 0 && q > 0 && SameInterval(2 * delay + wait, 10 * ticks, p, q)
    requires s.adjustValid && Abs(RateError(s.adjust, p, q)) <= units * p && Moderate(s.adjust)
    requires ticks < TWO_TO_31
    ensures p * q * K * (2 * Abs(MeasuredDelay(s, wait, ticks) - delay)) <= Slack(10 * ticks, p, q, units) + p * q * K
  {
    CorrectedIsReal(10 * ticks, 2 * delay + wait, s.adjust, p, q, units);
    ConvertedInterval(s, ticks);
    var y := LocalToPtpInterval(s, ticks);
    Halved(y, wait, delay);
    ProductPositive(p, q);
    AtMost(p * q * K, 2 * Abs(MeasuredDelay(s, wait, ticks) - delay), Abs(y - (2 * delay + wait)) + 1);
    Distributes(p * q * K, Abs(y - (2 * delay + wait)), 1);
  }

  lemma Halved(y: int, wait: nat, delay: nat)
    ensures var half := TruncDiv(y - wait, 2);
            2 * Abs((if half < 0 then 0 else half) - delay) <= Abs(y - (2 * delay + wait)) + 1
  {
  }

  /** The delay after a number of measurements. */
  function AfterDelays(s: SyncState, measured: seq<int>): SyncState {
    if measured == [] then s else WithDelay(AfterDelays(s, measured[..|measured| - 1]), measured[|measured| - 1])
  }

  predicate AllWithin(measured: seq<int>, lo: int, hi: int) {
    forall i :: 0 <= i < |measured| ==> lo <= measured[i] <= hi
  }

  lemma DelayShrinks(s: SyncState, d: int, lo: int, hi: int)
    requires s.delayValid && 0 <= lo <= d <= hi < TWO_TO_32 / WEIGHT && s.delay < TWO_TO_32 / WEIGHT
    ensures var t := WithDelay(s, d);
            && t.delayValid && t.delay < TWO_TO_32 / WEIGHT
            && 32 * (t.delay - hi) <= 31 * (s.delay - hi) && 32 * (lo - t.delay - 31) <= 31 * (lo - s.delay - 31)
  {
    SignedFits(d);
    var sum := s.delay * (WEIGHT - 1) + d;
    assert Wrap32(sum) == sum;
  }

  lemma ShrinksOn(e: int, f: int, first: int, a: nat, b: nat)
    requires 32 * f <= 31 * e && a * e <= b * first
    ensures 32 * a * f <= 31 * b * first
  {
    AtMost(a, 32 * f, 31 * e);
    assert 32 * a * f == a * (32 * f);
    assert 31 * (a * e) <= 31 * (b * first);
    assert 31 * b * first == 31 * (b * first);
  }

  /**
   The averaged delay closes in on the measured ones: as long as these stay between two bounds, all that it is above the
   upper one, or more than 31 below the lower one, is down to 31/32 with every measurement.
   */
  lemma {:induction false} DelaySettles(s: SyncState, measured: seq<int>, lo: int, hi: int)
    requires s.delayValid && s.delay < TWO_TO_32 / WEIGHT
    requires 0 <= lo <= hi < TWO_TO_32 / WEIGHT && AllWithin(measured, lo, hi)
    ensures var t, n := AfterDelays(s, measured), |measured|;
            && t.delayValid && t.delay < TWO_TO_32 / WEIGHT
            && Power(32, n) * (t.delay - hi) <= Power(31, n) * (s.delay - hi)
            && Power(32, n) * (lo - t.delay - 31) <= Power(31, n) * (lo - s.delay - 31)
  {
    if measured == [] {
    } else {
      var shorter, d, n := measured[..|measured| - 1], measured[|measured| - 1], |measured| - 1;
      DelaySettles(s, shorter, lo, hi);
      var u := AfterDelays(s, shorter);
      var t := WithDelay(u, d);
      DelayShrinks(u, d, lo, hi);
      ShrinksOn(u.delay - hi, t.delay - hi, s.delay - hi, Power(32, n), Power(31, n));
      ShrinksOn(lo - u.delay - 31, lo - t.delay - 31, lo - s.delay - 31, Power(32, n), Power(31, n));
    }
  }
}
