/**
 The rate and delay estimates of a gPTP endpoint, kept up to date from sync and path delay messages
 (module_gptp/src/gptp.c).
 */
module GptpSync {
  import opened Bytes
  import opened GptpTime

  const WEIGHT: int := 32
  const ACCEPTABLE_VARIATION: int := 0x10_0000
  const STABILITY_COUNT: int := 5

  /** The globals `update_adjust` and `update_path_delay` work on. */
  datatype SyncState = SyncState(
    prevValid: bool, prevMaster: PtpTimestamp, prevLocal: uint32,
    adjustValid: bool, adjust: int32, invAdjust: int32,
    locked: bool, count: int,
    delayValid: bool, delay: uint32)

  datatype Sample = Sample(master: PtpTimestamp, local: uint32)

  // ---------- what the updates amount to ----------

  /** The weighted average, with C's division. */
  function Averaged(average: int, raw: int): int32 {
    Signed32(TruncDiv(average * (WEIGHT - 1) + raw, WEIGHT))
  }

  /** A sample that speaks against the present state of the lock. */
  predicate Contrary(locked: bool, variation: int) {
    if locked then variation > ACCEPTABLE_VARIATION else variation < ACCEPTABLE_VARIATION
  }

  function LockStep(locked: bool, count: int, variation: int): (bool, int) {
    if !Contrary(locked, variation) then (locked, 0)
    else if count + 1 > STABILITY_COUNT then (!locked, 0)
    else (locked, count + 1)
  }

  function MasterDiff(s: SyncState, x: Sample): int {
    Diff(x.master, s.prevMaster)
  }

  function LocalDiff(s: SyncState, x: Sample): int {
    Signed32(x.local - s.prevLocal) * 10
  }

  /** Whether a sample yields a pair of raw adjustments. */
  predicate Usable(s: SyncState, x: Sample) {
    s.prevValid && MasterDiff(s, x) != 0 && LocalDiff(s, x) != 0
  }

  function Raw(s: SyncState, x: Sample): int
    requires Usable(s, x)
  {
    RawAdjust(MasterDiff(s, x), LocalDiff(s, x))
  }

  function RawInverse(s: SyncState, x: Sample): int
    requires Usable(s, x)
  {
    RawAdjust(LocalDiff(s, x), MasterDiff(s, x))
  }

  function Variation(s: SyncState, x: Sample): int
    requires Usable(s, x)
  {
    Abs(Raw(s, x) - s.adjust)
  }

  /** The lock and the averages, given a raw pair. */
  function WithRaw(s: SyncState, raw: int, inverse: int): SyncState {
    if !s.adjustValid then s.(adjust := Signed32(raw), invAdjust := Signed32(inverse), adjustValid := true)
    else
      var (locked, count) := LockStep(s.locked, s.count, Abs(raw - s.adjust));
      s.(locked := locked, count := count, adjust := Averaged(s.adjust, raw),
         invAdjust := Averaged(s.invAdjust, inverse))
  }

  function Adjusted(s: SyncState, x: Sample): SyncState {
    if s.prevValid && !Usable(s, x) then s.(prevValid := false)
    else
      (if s.prevValid then WithRaw(s, Raw(s, x), RawInverse(s, x)) else s).
      (prevValid := true, prevMaster := x.master, prevLocal := x.local)
  }

  /** What a new role does to the estimates: as a slave the averages stay valid, and restart from zero. */
  function AsSlave(s: SyncState): SyncState {
    s.(delayValid := false, adjust := 0, invAdjust := 0, prevValid := false, locked := false, count := 0)
  }

  function AsMaster(s: SyncState): SyncState {
    s.(adjust := 0, invAdjust := 0)
  }

  /** `local_time_to_ptp_time`: the interval is an `unsigned` of local ticks. */
  function LocalToPtpInterval(s: SyncState, ticks: uint32): int {
    if s.adjustValid then Corrected(ticks * 10, s.adjust) else ticks * 10
  }

  /** Half of what the round trip took beyond the time at the other end, and never negative. */
  function MeasuredDelay(s: SyncState, masterTime: int, ticks: uint32): nat {
    var delay := TruncDiv(LocalToPtpInterval(s, ticks) - masterTime, 2);
    if delay < 0 then 0 else delay
  }

  function WithDelay(s: SyncState, delay: int): SyncState {
    s.(delayValid := true,
       delay := if s.delayValid then Wrap32(s.delay * (WEIGHT - 1) + Signed32(delay)) / WEIGHT else Wrap32(delay))
  }

  // ---------- the globals ----------

  class SyncClock {
    var prevAdjustValid: bool
    var prevAdjustMasterTs: PtpTimestamp
    var prevAdjustLocalTs: uint32
    var adjustValid: bool
    var ptpAdjust: int32
    var invPtpAdjust: int32
    var syncLock: bool
    var syncCount: int
    var pathDelayValid: bool
    var pathDelay: uint32

    function Current(): SyncState
      reads this
    {
      SyncState(prevAdjustValid, prevAdjustMasterTs, prevAdjustLocalTs, adjustValid, ptpAdjust, invPtpAdjust,
                syncLock, syncCount, pathDelayValid, pathDelay)
    }

    /** The zeroed globals the program starts with. */
    constructor ()
      ensures Current() == SyncState(false, PtpTimestamp(0, 0), 0, false, 0, 0, false, 0, false, 0)
    {
      prevAdjustValid, prevAdjustMasterTs, prevAdjustLocalTs := false, PtpTimestamp(0, 0), 0;
      adjustValid, ptpAdjust, invPtpAdjust := false, 0, 0;
      syncLock, syncCount, pathDelayValid, pathDelay := false, 0, false, 0;
    }

    /** The part of `set_new_role` for a slave. */
    method ResetForSlave()
      modifies this
      ensures Current() == AsSlave(old(Current()))
    {
      pathDelayValid := false;
      ptpAdjust := 0;
      invPtpAdjust := 0;
      prevAdjustValid := false;
      syncLock := false;
      syncCount := 0;
    }

    /** The part of `set_new_role` for a master. */
    method ResetForMaster()
      modifies this
      ensures Current() == AsMaster(old(Current()))
    {
      ptpAdjust := 0;
      invPtpAdjust := 0;
    }

    method UpdateLock(diff: int)
      modifies this`syncLock, this`syncCount
      ensures (syncLock, syncCount) == LockStep(old(syncLock), old(syncCount), diff)
    {
      if !syncLock {
        if diff < ACCEPTABLE_VARIATION {
          syncCount := syncCount + 1;
          if syncCount > STABILITY_COUNT {
            syncLock := true;
            syncCount := 0;
          }
        } else {
          syncCount := 0;
        }
      } else {
        if diff > ACCEPTABLE_VARIATION {
          syncCount := syncCount + 1;
          if syncCount > STABILITY_COUNT {
            syncLock := false;
            syncCount := 0;
          }
        } else {
          syncCount := 0;
        }
      }
    }

    method Average(adjust: int, invAdjust: int)
      modifies this
      ensures Current() == WithRaw(old(Current()), adjust, invAdjust)
    {
      if adjustValid {
        var diff := adjust - ptpAdjust;
        if diff < 0 { diff := -diff; }
        UpdateLock(diff);
        ptpAdjust := Signed32(TruncDiv(ptpAdjust * (WEIGHT - 1) + adjust, WEIGHT));
        invPtpAdjust := Signed32(TruncDiv(invPtpAdjust * (WEIGHT - 1) + invAdjust, WEIGHT));
      } else {
        ptpAdjust := Signed32(adjust);
        invPtpAdjust := Signed32(invAdjust);
        adjustValid := true;
      }
    }

    /** `update_adjust`. */
    method UpdateAdjust(master: PtpTimestamp, local: uint32)
      modifies this
      ensures Current() == Adjusted(old(Current()), Sample(master, local))
    {
      if prevAdjustValid {
        var masterDiff := Diff(master, prevAdjustMasterTs);
        var localDiff := Signed32(local - prevAdjustLocalTs) * 10;
        if masterDiff == 0 || localDiff == 0 {
          prevAdjustValid := false;
          return;
        }
        var adjust := RawAdjust(masterDiff, localDiff);
        var invAdjust := RawAdjust(localDiff, masterDiff);
        Average(adjust, invAdjust);
      }
      prevAdjustLocalTs := local;
      prevAdjustMasterTs := master;
      prevAdjustValid := true;
    }

    /** The end of `update_path_delay`. */
    method AverageDelay(delay: int)
      modifies this`pathDelay, this`pathDelayValid
      ensures Current() == WithDelay(old(Current()), delay)
    {
      if pathDelayValid {
        pathDelay := Wrap32(pathDelay * (WEIGHT - 1) + Signed32(delay)) / WEIGHT;
      } else {
        pathDelay := Wrap32(delay);
        pathDelayValid := true;
      }
    }

    /** `update_path_delay`. */
    method UpdatePathDelay(masterIngress: PtpTimestamp, masterEgress: PtpTimestamp, localEgress: uint32,
                           localIngress: uint32)
      modifies this`pathDelay, this`pathDelayValid
      ensures Current() == WithDelay(old(Current()), MeasuredDelay(old(Current()), Diff(masterEgress, masterIngress),
                                                                   Wrap32(localIngress - localEgress)))
    {
      var masterDiff := Diff(masterEgress, masterIngress);
      var localDiff := LocalToPtpInterval(Current(), Wrap32(localIngress - localEgress));
      var delay := TruncDiv(localDiff - masterDiff, 2);
      if delay < 0 { delay := 0; }
      AverageDelay(delay);
    }
  }

  // ---------- the lock over runs ----------

  /** Lock and counter after a run of variations, from a fresh counter. */
  function Locks(locked: bool, run: seq<int>): (bool, int) {
    if run == [] then (locked, 0)
    else
      var (l, c) := Locks(locked, run[..|run| - 1]);
      LockStep(l, c, run[|run| - 1])
  }

  function LockAfter(locked: bool, run: seq<int>, i: nat): bool
    requires i <= |run|
  {
    Locks(locked, run[..i]).0
  }

  /** The lock stood at `l` before sample `i`, which spoke against it. */
  predicate Against(locked: bool, run: seq<int>, l: bool, i: int) {
    0 <= i < |run| && LockAfter(locked, run, i) == l && Contrary(l, run[i])
  }

  lemma AgainstPrefix(locked: bool, run: seq<int>, l: bool, i: int)
    requires run != []
    ensures i < |run| - 1 ==> (Against(locked, run, l, i) <==> Against(locked, run[..|run| - 1], l, i))
  {
    if 0 <= i < |run| - 1 {
      assert run[..i] == run[..|run| - 1][..i];
    }
  }

  /** The counter is the length of the present streak: that many samples at the end, and no more. */
  lemma {:induction false} CountIsStreak(locked: bool, run: seq<int>)
    ensures var (l, c) := Locks(locked, run);
            && 0 <= c <= STABILITY_COUNT && c <= |run|
            && (forall i :: |run| - c <= i < |run| ==> Against(locked, run, l, i))
            && !Against(locked, run, l, |run| - c - 1)
  {
    if run == [] {
    } else {
      var n, shorter := |run|, run[..|run| - 1];
      CountIsStreak(locked, shorter);
      var (l, c) := Locks(locked, run);
      forall i | n - c <= i < n ensures Against(locked, run, l, i) {
        AgainstPrefix(locked, run, l, i);
      }
      AgainstPrefix(locked, run, l, n - c - 1);
    }
  }

  lemma StreakOfPrefix(locked: bool, run: seq<int>, shorter: seq<int>, l: bool, c: int)
    requires run != [] && shorter == run[..|run| - 1] && 0 <= c <= STABILITY_COUNT
    requires forall i :: |shorter| - c <= i < |shorter| ==> Against(locked, shorter, l, i)
    requires !Against(locked, shorter, l, |shorter| - c - 1)
    ensures c == STABILITY_COUNT && Against(locked, run, l, |run| - 1) <==>
            forall i :: |run| - STABILITY_COUNT - 1 <= i < |run| ==> Against(locked, run, l, i)
  {
    var n := |shorter|;
    forall i | n - c <= i < n ensures Against(locked, run, l, i) {
      AgainstPrefix(locked, run, l, i);
    }
    AgainstPrefix(locked, run, l, n - c - 1);
    assert !Against(locked, run, l, n - c - 1);
  }

  lemma LastStep(locked: bool, run: seq<int>, shorter: seq<int>)
    requires run != [] && shorter == run[..|run| - 1]
    ensures var (before, c) := Locks(locked, shorter);
            LockAfter(locked, run, |run| - 1) == before
            && (0 <= c <= STABILITY_COUNT ==>
                (Locks(locked, run).0 != before <==> c == STABILITY_COUNT && Against(locked, run, before, |run| - 1)))
  {
    LocksExtend(locked, shorter, run[|run| - 1]);
    assert run == shorter + [run[|run| - 1]];
  }

  /** The lock flips at a sample exactly when it is the sixth in a row against a lock that stood all along. */
  lemma FlipsExactlyOnSixth(locked: bool, run: seq<int>)
    requires run != []
    ensures var n := |run|;
            var before := LockAfter(locked, run, n - 1);
            Locks(locked, run).0 != before <==>
            forall i :: n - STABILITY_COUNT - 1 <= i < n ==> Against(locked, run, before, i)
  {
    var shorter := run[..|run| - 1];
    CountIsStreak(locked, shorter);
    var (before, c) := Locks(locked, shorter);
    LastStep(locked, run, shorter);
    StreakOfPrefix(locked, run, shorter, before, c);
  }

  /** What happens to the estimates: a sample, or a new role. */
  datatype Input = Sampled(x: Sample) | BecameSlave | BecameMaster

  function Next(s: SyncState, i: Input): SyncState {
    match i
    case Sampled(x) => Adjusted(s, x)
    case BecameSlave => AsSlave(s)
    case BecameMaster => AsMaster(s)
  }

  function After(s: SyncState, run: seq<Input>): SyncState {
    if run == [] then s else Next(After(s, run[..|run| - 1]), run[|run| - 1])
  }

  /** The sample is compared with a valid average. */
  predicate Compares(s: SyncState, i: Input) {
    i.Sampled? && s.adjustValid && Usable(s, i.x)
  }

  /** The variations of the samples that are compared, since the endpoint last became a slave. */
  function Variations(s: SyncState, run: seq<Input>): seq<int> {
    if run == [] then []
    else
      var before, i := After(s, run[..|run| - 1]), run[|run| - 1];
      if i.BecameSlave? then []
      else Variations(s, run[..|run| - 1]) + if Compares(before, i) then [Variation(before, i.x)] else []
  }

  /** The lock that they start from: none, once the endpoint has become a slave. */
  function LockBefore(s: SyncState, run: seq<Input>): bool {
    s.locked && BecameSlave !in run
  }

  lemma LockFollowsOne(s: SyncState, i: Input)
    requires !i.BecameSlave?
    ensures var t := Next(s, i);
            (t.locked, t.count) == if Compares(s, i) then LockStep(s.locked, s.count, Variation(s, i.x))
                                   else (s.locked, s.count)
  {
  }

  lemma LocksExtend(locked: bool, run: seq<int>, v: int)
    ensures Locks(locked, run + [v]) == var (l, c) := Locks(locked, run); LockStep(l, c, v)
  {
    assert (run + [v])[..|run|] == run;
  }

  /**
   In every run of samples and changes of role the lock and its counter are a matter of the variations compared since
   the endpoint last became a slave, and of nothing else.
   */
  lemma {:induction false} LockFollowsVariations(s: SyncState, run: seq<Input>)
    requires s.count == 0
    ensures (After(s, run).locked, After(s, run).count) == Locks(LockBefore(s, run), Variations(s, run))
  {
    if run == [] {
    } else {
      var shorter, i := run[..|run| - 1], run[|run| - 1];
      LockFollowsVariations(s, shorter);
      assert BecameSlave in run <==> BecameSlave in shorter || i.BecameSlave?;
      if !i.BecameSlave? {
        var before := After(s, shorter);
        LockFollowsOne(before, i);
        if Compares(before, i) {
          LocksExtend(LockBefore(s, shorter), Variations(s, shorter), Variation(before, i.x));
        } else {
          assert Variations(s, run) == Variations(s, shorter);
        }
      }
    }
  }

  /** The last variation flips the lock: it is the sixth in a row against one that stood all along. */
  predicate Sixth(locked: bool, vs: seq<int>, stood: bool) {
    forall i :: |vs| - STABILITY_COUNT - 1 <= i < |vs| ==> Against(locked, vs, stood, i)
  }

  lemma FlipsOnSixth(locked: bool, vs: seq<int>, v: int)
    ensures var (l, c) := Locks(locked, vs); LockStep(l, c, v).0 != l <==> Sixth(locked, vs + [v], l)
  {
    LocksExtend(locked, vs, v);
    FlipsExactlyOnSixth(locked, vs + [v]);
    assert (vs + [v])[..|vs|] == vs;
  }

  lemma VariationsSnoc(s: SyncState, run: seq<Input>, x: Sample)
    ensures Compares(After(s, run), Sampled(x))
            ==> Variations(s, run + [Sampled(x)]) == Variations(s, run) + [Variation(After(s, run), x)]
  {
    assert (run + [Sampled(x)])[..|run|] == run;
  }

  /**
   So in every run a sample flips the lock exactly when it is compared and is the sixth in a row to speak against a lock
   that stood all along, since the endpoint last became a slave.
   */
  lemma LockFlipsExactlyWhen(s: SyncState, run: seq<Input>, x: Sample)
    requires s.count == 0
    ensures var before := After(s, run);
            Adjusted(before, x).locked != before.locked <==>
            Compares(before, Sampled(x)) && Sixth(LockBefore(s, run), Variations(s, run + [Sampled(x)]), before.locked)
  {
    var before := After(s, run);
    LockFollowsVariations(s, run);
    LockFollowsOne(before, Sampled(x));
    VariationsSnoc(s, run, x);
    if Compares(before, Sampled(x)) {
      FlipsOnSixth(LockBefore(s, run), Variations(s, run), Variation(before, x));
    }
  }

  // ---------- the averages over runs ----------

  /** The two averages, told apart by `inverse`. */
  function AverageOf(s: SyncState, inverse: bool): int {
    if inverse then s.invAdjust else s.adjust
  }

  function RawOf(s: SyncState, x: Sample, inverse: bool): int
    requires Usable(s, x)
  {
    if inverse then RawInverse(s, x) else Raw(s, x)
  }

  /** The raw values a run uses for one of the averages lie between two bounds. */
  predicate RawsWithin(s: SyncState, run: seq<Input>, inverse: bool, lo: int, hi: int) {
    run == [] ||
    var before, i := After(s, run[..|run| - 1]), run[|run| - 1];
    RawsWithin(s, run[..|run| - 1], inverse, lo, hi)
    && (i.Sampled? && Usable(before, i.x) ==> lo <= RawOf(before, i.x, inverse) <= hi)
  }

  lemma AverageWithin(average: int, raw: int, lo: int, hi: int)
    requires -TWO_TO_31 <= lo <= 0 <= hi < TWO_TO_31
    requires lo <= average <= hi && lo <= raw <= hi
    ensures lo <= Averaged(average, raw) <= hi
  {
    var sum := average * (WEIGHT - 1) + raw;
    assert lo <= TruncDiv(sum, WEIGHT) <= hi;
  }

  /** A usable sample takes each average on by its own raw value. */
  lemma AveragesAfterSample(s: SyncState, x: Sample, inverse: bool)
    requires Usable(s, x)
    ensures AverageOf(Adjusted(s, x), inverse)
            == if s.adjustValid then Averaged(AverageOf(s, inverse), RawOf(s, x, inverse))
               else Signed32(RawOf(s, x, inverse))
  {
  }

  lemma NextWithin(s: SyncState, i: Input, inverse: bool, lo: int, hi: int)
    requires -TWO_TO_31 <= lo <= 0 <= hi < TWO_TO_31 && lo <= AverageOf(s, inverse) <= hi
    requires i.Sampled? && Usable(s, i.x) ==> lo <= RawOf(s, i.x, inverse) <= hi
    ensures lo <= AverageOf(Next(s, i), inverse) <= hi
  {
    if i.Sampled? && Usable(s, i.x) {
      var raw := RawOf(s, i.x, inverse);
      AveragesAfterSample(s, i.x, inverse);
      AverageWithin(AverageOf(s, inverse), raw, lo, hi);
      SignedWithin(raw, lo, hi);
    }
  }

  lemma SignedWithin(x: int, lo: int, hi: int)
    requires -TWO_TO_31 <= lo <= x <= hi < TWO_TO_31
    ensures Signed32(x) == x
  {
  }

  /**
   Over every run of samples and changes of role, each average stays in the hull of zero, of what it started from and of
   its own raw values: with raw values of one sign it keeps that sign.
   */
  lemma {:induction false} AveragesStayInHull(s: SyncState, run: seq<Input>, inverse: bool, lo: int, hi: int)
    requires -TWO_TO_31 <= lo <= 0 <= hi < TWO_TO_31
    requires lo <= AverageOf(s, inverse) <= hi && RawsWithin(s, run, inverse, lo, hi)
    ensures lo <= AverageOf(After(s, run), inverse) <= hi
  {
    if run == [] {
    } else {
      AveragesStayInHull(s, run[..|run| - 1], inverse, lo, hi);
      NextWithin(After(s, run[..|run| - 1]), run[|run| - 1], inverse, lo, hi);
    }
  }

  /**
   Truncation leaves the average short of the raw adjustment: a steady positive raw value draws it up until it is
   31 units below, and there it rests.
   */
  lemma AverageRestsShort(average: int, raw: int)
    requires 0 <= average <= raw < TWO_TO_31
    ensures average <= Averaged(average, raw) <= raw
    ensures Averaged(average, raw) == average <==> raw - average < WEIGHT
  {
    AverageWithin(average, raw, 0, raw);
  }

  // ---------- the path delay ----------

  /**
   On a link that takes `delay` each way, with the other end waiting `wait` and the clocks at one rate, the delay
   is measured exactly.
   */
  lemma SymmetricDelayIsExact(s: SyncState, delay: nat, wait: nat, ticks: uint32)
    requires s.adjustValid ==> s.adjust == 0
    requires 10 * ticks == 2 * delay + wait
    ensures MeasuredDelay(s, wait, ticks) == delay
  {
    assert Signed64(ticks * 10 * 0) == 0;
    assert LocalToPtpInterval(s, ticks) == 10 * ticks;
  }

  /** The averaged delay stays between the old one and the measured one, as long as the sum fits in 32 bits. */
  lemma DelayWithin(s: SyncState, wait: int, ticks: uint32, lo: int, hi: int)
    requires 0 <= lo <= hi < TWO_TO_32 / WEIGHT
    requires lo <= MeasuredDelay(s, wait, ticks) <= hi && (s.delayValid ==> lo <= s.delay <= hi)
    ensures lo <= WithDelay(s, MeasuredDelay(s, wait, ticks)).delay <= hi
  {
    var d := MeasuredDelay(s, wait, ticks);
    assert Signed32(d) == d;
    if s.delayValid {
      var sum := s.delay * (WEIGHT - 1) + d;
      assert Wrap32(sum) == sum;
      assert lo * WEIGHT <= sum <= hi * WEIGHT;
    }
  }
}
