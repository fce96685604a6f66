/**
 What the measured rate means: syncs given by the real times at the master and at the local clock, the adjustments that
 come out of them, and how well these convert between the two clocks (module_gptp/src/gptp.c).
 */
module GptpRate {
  import opened Bytes
  import opened GptpTime
  import opened GptpSync

  /** A sync: the master's time in nanoseconds and the local time in ticks of ten nanoseconds, without wrapping. */
  datatype Sync = Sync(master: nat, ticks: nat)

  function StampOf(ns: nat): PtpTimestamp {
    PtpTimestamp(ns / NANOSECONDS_PER_SECOND % TWO_TO_64, ns % NANOSECONDS_PER_SECOND)
  }

  function SampleOf(y: Sync): Sample {
    Sample(StampOf(y.master), Wrap32(y.ticks))
  }

  /** The nanoseconds that pass at the master. */
  function MasterTime(y: Sync, z: Sync): int {
    z.master - y.master
  }

  /** The nanoseconds that pass locally. */
  function LocalTime(y: Sync, z: Sync): int {
    10 * (z.ticks - y.ticks)
  }

  /** The later sync is later on both clocks, by times that differ by a factor of two at most and by 0.26 seconds. */
  predicate Measurable(y: Sync, z: Sync) {
    var m, l := MasterTime(y, z), LocalTime(y, z);
    && 0 < m < TWO_TO_63 && 0 < l < 10 * TWO_TO_31
    && Abs(m - l) < 0x1000_0000 && Abs(m - l) <= m && Abs(m - l) <= l
  }

  /** The sync that `s` saw last. */
  predicate SawLast(s: SyncState, y: Sync) {
    s.prevValid && s.prevMaster == StampOf(y.master) && s.prevLocal == Wrap32(y.ticks)
  }

  // ---------- what is measured ----------

  lemma StampDiff(a: nat, b: nat)
    requires -TWO_TO_63 <= a - b < TWO_TO_63
    ensures Diff(StampOf(a), StampOf(b)) == a - b
  {
    var sa, sb := a / NANOSECONDS_PER_SECOND, b / NANOSECONDS_PER_SECOND;
    var w := sa % TWO_TO_64 - sb % TWO_TO_64;
    var x, rest := Signed64(w), a % NANOSECONDS_PER_SECOND - b % NANOSECONDS_PER_SECOND;
    SecondsCongruent(sa, sb);
    Congruent(x, w, sa - sb);
    Scaled(x, sa - sb);
    var d := rest + x * NANOSECONDS_PER_SECOND;
    assert a == sa * NANOSECONDS_PER_SECOND + a % NANOSECONDS_PER_SECOND;
    assert b == sb * NANOSECONDS_PER_SECOND + b % NANOSECONDS_PER_SECOND;
    assert d - (a - b) == (x - (sa - sb)) * NANOSECONDS_PER_SECOND;
    Signed64Same(d, a - b);
  }

  lemma SecondsCongruent(x: int, y: int)
    ensures (x % TWO_TO_64 - y % TWO_TO_64 - (x - y)) % TWO_TO_64 == 0
  {
    var k := y / TWO_TO_64 - x / TWO_TO_64;
    assert x % TWO_TO_64 - y % TWO_TO_64 - (x - y) == k * TWO_TO_64;
    MultipleOf(k);
  }

  lemma TicksDiff(a: int, b: int)
    requires -TWO_TO_31 <= a - b < TWO_TO_31
    ensures Signed32(Wrap32(a) - Wrap32(b)) == a - b
  {
    OffsetBack(Wrap32(b), a - b);
    assert Wrap32(Wrap32(b) + (a - b)) == Wrap32(a);
  }

  lemma DifferencesAreReal(s: SyncState, y: Sync, z: Sync)
    requires SawLast(s, y) && Measurable(y, z)
    ensures MasterDiff(s, SampleOf(z)) == MasterTime(y, z) && LocalDiff(s, SampleOf(z)) == LocalTime(y, z)
    ensures Usable(s, SampleOf(z))
  {
    StampDiff(z.master, y.master);
    TicksDiff(z.ticks, y.ticks);
  }

  /** How far an adjustment is from the rate of `m` nanoseconds to `l`, times `m`, in units of an adjustment. */
  function RateError(adjust: int, m: int, l: int): int {
    m * adjust - K * (m - l)
  }

  /**
   The raw adjustment is how much faster the master runs, as a part of the master's time, and the inverse one how much
   faster the local clock runs, as a part of the local time; each is off by one unit at most.
   */
  lemma RawIsTheRate(s: SyncState, y: Sync, z: Sync)
    requires SawLast(s, y) && Measurable(y, z)
    ensures var m, l, x := MasterTime(y, z), LocalTime(y, z), SampleOf(z);
            && Usable(s, x)
            && Abs(RateError(Raw(s, x), m, l)) <= m && Abs(RateError(RawInverse(s, x), l, m)) <= l
            && -TWO_TO_31 <= Raw(s, x) < TWO_TO_31 && -TWO_TO_31 <= RawInverse(s, x) < TWO_TO_31
  {
    var m, l := MasterTime(y, z), LocalTime(y, z);
    DifferencesAreReal(s, y, z);
    RawAdjustError(m, l);
    RawAdjustError(l, m);
    FitsInWord(RawAdjust(m, l), m, l);
    FitsInWord(RawAdjust(l, m), l, m);
  }

  lemma FitsInWord(raw: int, m: int, l: int)
    requires m > 0 && Abs(m - l) <= m && Abs(RateError(raw, m, l)) <= m
    ensures -K - 1 <= raw <= K + 1
  {
    if raw > K + 1 {
      AtMost(m, K + 2, raw);
      AtMost(K, m - l, m);
    } else if raw < -K - 1 {
      AtMost(m, raw, -K - 2);
      AtMost(K, -m, m - l);
    }
  }

  /** The first two syncs set the adjustments to the rate that was measured, in the right direction. */
  lemma FirstRate(s: SyncState, y: Sync, z: Sync)
    requires SawLast(s, y) && Measurable(y, z) && !s.adjustValid
    ensures var m, l, t := MasterTime(y, z), LocalTime(y, z), Adjusted(s, SampleOf(z));
            && t.adjustValid && SawLast(t, z)
            && Abs(RateError(t.adjust, m, l)) <= m && Abs(RateError(t.invAdjust, l, m)) <= l
  {
    RawIsTheRate(s, y, z);
    SignedFits(Raw(s, SampleOf(z)));
    SignedFits(RawInverse(s, SampleOf(z)));
  }

  // ---------- a steady rate ----------

  /** `p` nanoseconds of the master to `q` local ones. */
  predicate AtRate(y: Sync, z: Sync, p: int, q: int) {
    MasterTime(y, z) * q == LocalTime(y, z) * p
  }

  function AfterSyncs(s: SyncState, ys: seq<Sync>): SyncState {
    if ys == [] then s else Adjusted(AfterSyncs(s, ys[..|ys| - 1]), SampleOf(ys[|ys| - 1]))
  }

  /** The syncs after `y` are measurable one after the other, all at one rate. */
  predicate Steady(y: Sync, ys: seq<Sync>, p: int, q: int) {
    ys == [] ||
    (Steady(y, ys[..|ys| - 1], p, q)
     && Measurable(LastOf(y, ys[..|ys| - 1]), ys[|ys| - 1]) && AtRate(LastOf(y, ys[..|ys| - 1]), ys[|ys| - 1], p, q))
  }

  function LastOf(y: Sync, ys: seq<Sync>): Sync {
    if ys == [] then y else ys[|ys| - 1]
  }

  function Power(b: nat, n: nat): nat {
    if n == 0 then 1 else b * Power(b, n - 1)
  }

  lemma ErrorAtRate(raw: int, m: int, l: int, p: int, q: int)
    requires m > 0 && p > 0 && m * q == l * p && Abs(RateError(raw, m, l)) <= m
    ensures Abs(RateError(raw, p, q)) <= p
  {
    var u, e := RateError(raw, m, l), RateError(raw, p, q);
    assert m * e == p * u by { SameError(raw, m, l, p, q); }
    if e > p {
      AtMost(m, p + 1, e);
      AtMost(p, u, m);
    } else if e < -p {
      AtMost(m, e, -p - 1);
      AtMost(p, -m, u);
    }
  }

  lemma SameError(raw: int, m: int, l: int, p: int, q: int)
    requires m * q == l * p
    ensures m * RateError(raw, p, q) == p * RateError(raw, m, l)
  {
    Swapped(m, p, raw);
    assert m * (p * raw) == p * (m * raw);
    assert m * (p - q) == p * (m - l) by {
      MinusDistributes(m, p, q);
      MinusDistributes(p, m, l);
    }
    assert m * (K * (p - q)) == K * (m * (p - q)) && p * (K * (m - l)) == K * (p * (m - l));
    MinusDistributes(m, p * raw, K * (p - q));
    MinusDistributes(p, m * raw, K * (m - l));
  }

  /** One more average: 31 parts of the error stay, and a unit is added. */
  lemma ErrorShrinks(average: int, raw: int, p: int, q: int)
    requires p > 0 && -TWO_TO_31 <= average < TWO_TO_31 && -TWO_TO_31 <= raw < TWO_TO_31
    requires Abs(RateError(raw, p, q)) <= p
    ensures var next := Averaged(average, raw);
            WEIGHT * Abs(RateError(next, p, q)) <= (WEIGHT - 1) * Abs(RateError(average, p, q)) + WEIGHT * p
  {
    var sum := average * (WEIGHT - 1) + raw;
    var next, cut := TruncDiv(sum, WEIGHT), sum - WEIGHT * TruncDiv(sum, WEIGHT);
    assert -31 <= cut <= 31;
    SignedFits(next);
    assert WEIGHT * next == 31 * average + raw - cut;
    assert WEIGHT * RateError(next, p, q) == 31 * RateError(average, p, q) + RateError(raw, p, q) - p * cut by {
      ErrorOfAverage(average, raw, next, cut, p, K * (p - q));
    }
    ProductBound(p, cut, p, 31);
  }

  lemma ErrorOfAverage(average: int, raw: int, next: int, cut: int, p: int, c: int)
    requires 32 * next == 31 * average + raw - cut
    ensures 32 * (p * next - c) == 31 * (p * average - c) + (p * raw - c) - p * cut
  {
    assert p * (32 * next) == p * (31 * average + raw - cut);
  }

  /** What is beyond 32 units shrinks by the factor 31/32. */
  lemma ExcessShrinks(e: int, f: int, first: int, p: int, a: nat, b: nat)
    requires 0 <= p && 32 * f <= 31 * e + 32 * p && a * (e - 32 * p) <= b * (first - 32 * p)
    ensures 32 * a * (f - 32 * p) <= 31 * b * (first - 32 * p)
  {
    AtMost(a, 32 * (f - 32 * p), 31 * (e - 32 * p));
    assert 32 * a * (f - 32 * p) == a * (32 * (f - 32 * p));
    assert 31 * (a * (e - 32 * p)) <= 31 * (b * (first - 32 * p));
  }

  lemma OneSteadySync(s: SyncState, y: Sync, z: Sync, p: int, q: int)
    requires p > 0 && q > 0 && s.adjustValid && SawLast(s, y) && Measurable(y, z) && AtRate(y, z, p, q)
    ensures var t := Adjusted(s, SampleOf(z));
            && t.adjustValid && SawLast(t, z)
            && 32 * Abs(RateError(t.adjust, p, q)) <= 31 * Abs(RateError(s.adjust, p, q)) + 32 * p
            && 32 * Abs(RateError(t.invAdjust, q, p)) <= 31 * Abs(RateError(s.invAdjust, q, p)) + 32 * q
  {
    var x, m, l := SampleOf(z), MasterTime(y, z), LocalTime(y, z);
    RawIsTheRate(s, y, z);
    ErrorAtRate(Raw(s, x), m, l, p, q);
    ErrorAtRate(RawInverse(s, x), l, m, q, p);
    ErrorShrinks(s.adjust, Raw(s, x), p, q);
    ErrorShrinks(s.invAdjust, RawInverse(s, x), q, p);
  }

  /** So much of the error is left after `n` averages. */
  predicate Settles(e: int, first: int, p: int, n: nat) {
    Power(32, n) * (e - 32 * p) <= Power(31, n) * (first - 32 * p)
  }

  lemma SettlesOn(e: int, f: int, first: int, p: int, n: nat)
    requires 0 <= p && 32 * f <= 31 * e + 32 * p && Settles(e, first, p, n)
    ensures Settles(f, first, p, n + 1)
  {
    ExcessShrinks(e, f, first, p, Power(32, n), Power(31, n));
  }

  /**
   At a steady rate both averages close in on it: whatever error they start from, all of it beyond 32 units is down to
   31/32 with every sync.
   */
  lemma {:induction false} SteadyRateIsFound(s: SyncState, y: Sync, ys: seq<Sync>, p: int, q: int)
    requires p > 0 && q > 0 && s.adjustValid && SawLast(s, y) && Steady(y, ys, p, q)
    ensures var t := AfterSyncs(s, ys);
            && t.adjustValid && SawLast(t, LastOf(y, ys))
            && Settles(Abs(RateError(t.adjust, p, q)), Abs(RateError(s.adjust, p, q)), p, |ys|)
            && Settles(Abs(RateError(t.invAdjust, q, p)), Abs(RateError(s.invAdjust, q, p)), q, |ys|)
  {
    if ys == [] {
    } else {
      var shorter, z := ys[..|ys| - 1], ys[|ys| - 1];
      SteadyRateIsFound(s, y, shorter, p, q);
      var u := AfterSyncs(s, shorter);
      var t := Adjusted(u, SampleOf(z));
      OneSteadySync(u, LastOf(y, shorter), z, p, q);
      SettlesOn(Abs(RateError(u.adjust, p, q)), Abs(RateError(t.adjust, p, q)), Abs(RateError(s.adjust, p, q)), p,
                |shorter|);
      SettlesOn(Abs(RateError(u.invAdjust, q, p)), Abs(RateError(t.invAdjust, q, p)),
                Abs(RateError(s.invAdjust, q, p)), q, |shorter|);
    }
  }

  lemma {:induction false} PowerPositive(b: nat, n: nat)
    requires b > 0
    ensures Power(b, n) > 0
  {
    if n == 0 {
    } else {
      PowerPositive(b, n - 1);
      Multiples(0, Power(b, n - 1), b);
    }
  }

  /** An error of 32 units at most never grows beyond that. */
  lemma SettledStays(e: int, first: int, p: int, n: nat)
    requires Settles(e, first, p, n) && first <= 32 * p
    ensures e <= 32 * p
  {
    PowerPositive(32, n);
    AtMost(Power(31, n), first - 32 * p, 0);
    if e > 32 * p {
      AtMost(Power(32, n), 1, e - 32 * p);
    }
  }

  /** So from its first two syncs on a clock at a steady rate knows the rate to 32 units, in both directions. */
  lemma SteadyFromTheFirst(s: SyncState, y: Sync, z: Sync, ys: seq<Sync>, p: int, q: int)
    requires p > 0 && q > 0 && !s.adjustValid && SawLast(s, y) && Measurable(y, z) && AtRate(y, z, p, q)
    requires Steady(z, ys, p, q)
    ensures var t := AfterSyncs(Adjusted(s, SampleOf(z)), ys);
            Abs(RateError(t.adjust, p, q)) <= 32 * p && Abs(RateError(t.invAdjust, q, p)) <= 32 * q
  {
    FirstRate(s, y, z);
    var u := Adjusted(s, SampleOf(z));
    ErrorAtRate(u.adjust, MasterTime(y, z), LocalTime(y, z), p, q);
    ErrorAtRate(u.invAdjust, LocalTime(y, z), MasterTime(y, z), q, p);
    SteadyRateIsFound(u, z, ys, p, q);
    var t := AfterSyncs(u, ys);
    SettledStays(Abs(RateError(t.adjust, p, q)), Abs(RateError(u.adjust, p, q)), p, |ys|);
    SettledStays(Abs(RateError(t.invAdjust, q, p)), Abs(RateError(u.invAdjust, q, p)), q, |ys|);
  }

  // ---------- what the rate is good for ----------

  /** The interval `e` on one clock is `d` on the other, at `p` to `q`. */
  predicate SameInterval(e: int, d: int, p: int, q: int) {
    e * q == d * p
  }

  /** How far a conversion is off, in parts of `p * q * K`: the second-order term, the error of the rate, rounding. */
  function Slack(d: int, p: int, q: int, units: int): int {
    K * (Abs(d) * ((p - q) * (p - q))) + p * q * (units * Abs(d) + K)
  }

  /**
   A corrected interval is the interval on the other clock, but for the second-order term, the error of the adjustment
   and less than one nanosecond of rounding.
   */
  lemma CorrectedIsReal(d: int, e: int, adjust: int, p: int, q: int, units: nat)
    requires p > 0 && q > 0 && SameInterval(e, d, p, q) && Abs(RateError(adjust, p, q)) <= units * p
    requires Moderate(adjust) && -10 * TWO_TO_31 <= d <= 10 * TWO_TO_31
    ensures p * q * K * Abs(Corrected(d, adjust) - e) <= Slack(d, p, q, units)
  {
    var y, u := Corrected(d, adjust), RateError(adjust, p, q);
    CorrectedBounds(d, adjust);
    var r := d * (K + adjust) - y * K;
    ConversionAlgebra(d, e, adjust, p, q, y, u, r);
    ConversionBound(p * q * K * (y - e), K * (d * ((p - q) * (p - q))), q * (d * u), p * q * r);
    RateTerm(d, u, p, q, units);
    SquareTerm(d, p - q);
    RoundingTerm(p, q, r);
    AbsScaled(p * q * K, y - e, p, q);
    assert Slack(d, p, q, units) == K * (Abs(d) * ((p - q) * (p - q))) + p * q * (units * Abs(d)) + p * q * K by {
      Distributes(p * q, units * Abs(d), K);
    }
  }

  lemma AbsScaled(c: int, x: int, p: int, q: int)
    requires p > 0 && q > 0 && c == p * q * K
    ensures Abs(c * x) == c * Abs(x)
  {
    ProductPositive(p, q);
    AbsProduct(c, x);
  }

  lemma ProductPositive(p: int, q: int)
    requires p > 0 && q > 0
    ensures p * q > 0
  {
    Multiples(0, p, q);
  }

  lemma SquareTerm(d: int, x: int)
    ensures Abs(d * (x * x)) == Abs(d) * (x * x)
  {
    AbsProduct(x, x);
    ProductMonotone(Abs(x), Abs(x), Abs(x), Abs(x));
    AbsProduct(d, x * x);
  }

  lemma RateTerm(d: int, u: int, p: int, q: int, units: nat)
    requires p > 0 && q > 0 && Abs(u) <= units * p
    ensures Abs(q * (d * u)) <= p * q * (units * Abs(d))
  {
    AbsProduct(d, u);
    AtMost(Abs(d), Abs(u), units * p);
    AbsProduct(q, d * u);
    AtMost(q, Abs(d) * Abs(u), Abs(d) * (units * p));
    assert q * (Abs(d) * (units * p)) == p * q * (units * Abs(d));
    AbsOfProduct(d, u);
  }

  lemma AbsOfProduct(x: int, y: int)
    ensures Abs(x * y) == Abs(x) * Abs(y)
  {
    AbsProduct(x, y);
    ProductMonotone(Abs(x), Abs(y), Abs(x), Abs(y));
  }

  lemma RoundingTerm(p: int, q: int, r: int)
    requires p > 0 && q > 0 && 0 <= r < K
    ensures 0 <= p * q * r <= p * q * K
  {
    ProductPositive(p, q);
    AtMost(p * q, r, K);
    AtMost(p * q, 0, r);
  }

  lemma ConversionBound(x: int, a: int, b: int, c: int)
    requires x == b - a - c
    ensures Abs(x) <= Abs(a) + Abs(b) + Abs(c)
  {
  }

  lemma Regrouped(p: int, q: int, d: int, a: int)
    ensures p * q * (d * a) == q * d * (p * a)
  {
  }

  lemma ScaledSum(c: int, x: int, u: int)
    ensures c * (K * x + u) == K * (c * x) + c * u
  {
  }

  lemma SecondOrderTerm(d: int, p: int, q: int)
    ensures q * d * (2 * p - q) == p * (d * p) - d * ((p - q) * (p - q))
  {
    assert q * (2 * p - q) == p * p - (p - q) * (p - q);
    assert q * d * (2 * p - q) == d * (q * (2 * p - q));
    MinusDistributes(d, p * p, (p - q) * (p - q));
  }

  lemma UnitsApart(p: int, q: int, y: int)
    ensures p * q * K * y == p * q * (y * K) && p * q * K * y == K * (p * (y * q))
  {
  }

  lemma ConversionAlgebra(d: int, e: int, adjust: int, p: int, q: int, y: int, u: int, r: int)
    requires e * q == d * p && u == p * adjust - K * (p - q) && r == d * (K + adjust) - y * K
    ensures p * q * K * (y - e) == q * (d * u) - K * (d * ((p - q) * (p - q))) - p * q * r
  {
    var x := 2 * p - q;
    assert p * (K + adjust) == K * x + u;
    UnitsApart(p, q, y);
    MinusDistributes(p * q, d * (K + adjust), r);
    Regrouped(p, q, d, K + adjust);
    ScaledSum(q * d, x, u);
    SecondOrderTerm(d, p, q);
    UnitsApart(p, q, e);
    MinusDistributes(p * q * K, y, e);
    Swapped(q, d, u);
  }

  lemma ConvertedInterval(t: SyncState, ticks: uint32)
    requires t.adjustValid
    ensures LocalToPtpInterval(t, ticks) == Corrected(10 * ticks, t.adjust)
  {
  }

  /** After the first two syncs the local time between them converts to the master's, up to the slack of one unit. */
  lemma FirstRateConverts(s: SyncState, y: Sync, z: Sync, t: SyncState)
    requires SawLast(s, y) && Measurable(y, z) && !s.adjustValid
    requires t == Adjusted(s, SampleOf(z)) && Moderate(t.adjust)
    ensures var m, l := MasterTime(y, z), LocalTime(y, z);
            m * l * K * Abs(LocalToPtpInterval(t, z.ticks - y.ticks) - m) <= Slack(l, m, l, 1)
  {
    FirstRate(s, y, z);
    var m, l := MasterTime(y, z), LocalTime(y, z);
    ConvertedInterval(t, z.ticks - y.ticks);
    CorrectedIsReal(l, m, t.adjust, m, l, 1);
  }

  // ---------- absolute times ----------

  /** The reference of a conversion: local ticks `ticks` are PTP time `ns`, of both of which the low words are kept. */
  predicate RefersTo(info: TimeInfo, ticks: int, ns: int) {
    info.localTs == Wrap32(ticks) && info.ptpLo == Wrap32(ns)
  }

  lemma WrapSum(x: int, y: int)
    ensures Wrap32(Wrap32(x) + y) == Wrap32(x + y)
  {
  }

  lemma WrapSigned(x: int, y: int)
    ensures Wrap32(x + Signed32(y)) == Wrap32(x + y)
  {
  }

  lemma WrapBoth(x: int, y: int)
    ensures Wrap32(Wrap32(x) + Signed32(y)) == Wrap32(x + y)
  {
    WrapSigned(Wrap32(x), y);
    WrapSum(x, y);
  }

  lemma ForwardFrom(info: TimeInfo, ticks: int, ns: int, d: int)
    requires RefersTo(info, ticks, ns) && -TWO_TO_31 <= d < TWO_TO_31
    ensures LocalToMod32(Wrap32(ticks + d), info) == Wrap32(ns + Image(d, info))
  {
    var t := Wrap32(ticks + d);
    assert Offset(t, info) == d by { TicksDiff(ticks + d, ticks); }
    Forward(t, info);
    WrapBoth(ns, Image(d, info));
  }

  lemma BackwardFrom(info: TimeInfo, ticks: int, ns: int, elapsed: int)
    requires RefersTo(info, ticks, ns) && -TWO_TO_31 <= elapsed < TWO_TO_31
    ensures Mod32ToLocal(Wrap32(ns + elapsed), info) == Wrap32(ticks + Ticks(elapsed, info))
  {
    assert Wrap32(ns + elapsed) == Wrap32(info.ptpLo + elapsed) by { WrapSum(ns, elapsed); }
    Backward(elapsed, info);
    SameSum(info.localTs, ticks, Ticks(elapsed, info), Mod32ToLocal(Wrap32(ns + elapsed), info));
  }

  lemma SameSum(low: uint32, x: int, g: int, sum: uint32)
    requires low == Wrap32(x) && sum == Wrap32(low + g)
    ensures sum == Wrap32(x + g)
  {
    WrapSum(x, g);
  }

  /**
   The PTP time that a local time converts to: `ticks` after the reference it is the `elapsed` nanoseconds that really
   went by at the master, up to the slack.
   */
  lemma LocalToPtpIsReal(info: TimeInfo, ticks: int, ns: int, d: int, elapsed: int, p: int, q: int, units: nat)
    returns (y: int)
    requires RefersTo(info, ticks, ns) && -TWO_TO_31 <= d < TWO_TO_31
    requires p > 0 && q > 0 && SameInterval(elapsed, 10 * d, p, q)
    requires Abs(RateError(info.adjust, p, q)) <= units * p && Moderate(info.adjust)
    ensures LocalToMod32(Wrap32(ticks + d), info) == Wrap32(ns + y)
    ensures p * q * K * Abs(y - elapsed) <= Slack(10 * d, p, q, units)
  {
    y := Image(d, info);
    ForwardFrom(info, ticks, ns, d);
    CorrectedIsReal(10 * d, elapsed, info.adjust, p, q, units);
  }

  /** And the local time that a PTP time converts to, up to the slack and nine tenths of a tick. */
  lemma PtpToLocalIsReal(info: TimeInfo, ticks: int, ns: int, d: int, elapsed: int, p: int, q: int, units: nat)
    returns (g: int)
    requires RefersTo(info, ticks, ns) && -TWO_TO_31 <= elapsed < TWO_TO_31
    requires p > 0 && q > 0 && SameInterval(10 * d, elapsed, q, p)
    requires Abs(RateError(info.invAdjust, q, p)) <= units * q && Moderate(info.invAdjust)
    ensures Mod32ToLocal(Wrap32(ns + elapsed), info) == Wrap32(ticks + g)
    ensures q * p * K * Abs(10 * (g - d)) <= Slack(elapsed, q, p, units) + 9 * (q * p * K)
  {
    g := Ticks(elapsed, info);
    BackwardFrom(info, ticks, ns, elapsed);
    CorrectedIsReal(elapsed, 10 * d, info.invAdjust, q, p, units);
    var f := Corrected(elapsed, info.invAdjust);
    assert -9 <= 10 * g - f <= 9;
    ProductPositive(q, p);
    AtMost(q * p * K, Abs(10 * (g - d)), Abs(f - 10 * d) + 9);
    Distributes(q * p * K, Abs(f - 10 * d), 9);
  }
}
