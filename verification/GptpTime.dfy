/**
 Conversions between the local 100 MHz clock and PTP time, in the fixed-point arithmetic of
 module_gptp/src/gptp.c, and how far they are from being inverses of each other.
 */
module GptpTime {
  import opened Bytes

  /** 2 to the power PTP_ADJUST_PREC, the unit of a rate adjustment. */
  const K: int := 0x4000_0000

  const NANOSECONDS_PER_SECOND: int := 1_000_000_000

  type int32 = x: int | -TWO_TO_31 <= x < TWO_TO_31

  type uint64 = x: int | 0 <= x < TWO_TO_64

  const TWO_TO_63: int := 0x8000_0000_0000_0000

  function Signed64(x: int): (r: int)
    ensures -TWO_TO_63 <= r < TWO_TO_63
    ensures (r - x) % TWO_TO_64 == 0
    ensures -TWO_TO_63 <= x < TWO_TO_63 ==> r == x
  {
    var w := x % TWO_TO_64;
    if w < TWO_TO_63 then w else w - TWO_TO_64
  }

  lemma WrapDifference(a: uint32, d: int)
    ensures (Wrap32(a + d) - a - d) % TWO_TO_32 == 0
  {
    var q := (a + d) / TWO_TO_32;
    assert Wrap32(a + d) == a + d - q * TWO_TO_32;
    assert (-q * TWO_TO_32) % TWO_TO_32 == 0;
  }

  lemma CongruentInRange(x: int, y: int)
    requires (x - y) % TWO_TO_32 == 0 && -TWO_TO_31 <= x < TWO_TO_31 && -TWO_TO_31 <= y < TWO_TO_31
    ensures x == y
  {
  }

  /** A signed 32-bit offset survives being added to a timestamp and subtracted again. */
  lemma OffsetBack(a: uint32, d: int32)
    ensures Signed32(Wrap32(a + d) - a) == d
  {
    WrapDifference(a, d);
    var x := Wrap32(a + d) - a;
    assert (Signed32(x) - d) % TWO_TO_32 == 0 by {
      assert Signed32(x) - d == (Signed32(x) - x) + (x - d);
      SumOfMultiples(Signed32(x) - x, x - d);
    }
    CongruentInRange(Signed32(x), d);
  }

  lemma SumOfMultiples(x: int, y: int)
    requires x % TWO_TO_32 == 0 && y % TWO_TO_32 == 0
    ensures (x + y) % TWO_TO_32 == 0
  {
  }

  lemma Signed64Same(x: int, y: int)
    requires (x - y) % TWO_TO_64 == 0 && -TWO_TO_63 <= y < TWO_TO_63
    ensures Signed64(x) == y
  {
  }

  // ---------- local time and PTP time, modulo 2 to the 32 ----------

  /** `ptp_time_info_mod64`, as far as the low word goes. */
  datatype TimeInfo = TimeInfo(localTs: uint32, ptpLo: uint32, adjust: int32, invAdjust: int32)

  /** `x` plus `x` times the adjustment, shifted back down: the rate correction in both directions. */
  function Corrected(x: int, adjust: int): int {
    x + ShiftRight(Signed64(x * adjust), K)
  }

  /** The PTP image of a local offset, before it is cut to 32 bits. */
  function Image(d: int, info: TimeInfo): int {
    Corrected(d * 10, info.adjust)
  }

  /** The local ticks a PTP offset stands for. */
  function Ticks(ptpDiff: int, info: TimeInfo): int {
    TruncDiv(Corrected(ptpDiff, info.invAdjust), 10)
  }

  /** `local_timestamp_to_ptp_mod32`. */
  function LocalToMod32(localTs: uint32, info: TimeInfo): uint32 {
    Wrap32(info.ptpLo + Signed32(Image(Signed32(localTs - info.localTs), info)))
  }

  /** `ptp_mod32_timestamp_to_local`. */
  function Mod32ToLocal(ts: uint32, info: TimeInfo): uint32 {
    Wrap32(info.localTs + Ticks(Signed32(ts - info.ptpLo), info))
  }

  function Abs(x: int): int {
    if x < 0 then -x else x
  }

  /** The adjustments a rate ratio within one part in 32 can have. */
  predicate Moderate(adjust: int) {
    -(K / 32) <= adjust <= K / 32
  }

  lemma CorrectedBounds(x: int, adjust: int)
    requires Moderate(adjust) && -10 * TWO_TO_31 <= x <= 10 * TWO_TO_31
    ensures var y := Corrected(x, adjust); y * K <= x * (K + adjust) < y * K + K
  {
    ProductBound(x, adjust, 10 * TWO_TO_31, K / 32);
    assert Signed64(x * adjust) == x * adjust;
    assert x * (K + adjust) == x * K + x * adjust;
  }

  lemma ProductMonotone(x: int, y: int, a: int, b: int)
    requires 0 <= x <= a && 0 <= y <= b
    ensures 0 <= x * y <= a * b
  {
    assert a * b - x * y == (a - x) * b + x * (b - y);
  }

  lemma ProductBound(x: int, y: int, a: int, b: int)
    requires a >= 0 && b >= 0
    requires -a <= x <= a && -b <= y <= b
    ensures -(a * b) <= x * y <= a * b
  {
    ProductMonotone(Abs(x), Abs(y), a, b);
    assert x * y == Abs(x) * Abs(y) || x * y == -(Abs(x) * Abs(y)) by { AbsProduct(x, y); }
  }

  lemma AbsProduct(x: int, y: int)
    ensures x * y == if (x < 0) == (y < 0) then Abs(x) * Abs(y) else -(Abs(x) * Abs(y))
  {
  }

  /** How far the two rate corrections are from cancelling, in units of one over K squared. */
  function Mismatch(info: TimeInfo): int {
    K * K - (K + info.adjust) * (K + info.invAdjust)
  }

  /** What comes back from a local offset whose image fits in 32 bits. */
  function Return(d: int, info: TimeInfo): int {
    Ticks(Image(d, info), info)
  }

  /** The signed distance of a local timestamp from the reference. */
  function Offset(t: uint32, info: TimeInfo): int32 {
    Signed32(t - info.localTs)
  }

  lemma Backward(f: int32, info: TimeInfo)
    ensures Mod32ToLocal(Wrap32(info.ptpLo + f), info) == Wrap32(info.localTs + Ticks(f, info))
  {
    OffsetBack(info.ptpLo, f);
  }

  lemma Forward(t: uint32, info: TimeInfo)
    ensures LocalToMod32(t, info) == Wrap32(info.ptpLo + Signed32(Image(Offset(t, info), info)))
  {
  }

  lemma SignedFits(x: int)
    requires -TWO_TO_31 <= x < TWO_TO_31
    ensures Signed32(x) == x
  {
  }

  /** The two conversions in a row, reduced to what they do to the offset; the image is cut to 32 bits on the way. */
  lemma ThereAndBack(t: uint32, info: TimeInfo)
    ensures Mod32ToLocal(LocalToMod32(t, info), info)
            == Wrap32(info.localTs + Ticks(Signed32(Image(Offset(t, info), info)), info))
  {
    Forward(t, info);
    Backward(Signed32(Image(Offset(t, info), info)), info);
  }

  lemma OffsetLeadsBack(t: uint32, info: TimeInfo)
    ensures Wrap32(info.localTs + Offset(t, info)) == t
  {
  }

  /** The two floors and the final division, as one equation over the integers. */
  lemma ReturnError(d: int32, info: TimeInfo) returns (r1: int, r2: int, r3: int)
    requires Moderate(info.adjust) && Moderate(info.invAdjust)
    requires -TWO_TO_31 <= Image(d, info) < TWO_TO_31
    ensures 0 <= r1 < K && 0 <= r2 < K && -9 <= r3 <= 9
    ensures K * K * 10 * (d - Return(d, info))
            == 10 * (d * Mismatch(info)) + r1 * (K + info.invAdjust) + K * r2 + K * K * r3
  {
    var a, b := K + info.adjust, K + info.invAdjust;
    var f := Image(d, info);
    var g := Corrected(f, info.invAdjust);
    CorrectedBounds(d * 10, info.adjust);
    CorrectedBounds(f, info.invAdjust);
    r1 := d * 10 * a - f * K;
    r2 := f * b - g * K;
    r3 := g - 10 * TruncDiv(g, 10);
    ReturnAlgebra(d, a, b, f, g, TruncDiv(g, 10), r1, r2, r3);
  }

  lemma ReturnAlgebra(d: int, a: int, b: int, f: int, g: int, e: int, r1: int, r2: int, r3: int)
    requires f * K == d * 10 * a - r1
    requires g * K == f * b - r2
    requires g == 10 * e + r3
    ensures K * K * 10 * (d - e) == 10 * (d * (K * K - a * b)) + r1 * b + K * r2 + K * K * r3
  {
    assert f * b * K == (d * 10 * a - r1) * b by { assert f * b * K == (f * K) * b; }
    assert (d * 10 * a - r1) * b == 10 * d * (a * b) - r1 * b by { Distribute(d, a, b, r1); }
    assert g * K * K == f * b * K - r2 * K;
    assert g * K * K == 10 * e * (K * K) + r3 * (K * K);
    assert 10 * d * (K * K - a * b) == 10 * d * (K * K) - 10 * d * (a * b) by {
      MinusDistributes(10 * d, K * K, a * b);
    }
  }

  lemma Distribute(d: int, a: int, b: int, r: int)
    ensures (d * 10 * a - r) * b == 10 * d * (a * b) - r * b
  {
    assert d * 10 * a * b == 10 * d * (a * b);
  }

  lemma MinusDistributes(x: int, y: int, z: int)
    ensures x * (y - z) == x * y - x * z
  {
  }

  lemma ReturnErrorBound(d: int32, info: TimeInfo, back: int, mismatch: int)
    requires Moderate(info.adjust) && Moderate(info.invAdjust)
    requires -TWO_TO_31 <= Image(d, info) < TWO_TO_31
    requires back == Return(d, info) && mismatch == Mismatch(info)
    ensures 10 * (K * K) * Abs(d - back) <= 10 * Abs(d * mismatch) + 10 * (K * K) + K * (K + info.invAdjust)
  {
    var r1, r2, r3 := ReturnError(d, info);
    var b := K + info.invAdjust;
    RemainderBound(r1, b);
    ErrorBound(d - back, d * mismatch, r1 * b, r2, r3, b);
  }

  lemma RemainderBound(r: int, b: int)
    requires 0 <= r < K && 0 <= b
    ensures 0 <= r * b <= K * b
  {
  }

  /**
   Local to PTP and back: off by at most one tick and about a tenth, plus the interval times the mismatch of the
   two rates.
   */
  lemma RoundTripError(t: uint32, info: TimeInfo)
    requires Moderate(info.adjust) && Moderate(info.invAdjust)
    requires -TWO_TO_31 <= Image(Offset(t, info), info) < TWO_TO_31
    ensures var d := Offset(t, info);
            var back := Return(d, info);
            Mod32ToLocal(LocalToMod32(t, info), info) == Wrap32(info.localTs + back)
            && 10 * (K * K) * Abs(d - back) <= 10 * Abs(d * Mismatch(info)) + 10 * (K * K) + K * (K + info.invAdjust)
  {
    ThereAndBack(t, info);
    SignedFits(Image(Offset(t, info), info));
    var d := Offset(t, info);
    ReturnErrorBound(d, info, Return(d, info), Mismatch(info));
  }

  lemma ErrorBound(x: int, de: int, r1b: int, r2: int, r3: int, b: int)
    requires K * K * 10 * x == 10 * de + r1b + K * r2 + K * K * r3
    requires 0 <= r1b <= K * b && 0 <= r2 < K && -9 <= r3 <= 9
    ensures 10 * (K * K) * Abs(x) <= 10 * Abs(de) + 10 * (K * K) + K * b
  {
  }

  /** As long as interval times mismatch stays below four fifths of a tick, the way back misses by one tick at most. */
  lemma RoundTripWithinOneTick(t: uint32, info: TimeInfo)
    requires Moderate(info.adjust) && Moderate(info.invAdjust)
    requires -TWO_TO_31 <= Image(Offset(t, info), info) < TWO_TO_31
    requires 5 * Abs(Offset(t, info) * Mismatch(info)) <= 4 * (K * K)
    ensures var back := Return(Offset(t, info), info);
            Mod32ToLocal(LocalToMod32(t, info), info) == Wrap32(info.localTs + back) && Abs(Offset(t, info) - back) <= 1
  {
    RoundTripError(t, info);
    OneTick(Abs(Offset(t, info) - Return(Offset(t, info), info)), Abs(Offset(t, info) * Mismatch(info)),
            info.invAdjust);
  }

  lemma OneTick(x: int, e: int, inv: int)
    requires 0 <= x && 0 <= 5 * e <= 4 * (K * K) && Moderate(inv)
    requires 10 * (K * K) * x <= 10 * e + 10 * (K * K) + K * (K + inv)
    ensures x <= 1
  {
    assert K * (K + inv) <= K * K + K * (K / 32);
  }

  /**
   With matched rates a local time comes back exactly when ten times its distance from the reference fits in 32
   bits: an interval of 2.147 seconds in either direction.
   */
  lemma RoundTripExact(t: uint32, info: TimeInfo)
    requires info.adjust == 0 && info.invAdjust == 0
    ensures Mod32ToLocal(LocalToMod32(t, info), info) == t <==> -TWO_TO_31 <= 10 * Offset(t, info) < TWO_TO_31
  {
    var d: int := Offset(t, info);
    ThereAndBack(t, info);
    OffsetLeadsBack(t, info);
    NothingCorrected(d * 10);
    NothingCorrected(Signed32(10 * d));
    var back := TruncDiv(Signed32(10 * d), 10);
    CutTicks(d);
    SameWhenWrapped(info.localTs, d, back);
  }

  lemma NothingCorrected(x: int)
    ensures Corrected(x, 0) == x
  {
  }

  /** A tenth of what is left of ten times `d` in 32 bits is `d` again only if nothing was cut off. */
  lemma CutTicks(d: int32)
    ensures var back := TruncDiv(Signed32(10 * d), 10);
            -TWO_TO_31 / 10 - 1 <= back <= TWO_TO_31 / 10 && (back == d <==> -TWO_TO_31 <= 10 * d < TWO_TO_31)
  {
    if -TWO_TO_31 <= 10 * d < TWO_TO_31 {
      SignedFits(10 * d);
    }
  }

  lemma SameWhenWrapped(a: uint32, d: int32, e: int)
    requires -TWO_TO_31 / 10 - 1 <= e <= TWO_TO_31 / 10
    ensures Wrap32(a + d) == Wrap32(a + e) <==> d == e
  {
    if Wrap32(a + d) == Wrap32(a + e) {
      OffsetBack(a, d);
      OffsetBack(a, e);
    }
  }

  /** Three seconds behind the reference, with matched rates, come back as almost 1.3 seconds before it. */
  lemma ImageMustFit()
    ensures var info := TimeInfo(0, 0, 0, 0);
            Mod32ToLocal(LocalToMod32(300_000_000, info), info) == Wrap32(-129_496_729)
  {
    var info := TimeInfo(0, 0, 0, 0);
    assert Signed32(300_000_000) == 300_000_000;
    NothingCorrected(3_000_000_000);
    assert Signed32(3_000_000_000) == -1_294_967_296;
    ThereAndBack(300_000_000, info);
    NothingCorrected(-1_294_967_296);
  }

  // ---------- the raw pair of adjustments ----------

  const CALC_UNIT: int := 0x8_0000_0000

  /** What `update_adjust` computes from the time that went by on one side and on both, before averaging. */
  function RawAdjust(own: int, other: int): int
    requires own != 0
  {
    ShiftRight(TruncDiv(Signed64((own - other) * CALC_UNIT), own), 32)
  }

  lemma TruncDivBounds(a: int, b: int)
    requires b != 0
    ensures var q := TruncDiv(a, b); -Abs(b) < a - q * b < Abs(b)
  {
    if a >= 0 {
      assert a == b * (a / b) + a % b;
    } else {
      assert -a == b * ((-a) / b) + (-a) % b;
    }
  }

  /** The raw adjustment times its denominator misses the exact ratio by less than the denominator. */
  lemma RawAdjustError(own: int, other: int)
    requires own != 0 && -0x1000_0000 < own - other < 0x1000_0000
    ensures Abs(own * RawAdjust(own, other) - K * (own - other)) <= Abs(own)
  {
    var n := (own - other) * CALC_UNIT;
    var q := TruncDiv(n, own);
    TruncDivBounds(n, own);
    var r := RawAdjust(own, other);
    assert r * 32 <= q < r * 32 + 32;
    var s, rho := q - r * 32, n - q * own;
    ProductBound(s, own, 31, Abs(own));
    assert 32 * (own * r) == q * own - s * own by { RawAlgebra(own, q, r, s); }
  }

  lemma RawAlgebra(own: int, q: int, r: int, s: int)
    requires q == r * 32 + s
    ensures 32 * (own * r) == q * own - s * own
  {
    assert q * own == (r * 32) * own + s * own;
  }

  /** The second-order term of a raw pair, times M L, in units of one over K squared. */
  function SecondOrder(m: int, l: int): int {
    2 * (K * K) * ((m - l) * (m - l))
  }

  /** What the two divisions of a raw pair can cut off, in the same units. */
  function CutOff(m: int, l: int): int {
    K * (Abs(2 * m - l) * Abs(l) + Abs(2 * l - m) * Abs(m)) + Abs(m) * Abs(l)
  }

  lemma SecondOrderPositive(m: int, l: int)
    ensures SecondOrder(m, l) >= 0
  {
    AbsProduct(m - l, m - l);
    ProductMonotone(Abs(m - l), Abs(m - l), Abs(m - l), Abs(m - l));
  }

  /** (1 + adj)(1 + inv) = 1 - 2 (M - L)^2 / (M L), up to what the two divisions cut off. */
  lemma RawPairMismatch(m: int, l: int)
    requires m != 0 && l != 0 && -0x1000_0000 < m - l < 0x1000_0000
    ensures var e := K * K - (K + RawAdjust(m, l)) * (K + RawAdjust(l, m));
            Abs(m * l * e - SecondOrder(m, l)) <= CutOff(m, l)
  {
    var adj, inv := RawAdjust(m, l), RawAdjust(l, m);
    RawAdjustError(m, l);
    RawAdjustError(l, m);
    PairMismatch(m, l, adj, inv, m * adj - K * (m - l), l * inv - K * (l - m));
  }

  lemma PairMismatch(m: int, l: int, adj: int, inv: int, u: int, w: int)
    requires m * adj == K * (m - l) + u && l * inv == K * (l - m) + w
    requires Abs(u) <= Abs(m) && Abs(w) <= Abs(l)
    ensures Abs(m * l * (K * K - (K + adj) * (K + inv)) - SecondOrder(m, l)) <= CutOff(m, l)
  {
    PairAlgebra(m, l, adj, inv, u, w);
    ProductBound(2 * m - l, w, Abs(2 * m - l), Abs(l));
    ProductBound(2 * l - m, u, Abs(2 * l - m), Abs(m));
    ProductBound(u, w, Abs(m), Abs(l));
  }

  lemma RawMismatch(info: TimeInfo, m: int, l: int)
    requires m != 0 && l != 0 && -0x1000_0000 < m - l < 0x1000_0000
    requires info.adjust == RawAdjust(m, l) && info.invAdjust == RawAdjust(l, m)
    ensures Abs(m * l * Mismatch(info) - SecondOrder(m, l)) <= CutOff(m, l)
  {
    RawPairMismatch(m, l);
  }

  lemma PairAlgebra(m: int, l: int, adj: int, inv: int, u: int, w: int)
    requires m * adj == K * (m - l) + u && l * inv == K * (l - m) + w
    ensures m * l * (K * K - (K + adj) * (K + inv))
         == 2 * (K * K) * ((m - l) * (m - l)) - K * ((2 * m - l) * w) - K * ((2 * l - m) * u) - u * w
  {
    var x, y := m * (K + adj), l * (K + inv);
    assert x == K * (2 * m - l) + u;
    assert y == K * (2 * l - m) + w;
    Regroup(m, l, K + adj, K + inv);
    Product(2 * m - l, u, 2 * l - m, w);
    MinusDistributes(m * l, K * K, (K + adj) * (K + inv));
    assert (2 * m - l) * (2 * l - m) == m * l - 2 * ((m - l) * (m - l));
  }

  lemma Regroup(m: int, l: int, a: int, b: int)
    ensures m * l * (a * b) == (m * a) * (l * b)
  {
    assert m * l * (a * b) == m * (l * a) * b;
  }

  lemma Product(p: int, u: int, q: int, w: int)
    ensures (K * p + u) * (K * q + w) == K * K * (p * q) + K * (p * w) + K * (q * u) + u * w
  {
  }

  /**
   The return error for a raw pair of adjustments: over an interval `d` it is at most one tick and about a tenth, plus
   `d` times 2 (M - L)^2 / (M L), plus `d` times what the two divisions of the pair cut off.
   */
  lemma RawRoundTripError(t: uint32, info: TimeInfo, m: int, l: int)
    requires m != 0 && l != 0 && -0x1000_0000 < m - l < 0x1000_0000
    requires info.adjust == RawAdjust(m, l) && info.invAdjust == RawAdjust(l, m)
    requires Moderate(info.adjust) && Moderate(info.invAdjust)
    requires -TWO_TO_31 <= Image(Offset(t, info), info) < TWO_TO_31
    ensures var d := Offset(t, info);
            var back := Return(d, info);
            Mod32ToLocal(LocalToMod32(t, info), info) == Wrap32(info.localTs + back)
            && Abs(m * l) * (10 * (K * K) * Abs(d - back))
               <= 10 * Abs(d) * (SecondOrder(m, l) + CutOff(m, l))
                  + Abs(m * l) * (10 * (K * K) + K * (K + info.invAdjust))
  {
    RoundTripError(t, info);
    RawMismatch(info, m, l);
    SecondOrderPositive(m, l);
    var d, unit := Offset(t, info), 10 * (K * K);
    ScaledError(m * l, d, Mismatch(info), SecondOrder(m, l), CutOff(m, l), unit * Abs(d - Return(d, info)),
                unit + K * (K + info.invAdjust));
  }

  lemma ScaledError(p: int, d: int, e: int, main: int, cut: int, error: int, rest: int)
    requires main >= 0 && Abs(p * e - main) <= cut && error <= 10 * Abs(d * e) + rest
    ensures Abs(p) * error <= 10 * Abs(d) * (main + cut) + Abs(p) * rest
  {
    AbsTimes(d, e);
    AbsTimes(p, e);
    ProductMonotone(Abs(d), Abs(p * e), Abs(d), main + cut);
    var x := Abs(d) * Abs(e);
    AtMost(Abs(p), error, 10 * x + rest);
    assert Abs(p) * x == Abs(d) * Abs(p * e) by { Swapped(Abs(p), Abs(d), Abs(e)); }
    Distributes(Abs(p), 10 * x, rest);
    Swapped(Abs(p), 10, x);
    Swapped(10, Abs(d), main + cut);
  }

  lemma AbsTimes(x: int, y: int)
    ensures Abs(x * y) == Abs(x) * Abs(y)
  {
    AbsProduct(x, y);
    ProductMonotone(Abs(x), Abs(y), Abs(x), Abs(y));
  }

  lemma AtMost(p: int, x: int, y: int)
    requires p >= 0 && x <= y
    ensures p * x <= p * y
  {
  }

  lemma Swapped(p: int, d: int, e: int)
    ensures p * (d * e) == d * (p * e) && p * (d * e) == p * d * e
  {
  }

  lemma Distributes(p: int, x: int, y: int)
    ensures p * (x + y) == p * x + p * y
  {
  }

  // ---------- absolute timestamps ----------

  datatype PtpTimestamp = PtpTimestamp(seconds: uint64, nanoseconds: uint32)

  function Nanos(ts: PtpTimestamp): int {
    ts.seconds * NANOSECONDS_PER_SECOND + ts.nanoseconds
  }

  /** `ptp_timestamp_offset64`; the sum is an `unsigned long long`, whatever the sign of the offset. */
  function Offset64(ts: PtpTimestamp, offset: int): PtpTimestamp {
    var nanosec := (ts.nanoseconds + offset) % TWO_TO_64;
    PtpTimestamp((ts.seconds + nanosec / NANOSECONDS_PER_SECOND) % TWO_TO_64, nanosec % NANOSECONDS_PER_SECOND)
  }

  /** `ptp_timestamp_diff`, in wrapping 64-bit arithmetic. */
  function Diff(a: PtpTimestamp, b: PtpTimestamp): int {
    Signed64(a.nanoseconds - b.nanoseconds + Signed64(a.seconds - b.seconds) * NANOSECONDS_PER_SECOND)
  }

  /** Seconds that leave room for any offset; those of the wire have 48 bits. */
  predicate Roomy(ts: PtpTimestamp) {
    ts.seconds < TWO_TO_63
  }

  /** What an offset does to a timestamp: a sum below zero is taken for one that is 2 to the 64 larger. */
  lemma OffsetValue(ts: PtpTimestamp, offset: int)
    requires Roomy(ts) && -TWO_TO_63 <= offset < TWO_TO_63
    ensures Nanos(Offset64(ts, offset)) == Nanos(ts) + offset + if ts.nanoseconds + offset < 0 then TWO_TO_64 else 0
    ensures Offset64(ts, offset).nanoseconds < NANOSECONDS_PER_SECOND
  {
    var n := ts.nanoseconds + offset;
    var nanosec := n % TWO_TO_64;
    assert nanosec == if n < 0 then n + TWO_TO_64 else n;
  }

  /** A timestamp is moved by the offset exactly when nanoseconds plus offset is not negative. */
  lemma OffsetRightExactlyWhen(ts: PtpTimestamp, offset: int)
    requires Roomy(ts) && -TWO_TO_63 <= offset < TWO_TO_63
    ensures Nanos(Offset64(ts, offset)) == Nanos(ts) + offset <==> ts.nanoseconds + offset >= 0
  {
    OffsetValue(ts, offset);
  }

  /** One nanosecond before a full second is 584 years after it. */
  lemma OffsetWrong()
    ensures Offset64(PtpTimestamp(5, 0), -1) == PtpTimestamp(18_446_744_078, 709_551_615)
  {
    var nanosec := 18_446_744_073_709_551_615;
    assert -1 % TWO_TO_64 == nanosec;
    assert nanosec == 18_446_744_073 * NANOSECONDS_PER_SECOND + 709_551_615;
  }

  /** The difference is taken in the same arithmetic, so it gives any offset back, even a mistaken one. */
  lemma DiffUndoesOffset(ts: PtpTimestamp, offset: int)
    requires -TWO_TO_63 <= offset < TWO_TO_63
    ensures Diff(Offset64(ts, offset), ts) == offset
  {
    var n := (ts.nanoseconds + offset) % TWO_TO_64;
    var q, moved := n / NANOSECONDS_PER_SECOND, Offset64(ts, offset);
    var x := Signed64(moved.seconds - ts.seconds);
    SecondsBack(ts.seconds, q);
    Scaled(x, q);
    var d := moved.nanoseconds - ts.nanoseconds + x * NANOSECONDS_PER_SECOND;
    assert d - (n - ts.nanoseconds) == (x - q) * NANOSECONDS_PER_SECOND;
    NanosecondsBack(ts.nanoseconds, offset);
    Congruent(d, n - ts.nanoseconds, offset);
    Signed64Same(d, offset);
  }

  lemma SecondsBack(s: uint64, q: int)
    ensures (Signed64((s + q) % TWO_TO_64 - s) - q) % TWO_TO_64 == 0
  {
    var x := (s + q) % TWO_TO_64 - s;
    assert (x - q) % TWO_TO_64 == 0;
    Congruent(Signed64(x), x, q);
  }

  lemma NanosecondsBack(ns: uint32, offset: int)
    ensures ((ns + offset) % TWO_TO_64 - ns - offset) % TWO_TO_64 == 0
  {
  }

  lemma Congruent(x: int, y: int, z: int)
    requires (x - y) % TWO_TO_64 == 0 && (y - z) % TWO_TO_64 == 0
    ensures (x - z) % TWO_TO_64 == 0
  {
  }

  lemma Scaled(x: int, y: int)
    requires (x - y) % TWO_TO_64 == 0
    ensures ((x - y) * NANOSECONDS_PER_SECOND) % TWO_TO_64 == 0
  {
    var k := (x - y) / TWO_TO_64;
    assert (x - y) * NANOSECONDS_PER_SECOND == (k * NANOSECONDS_PER_SECOND) * TWO_TO_64;
    MultipleOf(k * NANOSECONDS_PER_SECOND);
  }

  lemma MultipleOf(k: int)
    ensures (k * TWO_TO_64) % TWO_TO_64 == 0
  {
  }
}
