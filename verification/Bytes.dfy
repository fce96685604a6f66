/**
 Bytes, big-endian fields and the fixed-width integers the C sources compute with.
 */
module Bytes {

  /** An `unsigned char`; plain `char` is unsigned on the target as well. */
  type byte = x: int | 0 <= x < 256

  const TWO_TO_16: int := 0x1_0000
  const TWO_TO_31: int := 0x8000_0000
  const TWO_TO_32: int := 0x1_0000_0000
  const TWO_TO_64: int := 0x1_0000_0000_0000_0000

  /** An `unsigned int`. */
  type uint32 = x: int | 0 <= x < TWO_TO_32

  /** The conversion of any integer to `unsigned int`. */
  function Wrap32(x: int): uint32 {
    x % TWO_TO_32
  }

  /** The conversion of any integer to `int`, in two's complement. */
  function Signed32(x: int): (r: int)
    ensures -TWO_TO_31 <= r < TWO_TO_31
    ensures (r - x) % TWO_TO_32 == 0
  {
    var w := x % TWO_TO_32;
    if w < TWO_TO_31 then w else w - TWO_TO_32
  }

  /** The conversion of an unsigned 16-bit field to `short`, as `ntoh_16` returns it. */
  function Signed16(x: int): int
    requires 0 <= x < TWO_TO_16
  {
    if x < 0x8000 then x else x - TWO_TO_16
  }

  /** The shortest forms of the C operators on negative operands: division truncates toward zero. */
  function TruncDiv(a: int, b: int): int
    requires b != 0
  {
    if a >= 0 then a / b else -((-a) / b)
  }

  /** The arithmetic right shift `a >> k` of a signed value, with `unit` being two to the k. */
  function ShiftRight(a: int, unit: int): (r: int)
    requires unit > 0
    ensures r * unit <= a < r * unit + unit
  {
    a / unit
  }

  /** Multiples of a unit are at least a unit apart. */
  /** The place `k` behind `i` in a ring of `n`, for less than a round. */
  function RingAt(i: int, k: int, n: int): int {
    if i + k < n then i + k else i + k - n
  }

  lemma Multiples(k: int, l: int, unit: int)
    requires k < l && unit > 0
    ensures k * unit + unit <= l * unit
  {
    var d := l - k - 1;
    assert (k + 1 + d) * unit == k * unit + unit + d * unit;
  }

  /** Quotient and remainder are what they are written as. */
  lemma QuotientIs(q: int, r: int, base: int, x: int)
    requires 0 <= r < base && x == q * base + r
    ensures x / base == q && x % base == r
  {
    assert x == x / base * base + x % base;
    if x / base < q {
      Multiples(x / base, q, base);
    } else if q < x / base {
      Multiples(q, x / base, base);
    }
  }

  function Pow256(n: nat): nat {
    if n == 0 then 1 else 256 * Pow256(n - 1)
  }

  /** The value of a big-endian field. */
  function BeNat(s: seq<byte>): nat {
    if s == [] then 0 else 256 * BeNat(s[..|s| - 1]) + s[|s| - 1]
  }

  /** The big-endian field of `n` bytes that holds `v`. */
  function BeBytes(v: nat, n: nat): (s: seq<byte>)
    ensures |s| == n
  {
    if n == 0 then [] else BeBytes(v / 256, n - 1) + [v % 256]
  }

  lemma {:induction false} BeRoundTrip(v: nat, n: nat)
    requires v < Pow256(n)
    ensures BeNat(BeBytes(v, n)) == v
  {
    if n == 0 {
    } else {
      var s := BeBytes(v, n);
      assert s[..|s| - 1] == BeBytes(v / 256, n - 1);
      BeRoundTrip(v / 256, n - 1);
    }
  }

  lemma PowersOf256()
    ensures Pow256(2) == TWO_TO_16
    ensures Pow256(6) == 0x1_0000_0000_0000
    ensures Pow256(8) == TWO_TO_64
  {
    assert Pow256(2) == 256 * 256 * Pow256(0);
    assert Pow256(4) == 256 * 256 * Pow256(2);
    assert Pow256(6) == 256 * 256 * Pow256(4);
    assert Pow256(8) == 256 * 256 * Pow256(6);
  }

  /** The two bytes `hton_16` stores. */
  function Be16(v: nat): (s: seq<byte>)
    requires v < TWO_TO_16
    ensures |s| == 2 && s[0] as int * 256 + s[1] as int == v
  {
    [v / 256, v % 256]
  }
}
