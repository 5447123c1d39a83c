/**
 * A Java `double` kept as its 64 IEEE 754 binary64 bits, so that the value a
 * record holds and the value `DataOutputStream.writeDouble` puts on the wire
 * are the same object. Comparison is exact; addition rounds to nearest, ties
 * to even, and the rounding itself is defined but not proved correct here.
 */
module Float64 {
  import opened JavaBase

  /** The bits of a `double`, sign bit first, as an unsigned number. */
  type Double = bits64

  const TWO_52: nat := 0x10_0000_0000_0000
  const SIGN_BIT: nat := 0x8000_0000_0000_0000
  /** The bits of `Double.POSITIVE_INFINITY`; larger magnitudes are NaNs. */
  const POS_INF: Double := 0x7FF0_0000_0000_0000
  const NEG_INF: Double := 0xFFF0_0000_0000_0000
  /** The one NaN that `Double.doubleToLongBits` produces. */
  const CANONICAL_NAN: Double := 0x7FF8_0000_0000_0000
  const POS_ZERO: Double := 0
  const NEG_ZERO: Double := 0x8000_0000_0000_0000

  predicate Negative(d: Double) {
    d >= SIGN_BIT
  }

  /** The bits without the sign. */
  function Magnitude(d: Double): (r: nat)
    ensures r < SIGN_BIT
  {
    if Negative(d) then d - SIGN_BIT else d
  }

  predicate IsNaN(d: Double) {
    Magnitude(d) > POS_INF
  }

  predicate IsInfinite(d: Double) {
    Magnitude(d) == POS_INF
  }

  predicate IsFinite(d: Double) {
    Magnitude(d) < POS_INF
  }

  function Pow2(n: nat): (r: nat)
    ensures r >= 1
  {
    if n == 0 then 1 else 2 * Pow2(n - 1)
  }

  /** The magnitude of a finite double, in units of 2^-1074 (the smallest subnormal). */
  function Units(d: Double): nat
    requires IsFinite(d)
  {
    var e := Magnitude(d) / TWO_52;
    var f := Magnitude(d) % TWO_52;
    if e == 0 then f else (TWO_52 + f) * Pow2(e - 1)
  }

  /** The exact value of a finite double, in units of 2^-1074. */
  function Value(d: Double): int
    requires IsFinite(d)
  {
    var u: int := Units(d);
    if Negative(d) then -u else u
  }

  /** Unary minus: flips the sign bit (also of zeros, infinities and NaNs). */
  function Negate(d: Double): (r: Double)
    ensures Magnitude(r) == Magnitude(d) && Negative(r) != Negative(d)
  {
    if Negative(d) then d - SIGN_BIT else d + SIGN_BIT
  }

  /** `Double.doubleToLongBits`: every NaN becomes the canonical one. */
  function ToLongBits(d: Double): (r: Double)
    ensures IsNaN(d) ==> r == CANONICAL_NAN
    ensures !IsNaN(d) ==> r == d
  {
    if IsNaN(d) then CANONICAL_NAN else d
  }

  /** Java's `a >= b`: false when either side is NaN, and -0.0 >= 0.0. */
  predicate Ge(a: Double, b: Double) {
    !IsNaN(a) && !IsNaN(b) &&
    (a == POS_INF || b == NEG_INF || (IsFinite(a) && IsFinite(b) && Value(a) >= Value(b)))
  }

  /** How many halvings bring a positive unit count below 2^53. */
  function Shift(u: nat): nat {
    if u < 2 * TWO_52 then 0 else 1 + Shift(u / 2)
  }

  /** `(u / 2^t, u % 2^t)`, one halving at a time. */
  function DivModPow2(u: nat, t: nat): (nat, nat) {
    if t == 0 then (u, 0)
    else
      var (q, r) := DivModPow2(u / 2, t - 1);
      (q, r * 2 + u % 2)
  }

  /** `u / 2^t` rounded to nearest, ties to even. */
  function RoundShift(u: nat, t: nat): nat {
    var (q, rem) := DivModPow2(u, t);
    if t == 0 then q
    else
      var half := Pow2(t - 1);
      if rem > half || (rem == half && q % 2 == 1) then q + 1 else q
  }

  /**
   * The double nearest to `u` units of 2^-1074 with the given sign; a
   * magnitude past the largest finite double becomes an infinity. With
   * `t` the shift and `q` in [2^52, 2^53] the rounded significand, the
   * magnitude bits are `t * 2^52 + q` (biased exponent `t + 1`, and a
   * significand that rounded up to 2^53 carries into the exponent).
   */
  function FromUnits(negative: bool, u: nat): (r: Double)
    ensures Negative(r) == negative
  {
    var t := Shift(u);
    var bits := t * TWO_52 + RoundShift(u, t);
    var mag := if bits >= POS_INF then POS_INF else bits;
    if negative then mag + SIGN_BIT else mag
  }

  /** Java's `a + b` on doubles. */
  function Add(a: Double, b: Double): (r: Double)
    ensures IsNaN(a) || IsNaN(b) ==> r == CANONICAL_NAN
    ensures IsInfinite(a) && IsInfinite(b) ==> (r == if a == b then a else CANONICAL_NAN)
    ensures IsInfinite(a) && IsFinite(b) ==> r == a
    ensures IsFinite(a) && IsInfinite(b) ==> r == b
  {
    if IsNaN(a) || IsNaN(b) then CANONICAL_NAN
    else if IsInfinite(a) && IsInfinite(b) then (if a == b then a else CANONICAL_NAN)
    else if IsInfinite(a) then a
    else if IsInfinite(b) then b
    else
      var s := Value(a) + Value(b);
      if s == 0 then (if a == NEG_ZERO && b == NEG_ZERO then NEG_ZERO else POS_ZERO)
      else if s < 0 then FromUnits(true, -s)
      else FromUnits(false, s)
  }

  /** Java's `a - b` on doubles, which IEEE 754 defines as `a + (-b)`. */
  function Sub(a: Double, b: Double): Double {
    Add(a, Negate(b))
  }

  /** Rounding is exact on a unit count a double can hold. */
  lemma {:induction false} ShiftOfSignificand(m: nat, k: nat)
    requires TWO_52 <= m < 2 * TWO_52
    ensures Shift(m * Pow2(k)) == k
  {
    if k > 0 {
      ShiftOfSignificand(m, k - 1);
      DoubleProduct(m, Pow2(k - 1));
      assert m * Pow2(k) >= 2 * TWO_52 by {
        assert Pow2(k - 1) >= 1;
        assert m * Pow2(k - 1) >= m;
      }
    }
  }

  lemma DoubleProduct(m: nat, p: nat)
    ensures m * (2 * p) == 2 * (m * p)
  {
  }

  lemma {:induction false} DivModOfMultiple(m: nat, k: nat)
    ensures DivModPow2(m * Pow2(k), k) == (m, 0)
  {
    if k > 0 {
      DivModOfMultiple(m, k - 1);
      var x := m * Pow2(k - 1);
      DoubleProduct(m, Pow2(k - 1));
      assert (2 * x) / 2 == x && (2 * x) % 2 == 0;
    }
  }

  /** A finite positive double's own unit count converts back to that double. */
  lemma FromUnitsUnits(d: Double)
    requires IsFinite(d) && !Negative(d) && d != POS_ZERO
    ensures FromUnits(false, Units(d)) == d
  {
    var e := Magnitude(d) / TWO_52;
    var f := Magnitude(d) % TWO_52;
    assert d == e * TWO_52 + f;
    if e == 0 {
      assert Shift(f) == 0;
      assert RoundShift(f, 0) == f;
    } else {
      var m := TWO_52 + f;
      ShiftOfSignificand(m, e - 1);
      DivModOfMultiple(m, e - 1);
      assert RoundShift(m * Pow2(e - 1), e - 1) == m;
    }
  }

  /** `>=` on doubles is a total preorder on everything but NaN, and NaN compares false. */
  lemma GeIsTotalOnNumbers(a: Double, b: Double, c: Double)
    ensures IsNaN(a) ==> !Ge(a, b) && !Ge(b, a)
    ensures !IsNaN(a) ==> Ge(a, a)
    ensures !IsNaN(a) && !IsNaN(b) ==> Ge(a, b) || Ge(b, a)
    ensures Ge(a, b) && Ge(b, c) ==> Ge(a, c)
  {
  }

  /** One, in units of 2^-1074: the number 2^1074. */
  const ONE: nat := 0x40000000000000000000000000000000000000000000000000000000000000000000000000000000000000000000000000000000000000000000000000000000000000000000000000000000000000000000000000000000000000000000000000000000000000000000000000000000000000000000000000000000000000000000000000000

  /** The whole part of a finite double: its exact value rounded toward zero. */
  function Truncate(d: Double): int
    requires IsFinite(d)
  {
    JDiv(Value(d), ONE)
  }

  /**
   * Java's narrowing of a double to the integers `lo..hi` (section 5.1.3
   * of the Java Language Specification): NaN becomes 0, anything else is
   * rounded toward zero, and what falls outside the range, infinities
   * included, becomes the nearer bound.
   */
  function Narrow(d: Double, lo: int, hi: int): (r: int)
    requires lo <= 0 <= hi
    ensures lo <= r <= hi
  {
    if IsNaN(d) then 0
    else if IsInfinite(d) then (if Negative(d) then lo else hi)
    else
      var t := Truncate(d);
      if t < lo then lo else if t > hi then hi else t
  }

  /** `(int) d`, as `Double.intValue()` returns it. */
  function ToInt(d: Double): int32 {
    Narrow(d, -0x8000_0000, 0x7FFF_FFFF)
  }

  /** `(long) d`, as `Double.longValue()` returns it. */
  function ToLong(d: Double): int64 {
    Narrow(d, -0x8000_0000_0000_0000, 0x7FFF_FFFF_FFFF_FFFF)
  }

  /**
   * The whole part has the sign of the double and the largest magnitude
   * that does not exceed the double's: `|t| <= |d| < |t| + 1`.
   */
  lemma TruncateRoundsTowardZero(d: Double)
    requires IsFinite(d)
    ensures Negative(d) ==> Truncate(d) <= 0
    ensures !Negative(d) ==> Truncate(d) >= 0
    ensures var m := if Truncate(d) < 0 then -Truncate(d) else Truncate(d);
      m * ONE <= Units(d) < (m + 1) * ONE
  {
    var u: int := Units(d);
    var q := u / ONE;
    assert q * ONE <= u < (q + 1) * ONE by {
      assert u == q * ONE + u % ONE;
    }
    if Negative(d) {
      assert Truncate(d) == if u == 0 then 0 else -q;
    } else {
      assert Truncate(d) == q;
    }
  }

  /**
   * A double that holds a whole number in range narrows to exactly that
   * number, as `3306.0` reads as the `int` 3306.
   */
  lemma NarrowWholeNumber(d: Double, n: int, lo: int, hi: int)
    requires lo <= 0 <= hi && lo <= n <= hi
    requires IsFinite(d) && Value(d) == n * ONE
    ensures Narrow(d, lo, hi) == n
  {
    var v := Value(d);
    if n >= 0 {
      assert v / ONE == n;
    } else {
      assert (-v) / ONE == -n by {
        assert -v == (-n) * ONE;
      }
    }
  }
}
