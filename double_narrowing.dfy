/**
 * `putDouble`'s choice of how a double is stored: NaN and infinities throw, an integral value
 * that a `Long` holds exactly is stored as that `Long`, anything else as a double.
 *
 * The source's guard compares against `Long.MAX_VALUE` converted to a double, which is 2^63,
 * so 2^63 itself slips through and is stored as `Long.MAX_VALUE` = 2^63 - 1.
 * `NarrowDoubleAsWritten` models that guard with the binary64 rounding it depends on;
 * `NarrowDouble` is the intended rule, which the rest of the model uses.
 */
module DoubleNarrowing {
  import opened Wrappers
  import opened Numbers
  import opened Errors
  import opened Android

  /** The intended rule: the stored value says exactly what the double said. */
  function NarrowDouble(key: string, d: Float64): (r: Result<StoredValue, Error>)
    ensures r.Failure? <==> !d.Finite?
    ensures r.Failure? ==> r.error == UnsupportedNumericValue(key, d)
    ensures r.Success? ==> r.value.LongValue? || r.value == DoubleValue(d)
    ensures r.Success? && r.value.LongValue? ==> d == Finite(r.value.int64 as real)
    ensures d.Finite? && IsLongValue(d.value) ==> r.Success? && r.value.LongValue?
  {
    match d
    case Finite(x) =>
      if IsLongValue(x) then Success(LongValue(x.Floor)) else Success(DoubleValue(d))
    case _ => Failure(UnsupportedNumericValue(key, d))
  }

  /** Narrowing is stable: narrowing what was stored stores the same thing again. */
  lemma NarrowDoubleStable(key: string, d: Float64)
    requires NarrowDouble(key, d).Success?
    ensures NarrowDouble(key, d).value.LongValue? ==>
      NarrowDouble(key, Finite(NarrowDouble(key, d).value.int64 as real)) == NarrowDouble(key, d)
    ensures NarrowDouble(key, d).value.DoubleValue? ==>
      NarrowDouble(key, NarrowDouble(key, d).value.double) == NarrowDouble(key, d)
  {
  }

  /** 5.0 is stored as the `Long` 5, 5.5 as a double, NaN and the infinities throw. */
  lemma NarrowDoubleExamples(key: string)
    ensures NarrowDouble(key, Finite(5.0)) == Success(LongValue(5))
    ensures NarrowDouble(key, Finite(5.5)) == Success(DoubleValue(Finite(5.5)))
    ensures NarrowDouble(key, NaN) == Failure(UnsupportedNumericValue(key, NaN))
    ensures NarrowDouble(key, Infinity(false)).Failure? && NarrowDouble(key, Infinity(true)).Failure?
  {
    assert IsLongValue(5.0);
    assert !IsIntegral(5.5) by { assert (5.5).Floor == 5; }
  }

  // ---------------------------------------------------------------- the guard as written

  const TWO_53: int := 0x20_0000_0000_0000
  const TWO_63: int := 0x8000_0000_0000_0000

  /** The gap between consecutive binary64 values around the non-negative integer `n`. */
  function Spacing(n: nat): (u: nat)
    ensures u >= 1
  {
    if n < TWO_53 then 1 else 2 * Spacing(n / 2)
  }

  /** The binary64 value nearest to `n`, ties to the even significand (`Long.toDouble()`). */
  function RoundToBinary64(n: nat): nat
  {
    var u := Spacing(n);
    var q := n / u;
    var rest := n % u;
    if 2 * rest < u || (2 * rest == u && q % 2 == 0) then q * u else (q + 1) * u
  }

  function LongToDouble(n: Int64): real
  {
    if n >= 0 then RoundToBinary64(n) as real else -(RoundToBinary64(-(n as int)) as real)
  }

  /** `Double.toLong()` on a finite value: truncation toward zero, saturating at the `Long` bounds. */
  function DoubleToLong(x: real): Int64
  {
    if x >= TWO_63 as real then LONG_MAX
    else if x <= LONG_MIN as real then LONG_MIN
    else if x >= 0.0 then x.Floor
    else -((-x).Floor)
  }

  /**
   * `putDouble` as written: the integrality test and the two range comparisons are made in
   * double arithmetic (each `Long` bound converted to a double), then the value is converted to a
   * `Long` and stored as one only if converting that `Long` back gives the value again.
   */
  function NarrowDoubleAsWritten(key: string, d: Float64): (r: Result<StoredValue, Error>)
    ensures r.Failure? <==> !d.Finite?
    ensures r.Failure? ==> r.error == UnsupportedNumericValue(key, d)
    ensures r.Success? ==> r.value.LongValue? || r.value == DoubleValue(d)
    ensures r.Success? && r.value.LongValue? ==> d.Finite? && LongToDouble(r.value.int64) == d.value
  {
    match d
    case Finite(x) =>
      if IsIntegral(x) && x <= LongToDouble(LONG_MAX) && x >= LongToDouble(LONG_MIN) then
        var n := DoubleToLong(x);
        if LongToDouble(n) == x then Success(LongValue(n)) else Success(DoubleValue(d))
      else Success(DoubleValue(d))
    case _ => Failure(UnsupportedNumericValue(key, d))
  }

  /** The two conversions of the `Long` bounds: the maximum rounds up to 2^63, the minimum is exact. */
  lemma LongBoundsAsDoubles()
    ensures LongToDouble(LONG_MAX) == TWO_63 as real
    ensures LongToDouble(LONG_MIN) == LONG_MIN as real
  {
    assert Spacing(LONG_MAX) == 1024;
    assert Spacing(TWO_63) == 2048;
  }

  /** The double 2^63 lies outside the `Long` range, yet the written guard stores it as 2^63 - 1. */
  lemma NarrowDoubleAsWrittenStoresWrongLong(key: string)
    ensures NarrowDoubleAsWritten(key, Finite(TWO_63 as real)) == Success(LongValue(LONG_MAX))
    ensures LONG_MAX as real != TWO_63 as real
    ensures NarrowDouble(key, Finite(TWO_63 as real)) == Success(DoubleValue(Finite(TWO_63 as real)))
  {
    LongBoundsAsDoubles();
    assert IsIntegral(TWO_63 as real);
  }

  /**
   * Apart from 2^63, the written guard and the intended rule agree on every value a double can
   * hold: an integral value in the `Long` range that binary64 represents exactly.
   */
  lemma NarrowDoubleAsWrittenAgrees(key: string, d: Float64)
    requires d.Finite? && IsLongValue(d.value) ==> LongToDouble(d.value.Floor) == d.value
    requires d != Finite(TWO_63 as real)
    ensures NarrowDoubleAsWritten(key, d) == NarrowDouble(key, d)
  {
    LongBoundsAsDoubles();
  }
}
