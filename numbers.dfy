/**
 * The JVM numeric kinds the bridge handles. Fixed-width integers are subset types of `int`;
 * a double is abstracted as NaN, an infinity or a finite real (no rounding is modelled here).
 */
module Numbers {

  const LONG_MIN: int := -0x8000_0000_0000_0000
  const LONG_MAX: int := 0x7FFF_FFFF_FFFF_FFFF

  /** Kotlin `Byte`, `Short`, `Int` and `Long`. */
  type Int8 = x: int | -0x80 <= x < 0x80
  type Int16 = x: int | -0x8000 <= x < 0x8000
  type Int32 = x: int | -0x8000_0000 <= x < 0x8000_0000
  type Int64 = x: int | -0x8000_0000_0000_0000 <= x < 0x8000_0000_0000_0000

  /** An IEEE-754 double (or float) value, abstracted. */
  datatype Float64 = NaN | Infinity(negative: bool) | Finite(value: real)

  /** The remainder modulo 1.0 is zero: the real has no fractional part. */
  predicate IsIntegral(x: real)
  {
    x.Floor as real == x
  }

  /** An integral value that a 64-bit `Long` holds exactly. */
  predicate IsLongValue(x: real)
  {
    IsIntegral(x) && LONG_MIN as real <= x <= LONG_MAX as real
  }
}
