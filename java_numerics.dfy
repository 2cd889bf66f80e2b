/**
 * The few Java primitive-type rules the widget's arithmetic depends on:
 * integer division rounds toward zero (JLS section 15.17.2), the `(int)`
 * cast of a floating-point value rounds toward zero and saturates at the
 * int range (JLS section 5.1.3), and an `int` is a 32-bit two's-complement
 * bit pattern. Floating-point values are modelled as exact reals.
 */
module JavaNumerics {

  const INT_MIN: int := -0x8000_0000
  const INT_MAX: int := 0x7FFF_FFFF
  const TWO_TO_32: int := 0x1_0000_0000

  /** `n / 2` on Java ints: the exact half rounded toward zero. */
  function HalfTowardZero(n: int): (h: int)
    ensures n >= 0 ==> 0 <= h && 0 <= n - 2 * h <= 1
    ensures n < 0 ==> h <= 0 && 0 <= 2 * h - n <= 1
  {
    if n >= 0 then n / 2 else -((-n) / 2)
  }

  /** The integer part of `x`, rounded toward zero. */
  function TruncateTowardZero(x: real): (n: int)
    ensures x >= 0.0 ==> 0 <= n && n as real <= x < n as real + 1.0
    ensures x < 0.0 ==> n <= 0 && n as real - 1.0 < x <= n as real
  {
    if x >= 0.0 then x.Floor else -((-x).Floor)
  }

  /**
   * The `(int)` cast of a floating-point value: round toward zero, then
   * clamp to the int range. NaN and the infinities have no counterpart
   * among the reals.
   */
  function FloatToInt(x: real): (n: int)
    ensures INT_MIN <= n <= INT_MAX
    ensures INT_MIN <= TruncateTowardZero(x) <= INT_MAX ==> n == TruncateTowardZero(x)
    ensures x >= INT_MAX as real ==> n == INT_MAX
    ensures x <= INT_MIN as real ==> n == INT_MIN
  {
    var t := TruncateTowardZero(x);
    if t > INT_MAX then INT_MAX else if t < INT_MIN then INT_MIN else t
  }

  /** The 32-bit two's-complement pattern of a Java int. */
  function IntBits(n: int): bv32
    requires INT_MIN <= n <= INT_MAX
  {
    if n >= 0 then n as bv32 else (n + TWO_TO_32) as bv32
  }
}
