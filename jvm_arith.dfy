/**
 * The JVM integer semantics the progress computation relies on: Kotlin's
 * `Long` and `Int` are 64- and 32-bit two's-complement integers, `*` wraps
 * silently, `/` truncates toward zero and `Long.toInt()` keeps the low 32 bits.
 */
module JvmArith {

  const LONG_MIN: int := -0x8000_0000_0000_0000
  const LONG_MAX: int := 0x7FFF_FFFF_FFFF_FFFF
  const INT_MIN: int := -0x8000_0000
  const INT_MAX: int := 0x7FFF_FFFF

  type Int32 = x: int | -0x8000_0000 <= x < 0x8000_0000
  type Int64 = x: int | -0x8000_0000_0000_0000 <= x < 0x8000_0000_0000_0000

  /** The `Long` that a JVM multiplication leaves when the exact value is `x`. */
  function WrapLong(x: int): (r: Int64)
    ensures (x - r) % 0x1_0000_0000_0000_0000 == 0
    ensures LONG_MIN <= x <= LONG_MAX ==> r == x
  {
    (x - LONG_MIN) % 0x1_0000_0000_0000_0000 + LONG_MIN
  }

  /** `Long.toInt()`: the low 32 bits, read as a signed `Int`. */
  function ToInt(x: Int64): (r: Int32)
    ensures (x - r) % 0x1_0000_0000 == 0
    ensures INT_MIN <= x <= INT_MAX ==> r == x
  {
    (x - INT_MIN) % 0x1_0000_0000 + INT_MIN
  }

  /**
   * `Long` division by a positive divisor, truncating toward zero: the
   * remainder takes the sign of the dividend.
   */
  function LongDiv(a: Int64, b: Int64): (q: Int64)
    requires b > 0
    ensures a >= 0 ==> 0 <= a - q * b < b
    ensures a < 0 ==> -b < a - q * b <= 0
  {
    var n: int := a;
    if n >= 0 then n / b else -((-n) / b)
  }

  /** On a non-negative dividend, truncating division is Dafny's division. */
  lemma LongDivNonNegative(a: Int64, b: Int64)
    requires a >= 0 && b > 0
    ensures LongDiv(a, b) == a / b
  {
  }
}
