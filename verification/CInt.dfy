/** C integer types and the conversions the clients rely on: unsigned 32-bit
    wrap-around, the signed reading of an unsigned word, and division that
    truncates toward zero. */
module CInt {
  const TWO_31 := 0x8000_0000
  const TWO_32 := 0x1_0000_0000

  type uint32 = x: int | 0 <= x < TWO_32
  type int32 = x: int | -TWO_31 <= x < TWO_31

  /** Conversion of any integer to `uint32_t`. */
  function ToUint32(x: int): uint32 {
    x % TWO_32
  }

  /** The `int` a `uint32_t` converts to (two's complement). */
  function ToInt32(x: uint32): int32 {
    if x < TWO_31 then x else x - TWO_32
  }

  /** C's integer `/` for a positive divisor. */
  function TruncDiv(a: int, b: int): int
    requires b > 0
  {
    if a >= 0 then a / b else -((-a) / b)
  }

  function Min(a: int, b: int): int {
    if a < b then a else b
  }

  function Max(a: int, b: int): int {
    if a > b then a else b
  }
}
