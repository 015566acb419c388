/**
 * The C integer types and conversions the firmware relies on. Integers are
 * unbounded in Dafny, so every narrowing the C code performs implicitly is
 * written out here.
 */
module CTypes {

  /** uint8_t */
  type Byte = x: int | 0 <= x < 0x100

  /** int16_t, the type of an ADC sample buffer */
  type Int16 = x: int | -0x8000 <= x < 0x8000

  /** Conversion of an integer to uint8_t: reduction modulo 2^8. */
  function ToUint8(i: int): (b: Byte)
    ensures (b - i) % 0x100 == 0
    ensures 0 <= i < 0x100 ==> b == i
  {
    i % 0x100
  }

  /** Conversion of an integer to uint32_t: reduction modulo 2^32. */
  function ToUint32(i: int): (u: int)
    ensures 0 <= u < 0x1_0000_0000
    ensures (u - i) % 0x1_0000_0000 == 0
    ensures 0 <= i < 0x1_0000_0000 ==> u == i
  {
    i % 0x1_0000_0000
  }

  /** Conversion of a floating-point value to int: truncation toward zero. */
  function Trunc(x: real): (n: int)
    ensures 0.0 <= x ==> n as real <= x < n as real + 1.0
    ensures x < 0.0 ==> n as real - 1.0 < x <= n as real
  {
    if x >= 0.0 then x.Floor else -((-x).Floor)
  }

  /** A float result of a conversion whose divisor or logarithm argument comes from a
      measurement: a real number, or an infinity/NaN when the measurement hits the
      formula's singularity. The model does not track which non-finite value it is. */
  datatype Float = Finite(v: real) | NonFinite
}
