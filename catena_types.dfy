/**
 * Fixed-width integer types of the C++ firmware and a small Option type,
 * shared by the transmit buffer, the command stream and the LoRaWAN commands.
 */
module CatenaTypes {

  /** `uint8_t` */
  type uint8 = x: int | 0 <= x < 0x100

  /** `uint32_t` */
  type uint32 = x: int | 0 <= x < 0x1_0000_0000

  /** `int32_t` */
  type int32 = x: int | -0x8000_0000 <= x < 0x8000_0000

  /** The conventional Some/None datatype, standing in for a nullable pointer. */
  datatype Option<+T> = None | Some(value: T)

  /**
   * The conversion of an integer-valued enumerator such as
   * `cStreamLineCollector::ErrorCode` to `uint8_t`: reduction modulo 2^8.
   */
  function ToUint8(v: int): (r: uint8)
    ensures 0 <= v < 0x100 ==> r == v
    ensures -0x100 <= v < 0 ==> r == v + 0x100
    ensures (r - v) % 0x100 == 0
  {
    v % 0x100
  }

  function Min(a: int, b: int): (r: int)
    ensures r <= a && r <= b && (r == a || r == b)
  {
    if a <= b then a else b
  }

  /**
   * The conversion `(uint32_t) v` of an `int32_t`: two's-complement
   * reinterpretation, so a negative value becomes `v + 2^32`.
   */
  function ToUint32(v: int32): (r: uint32)
    ensures v >= 0 ==> r == v
    ensures v < 0 ==> r == v + 0x1_0000_0000
  {
    v % 0x1_0000_0000
  }
}
