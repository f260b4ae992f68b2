/** Fixed-width unsigned integers of the C++ source, as subset types of int. */
module Ints {
  const UINT8_LIMIT: int := 0x100
  const UINT16_LIMIT: int := 0x1_0000
  const UINT32_LIMIT: int := 0x1_0000_0000
  const UINT64_LIMIT: int := 0x1_0000_0000_0000_0000

  /** The largest 32-bit unsigned value, i.e. `static_cast<unsigned>(-1)`. */
  const UINT32_MAX: int := UINT32_LIMIT - 1

  type uint8 = x: int | 0 <= x < UINT8_LIMIT
  type uint16 = x: int | 0 <= x < UINT16_LIMIT
  type uint32 = x: int | 0 <= x < UINT32_LIMIT
  type uint64 = x: int | 0 <= x < UINT64_LIMIT

  /** Truncating conversion to 8 bits, as `static_cast<uint8_t>` does: modulo 2^8. */
  function ToUint8(x: nat): (r: uint8)
    ensures x < UINT8_LIMIT ==> r == x
    ensures (r - x) % UINT8_LIMIT == 0
  {
    x % UINT8_LIMIT
  }

  /** Conversion of an `int` to 16 bits, as assigning it to an `unsigned short` does: modulo 2^16. */
  function ToUint16(x: int): (r: uint16)
    ensures 0 <= x < UINT16_LIMIT ==> r == x
    ensures (r - x) % UINT16_LIMIT == 0
  {
    x % UINT16_LIMIT
  }

  /** Truncating conversion to 32 bits, as `static_cast<unsigned>` does: modulo 2^32. */
  function ToUint32(x: nat): (r: uint32)
    ensures x < UINT32_LIMIT ==> r == x
    ensures (r - x) % UINT32_LIMIT == 0
  {
    x % UINT32_LIMIT
  }

  function Min(a: int, b: int): int { if a <= b then a else b }
  function Max(a: int, b: int): int { if a >= b then a else b }
}
