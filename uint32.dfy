/**
 * Unsigned 32-bit machine arithmetic, as C++ `uint32_t` performs it.
 * Dafny integers are unbounded, so the wrap-around of `+` is written out.
 */
module UInt32 {

  /** 2^32: the number of values a `uint32_t` can hold. */
  const MOD: int := 0x1_0000_0000

  /** A `uint32_t` value. */
  type u32 = x: int | 0 <= x < MOD

  /** The largest `uint32_t`, 0xFFFFFFFF. */
  const MAX: u32 := 0xFFFF_FFFF

  /** `a + b` on `uint32_t`: the sum modulo 2^32. */
  function Add(a: u32, b: u32): (r: u32)
    ensures a + b < MOD ==> r == a + b
    ensures MOD <= a + b ==> r == a + b - MOD && r < a && r < b
  {
    (a + b) % MOD
  }

  /** `std::min(a, b)`: returns `a` unless `b < a`. */
  function Min(a: u32, b: u32): (r: u32)
    ensures r <= a && r <= b
    ensures r == a || r == b
  {
    if b < a then b else a
  }
}
