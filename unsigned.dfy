/** Fixed-width unsigned arithmetic used by the controllers and the timer. */
module Unsigned {

  const TWO_32: nat := 0x1_0000_0000
  const TWO_64: nat := 0x1_0000_0000_0000_0000

  /** C++ `unsigned int` on the target platforms. */
  type u32 = x: int | 0 <= x < 0x1_0000_0000

  /** C++ `uint64_t`. */
  type u64 = x: int | 0 <= x < 0x1_0000_0000_0000_0000

  /** `a - b` on `uint64_t`: wraps around when `b` is larger. */
  function Sub64(a: u64, b: u64): (r: u64)
    ensures b <= a ==> r == a - b
    ensures a < b ==> r == TWO_64 - (b - a)
    ensures (r + b) % TWO_64 == a
  {
    (a - b) % TWO_64
  }

  /** Reduction of a mathematical result to `unsigned int`. */
  function Wrap32(x: int): (r: u32)
    ensures 0 <= x < TWO_32 ==> r == x
    ensures (r - x) % TWO_32 == 0
  {
    x % TWO_32
  }

  /** `a * b` on `unsigned int`. */
  function Mul32(a: u32, b: u32): (r: u32)
    ensures a * b < TWO_32 ==> r == a * b
  {
    Wrap32(a * b)
  }

  /** `a - b` on `unsigned int`. */
  function Sub32(a: u32, b: u32): (r: u32)
    ensures b <= a ==> r == a - b
  {
    Wrap32(a - b)
  }
}
