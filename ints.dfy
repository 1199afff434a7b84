/**
 * Fixed-width integers of the binding and the casts it performs.
 * Rust's `as` between integer types keeps the low bits; `WrapI32` writes that out.
 */
module Ints {

  type u8 = x: int | 0 <= x < 0x100
  type u16 = x: int | 0 <= x < 0x1_0000
  type u32 = x: int | 0 <= x < 0x1_0000_0000
  type u64 = x: int | 0 <= x < 0x1_0000_0000_0000_0000
  type i32 = x: int | -0x8000_0000 <= x < 0x8000_0000
  /** Rust's pointer-sized `int` and `uint` on a 64-bit host. */
  type i64 = x: int | -0x8000_0000_0000_0000 <= x < 0x8000_0000_0000_0000
  type uint = u64

  /** `x as i32`: the value congruent to `x` modulo 2^32 in the i32 range. */
  function WrapI32(x: int): (r: i32)
    ensures (r - x) % 0x1_0000_0000 == 0
    ensures -0x8000_0000 <= x < 0x8000_0000 ==> r == x
  {
    (x + 0x8000_0000) % 0x1_0000_0000 - 0x8000_0000
  }

  /** `f` is the C truth value of `b`: 1 for true, 0 for false. */
  predicate TruthValue(f: int, b: bool) {
    (f == 0 || f == 1) && (f != 0 <==> b)
  }

  /** `b as i32` for a bool: the C truth value the transport expects. */
  function BoolFlag(b: bool): (r: i32)
    ensures TruthValue(r, b)
  {
    if b then 1 else 0
  }
}
