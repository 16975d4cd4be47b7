/** The fixed-width integer types of the contract's interface, as subset types of `int`,
    and the 32-bit `usize` of the WebAssembly target the contract is compiled to. */
module Ints {

  const U32_MAX: int := 0xFFFF_FFFF
  const U64_MAX: int := 0xFFFF_FFFF_FFFF_FFFF
  const U128_MAX: int := 0xFFFF_FFFF_FFFF_FFFF_FFFF_FFFF_FFFF_FFFF

  /** `usize::MAX` on wasm32. */
  const USIZE_MAX: int := 0xFFFF_FFFF

  type U8 = x: int | 0 <= x < 0x100
  type U32 = x: int | 0 <= x <= U32_MAX
  type U64 = x: int | 0 <= x <= U64_MAX
  type U128 = x: int | 0 <= x <= U128_MAX

  /** Rust's `x as usize` on wasm32: keeps the low 32 bits. */
  function AsUsize(x: nat): (r: nat)
    ensures r <= USIZE_MAX
    ensures x <= USIZE_MAX ==> r == x
    ensures (r - x) % 0x1_0000_0000 == 0
  {
    x % 0x1_0000_0000
  }

  function Min(a: int, b: int): int {
    if a <= b then a else b
  }
}
