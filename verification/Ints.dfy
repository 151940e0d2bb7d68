/** Fixed-width unsigned integers of the wire protocol and their wrap-around arithmetic. */
module Ints {

  type u8 = x: int | 0 <= x < 0x100
  type u16 = x: int | 0 <= x < 0x1_0000
  type u32 = x: int | 0 <= x < 0x1_0000_0000
  type u64 = x: int | 0 <= x < 0x1_0000_0000_0000_0000

  /** `a - b` on uint32_t. */
  function Sub32(a: u32, b: u32): u32 {
    (a - b) % 0x1_0000_0000
  }

  /** `++x` on uint32_t. */
  function Inc32(x: u32): u32 {
    (x + 1) % 0x1_0000_0000
  }

  /** `++x` on uint16_t. */
  function Inc16(x: u16): u16 {
    (x + 1) % 0x1_0000
  }

  function Min(a: int, b: int): int {
    if a < b then a else b
  }

  function Pow2(n: nat): (r: nat)
    ensures r >= 1
  {
    if n == 0 then 1 else 2 * Pow2(n - 1)
  }

  /** Quotient and remainder are unique. */
  lemma {:induction false} SameQuotient(n: nat, a: nat, r: nat, b: nat, t: nat)
    requires a * n + r == b * n + t && r < n && t < n
    ensures a == b && r == t
  {
    assert a * n == (a - 1) * n + n && b * n == (b - 1) * n + n;
    if a > 0 && b > 0 {
      SameQuotient(n, a - 1, r, b - 1, t);
    }
  }
}
