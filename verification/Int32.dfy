/** 32-bit two's-complement arithmetic with wrap-around and the total division of the RISC-V M extension. */
module Int32 {

  const MIN: int := -0x8000_0000
  const MAX: int := 0x7fff_ffff
  const MODULUS: int := 0x1_0000_0000

  type i32 = x: int | MIN <= x <= MAX

  /** The 32-bit word congruent to `x`, read as a signed number. */
  function Wrap(x: int): (r: i32)
    ensures MIN <= x <= MAX ==> r == x
  {
    var m := x % MODULUS;
    if m <= MAX then m else m - MODULUS
  }

  /** The same word read as an unsigned number. */
  function Unsigned(x: i32): (r: nat)
    ensures r < MODULUS
  {
    x % MODULUS
  }

  function Pow2(k: nat): (r: nat)
    ensures r > 0
  {
    if k == 0 then 1 else 2 * Pow2(k - 1)
  }

  /** Quotient rounded towards zero. */
  function TruncDiv(a: int, b: int): int
    requires b != 0
  {
    if a >= 0 then (if b > 0 then a / b else -(a / -b))
    else (if b > 0 then -(-a / b) else -a / -b)
  }

  function TruncRem(a: int, b: int): int
    requires b != 0
  {
    a - b * TruncDiv(a, b)
  }

  /** `div` of section 7.2 of the RISC-V Unprivileged ISA (20191213). */
  function Div(a: i32, b: i32): i32 {
    if b == 0 then -1 else if a == MIN && b == -1 then MIN else Wrap(TruncDiv(a, b))
  }

  /** `rem` of the same section. */
  function Rem(a: i32, b: i32): i32 {
    if b == 0 then a else if a == MIN && b == -1 then 0 else Wrap(TruncRem(a, b))
  }

  /** Bitwise conjunction of two unsigned numbers. */
  function AndNat(a: nat, b: nat): nat {
    if a == 0 || b == 0 then 0 else (a % 2) * (b % 2) + 2 * AndNat(a / 2, b / 2)
  }

  function And(a: i32, b: i32): i32 {
    Wrap(AndNat(Unsigned(a), Unsigned(b)))
  }

  /** Logical left shift. */
  function Shl(a: i32, k: nat): i32 {
    Wrap(a * Pow2(k))
  }

  /** Arithmetic right shift: the floor of the quotient by a power of two. */
  function Shr(a: i32, k: nat): i32 {
    Wrap(a / Pow2(k))
  }

  /** Logical right shift. */
  function ShrLogical(a: i32, k: nat): i32 {
    Wrap(Unsigned(a) / Pow2(k))
  }

  function Bool(b: bool): i32 {
    if b then 1 else 0
  }
}
