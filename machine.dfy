/**
 * Fixed-width integers of the .NET runtime: `int` (32-bit two's complement),
 * `byte`, and the unchecked arithmetic C# performs on them.
 */
module Machine {

  const TWO_32: int := 0x1_0000_0000
  const INT_MIN: int := -0x8000_0000
  const INT_MAX: int := 0x7FFF_FFFF

  newtype int32 = x: int | -0x8000_0000 <= x < 0x8000_0000
  newtype byte = x: int | 0 <= x < 0x100

  /** The value C#'s unchecked `int` arithmetic keeps of a mathematical result. */
  function Wrap(x: int): (r: int32)
    ensures (r as int - x) % TWO_32 == 0
    ensures INT_MIN <= x <= INT_MAX ==> r as int == x
  {
    var u := x % TWO_32;
    if u < 0x8000_0000 then u as int32 else (u - TWO_32) as int32
  }

  /** C#'s `%` on `int`: the remainder takes the sign of the dividend (truncated division). */
  function TruncRem(a: int, m: int): (r: int)
    requires m > 0
    ensures a >= 0 ==> r >= 0
    ensures a < 0 ==> r <= 0
    ensures Abs(r) == Abs(a) % m
  {
    if a >= 0 then a % m else -((-a) % m)
  }

  function Abs(x: int): (r: nat)
    ensures r == x || r == -x
  {
    if x < 0 then -x else x
  }

  /** The `int` whose two's-complement bit pattern is `b` (an `unchecked` cast from `uint`). */
  function FromBits(b: bv32): int32
  {
    if b < 0x8000_0000 then b as int as int32 else (b as int - TWO_32) as int32
  }

  /** C#'s `>>` on a signed `int`: bits `n..31` of `b` move down to `0..31-n`. */
  function ShiftRightArithmetic(b: bv32, n: bv32): (r: bv32)
    requires n < 32
    ensures r & (0xFFFF_FFFF >> n) == b >> n
  {
    if b & 0x8000_0000 == 0 then b >> n else (b >> n) | !(0xFFFF_FFFF >> n)
  }

  /** The top `n + 1` bits of an arithmetic shift are all copies of the sign bit. */
  lemma ShiftRightArithmeticSignFill(b: bv32, n: bv32)
    requires n < 32
    ensures b & 0x8000_0000 == 0 ==> ShiftRightArithmetic(b, n) >> (31 - n) == 0
    ensures b & 0x8000_0000 != 0 ==> ShiftRightArithmetic(b, n) >> (31 - n) == 0xFFFF_FFFF >> (31 - n)
  {
  }

}
