// Arithmetic of the multiply and divide instructions, and C's signed division.

module Alu {
  import opened Words

  datatype HiLo = HiLo(hi: u32, lo: u32)

  function Abs(x: int): nat {
    if x < 0 then -x else x
  }

  // C's / and % truncate toward zero.
  function TruncDiv(a: int, b: int): int
    requires b != 0
  {
    if (a < 0) == (b < 0) then Abs(a) / Abs(b) else -(Abs(a) / Abs(b))
  }

  function TruncMod(a: int, b: int): int
    requires b != 0
  {
    if a < 0 then -(Abs(a) % Abs(b)) else Abs(a) % Abs(b)
  }

  function SplitProduct(p: u64): HiLo {
    HiLo(p / 0x1_0000_0000, p % 0x1_0000_0000)
  }

  // The 64-bit products, wrapping as u64 multiplication does.
  function MultProduct(a: u32, b: u32): u64 {
    SignExt32To64(a) * SignExt32To64(b) % 0x1_0000_0000_0000_0000
  }

  function MultuProduct(a: u32, b: u32): u64 {
    a as int * b as int % 0x1_0000_0000_0000_0000
  }

  function Mult(a: u32, b: u32): HiLo {
    SplitProduct(MultProduct(a, b))
  }

  function Multu(a: u32, b: u32): HiLo {
    SplitProduct(MultuProduct(a, b))
  }

  function Div(a: u32, b: u32): HiLo {
    var dividend, divisor := Signed(a), Signed(b);
    if divisor == 0 then
      HiLo(Wrap(dividend), if dividend < 0 then 0x0000_0001 else UINT32_MAX)
    else if a == 0x8000_0000 && b == UINT32_MAX then
      HiLo(0, Wrap(dividend))
    else
      HiLo(Wrap(TruncMod(dividend, divisor)), Wrap(TruncDiv(dividend, divisor)))
  }

  function Divu(a: u32, b: u32): HiLo {
    if b == 0 then HiLo(a, UINT32_MAX)
    else
      DivLe(a, b);
      HiLo(a % b, a / b)
  }
}
