/** Fixed-width integers and the conversions the firmware's C relies on. */
module MachineInts {
  type U8 = x: int | 0 <= x < 0x100
  type U16 = x: int | 0 <= x < 0x1_0000
  type U32 = x: int | 0 <= x < 0x1_0000_0000
  type I8 = x: int | -0x80 <= x < 0x80
  type I16 = x: int | -0x8000 <= x < 0x8000

  function WrapU16(x: int): U16 { x % 0x1_0000 }

  function WrapU32(x: int): U32 { x % 0x1_0000_0000 }

  function WrapI16(x: int): I16 { (x + 0x8000) % 0x1_0000 - 0x8000 }

  function WrapI8(x: int): I8 { (x + 0x80) % 0x100 - 0x80 }

  /** Division as C does it: the quotient is truncated toward zero. */
  function TruncDiv(a: int, b: int): int
    requires b > 0
  {
    if a >= 0 then a / b else -((-a) / b)
  }

  function Abs(x: int): nat { if x < 0 then -x else x }

  function Clamp(x: int, lo: int, hi: int): int {
    if x < lo then lo else if x > hi then hi else x
  }
}
