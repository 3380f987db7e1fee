/** The widths of the source's integers, with their wrap-around. */
module Integers {

  const TWO32: int := 0x1_0000_0000

  type Byte = n: int | 0 <= n < 256
  type Seq16 = n: int | 0 <= n < 65536
  type U32 = n: int | 0 <= n < 0x1_0000_0000
  type U64 = n: int | 0 <= n < 0x1_0000_0000_0000_0000

  /** `bigint` */
  type Id = n: int | -0x8000_0000_0000_0000 <= n < 0x8000_0000_0000_0000

  function Wrap16(n: int): Seq16 {
    n % 65536
  }

  function Wrap32(n: int): U32 {
    n % TWO32
  }

  function Signed16(n: int): int {
    var m := Wrap16(n);
    if m >= 0x8000 then m - 65536 else m
  }

  function Signed32(n: U32): int {
    if n >= 0x8000_0000 then n - TWO32 else n
  }

  function Min(a: int, b: int): int {
    if a < b then a else b
  }

  function Max(a: nat, b: nat): nat {
    if a < b then b else a
  }

  /** 1 for what happens, 0 for what does not. */
  function Once(b: bool): nat {
    if b then 1 else 0
  }
}
