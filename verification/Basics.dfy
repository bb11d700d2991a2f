/** Small vocabulary shared by every component: optional values, results and
    machine-width integers. */
module Basics {
  datatype Option<+T> = None | Some(value: T) {
    function GetOr(default: T): T {
      match this
      case Some(v) => v
      case None => default
    }
  }

  datatype Result<+T, +E> = Ok(value: T) | Err(error: E)

  const POW_8 := 0x100
  const POW_16 := 0x1_0000
  const POW_32 := 0x1_0000_0000
  const POW_64 := 0x1_0000_0000_0000_0000

  type byte = x: int | 0 <= x < 0x100
  type u16 = x: int | 0 <= x < 0x1_0000
  type u64 = x: int | 0 <= x < 0x1_0000_0000_0000_0000

  type Bytes = seq<byte>

  function Zeros(n: nat): Bytes {
    seq(n, i => 0)
  }

  function Min(a: int, b: int): int {
    if a <= b then a else b
  }

  function Max(a: int, b: int): int {
    if a >= b then a else b
  }

  // The last `n` elements, or all of them.
  function LastOf<T>(s: seq<T>, n: nat): seq<T> {
    if |s| <= n then s else s[|s| - n..]
  }

  // Rust's `saturating_sub` on unsigned integers.
  function SatSub(a: nat, b: nat): nat {
    if a >= b then a - b else 0
  }
}
