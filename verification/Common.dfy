/** Types and small functions that several modules share. */
module Common {
  datatype Option<T> = None | Some(value: T)

  type Byte = n: nat | n < 256
  type U32 = n: nat | n < 0x1_0000_0000
  type U64 = n: nat | n < 0x1_0000_0000_0000_0000
  type I32 = n: int | -0x8000_0000 <= n < 0x8000_0000

  function Bit(b: bool): nat { if b then 1 else 0 }

  /** The first `n` of a list, or all of it. */
  function FirstOf<T>(xs: seq<T>, n: nat): seq<T> { if |xs| <= n then xs else xs[..n] }
}
