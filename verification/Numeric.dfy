/** Checked integer arithmetic: in the contracts an overflow or underflow reverts. */
module Numeric {
  import opened Wrappers

  const MAX_UINT32 := 0xffff_ffff
  const MAX_UINT64 := 0xffff_ffff_ffff_ffff
  const MAX_UINT256 := 0xffff_ffff_ffff_ffff_ffff_ffff_ffff_ffff_ffff_ffff_ffff_ffff_ffff_ffff_ffff_ffff

  type Byte = b: nat | b < 256

  type Uint256 = n: nat | n <= MAX_UINT256

  /** A uint64 result, or the panic that Solidity raises. */
  function Checked64<E>(x: int, panic: E): Result<nat, E> {
    if 0 <= x <= MAX_UINT64 then Ok(x) else Revert(panic)
  }

  /** A uint256 result, or the panic that Solidity raises. */
  function Checked256<E>(x: int, panic: E): Result<nat, E> {
    if 0 <= x <= MAX_UINT256 then Ok(x) else Revert(panic)
  }

  function Min(a: nat, b: nat): nat {
    if a <= b then a else b
  }

  function AbsDiff(a: nat, b: nat): nat {
    if a > b then a - b else b - a
  }
}
