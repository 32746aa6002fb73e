/**
 * Fixed-width unsigned integers of the contract: `u8` for token decimals and
 * bytes, and cosmwasm's `Uint128` for every amount, modelled as naturals
 * below their bound. Arithmetic on them is done on `nat` and checked
 * explicitly against the bound where the source would overflow.
 */
module Uint {

  /** 2^128, one past the largest `Uint128`. */
  const TWO_128: nat := 0x1_0000_0000_0000_0000_0000_0000_0000_0000

  /** cosmwasm_std::Uint128. */
  type Uint128 = x: nat | x < TWO_128

  /** Rust `u8`. */
  type Byte = x: int | 0 <= x < 0x100
}
