/** Scalar types, the error enumeration and the result wrapper shared by the ledger and the contract. */
module Types {

  /** Largest value of a Rust `u64`. */
  const U64_MAX: int := 0xFFFF_FFFF_FFFF_FFFF

  /** A Rust `u64`; arithmetic is done on `int` and every overflow is checked explicitly. */
  type U64 = x: int | 0 <= x <= U64_MAX

  /** A Rust `u8`, also used for single bytes. */
  type U8 = x: int | 0 <= x < 256

  /** A bech32 account or contract address, compared as a string. */
  type Addr = string

  /**
   * A prize pool entry: (the depositor's address as the receive hook reports it, token id).
   * A claim sends its transfer to the first component as if it were the NFT contract.
   */
  type Prize = (string, string)

  /** A randomness value as stored by the contract: exactly 32 bytes. */
  type Randomness = s: seq<U8> | |s| == 32 witness seq(32, _ => 0)

  datatype Option<T> = None | Some(value: T)

  /**
   * The contract's error enumeration. `Std` stands for a storage load that found nothing,
   * `Panic` for a failed `assert!`, an `unwrap` of nothing, an arithmetic overflow or an
   * out-of-bounds `Vec::remove`: each aborts the transaction.
   */
  datatype ContractError =
    | Std
    | Unauthorized
    | InvalidProxyAddress
    | UnauthorizedReceive
    | JobIdAlreadyPresent
    | InvalidRandomness
    | NoRandomnessAvailable
    | Panic

  datatype Result<T> = Ok(value: T) | Err(error: ContractError)
}
