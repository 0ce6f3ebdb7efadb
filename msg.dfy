/** Messages the contract receives and the response it returns. */
module Msg {
  import opened Types

  /** Who sent the transaction; attached funds are not modelled. */
  datatype MessageInfo = MessageInfo(sender: Addr)

  datatype InstantiateMsg = InstantiateMsg(noisProxy: string, prizeCost: U64, shortDescription: string, name: string)

  /**
   * The cw721 receive hook: `sender` is the account that called `send_nft` on the NFT contract,
   * `tokenId` the token. The NFT contract itself is the caller of the hook, not a field here.
   */
  datatype Cw721ReceiveMsg = Cw721ReceiveMsg(sender: string, tokenId: string)

  /** The randomness oracle's callback; `randomness` is an arbitrary byte string until checked. */
  datatype NoisCallback = NoisCallback(jobId: string, randomness: seq<U8>)

  datatype ExecuteMsg =
    | Cw721Receive(receive: Cw721ReceiveMsg)
    | ClaimPrize(claimant: Addr)
    | NoisReceive(callback: NoisCallback)
    | SetAdmin(newAdmin: Addr)
    | SetPrizeCost(cost: U64)

  /** Which balance a single-account query selects. */
  datatype BalanceKind = Lifetime | Spent

  /** A cw721 `TransferNft` executed on contract `contractAddr`. */
  datatype CosmosMsg = TransferNft(contractAddr: string, tokenId: string, recipient: string)

  /** The messages a transaction emits; attributes are not modelled. */
  datatype Response = Response(messages: seq<CosmosMsg>)
}
