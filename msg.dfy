/**
 * The messages the contract accepts and emits (msg.rs). Addresses are opaque
 * strings that the host has already validated.
 */
module Msg {
  import opened Uint

  type Addr = string

  /** cosmwasm_std::Binary: an opaque payload. */
  type Binary = seq<Byte>

  /** A governance item (`DaoItem`): a named page of content. */
  datatype Item = Item(name: string, contents: string)

  datatype ProposeAction =
    | ChangeQuorum(newQuorum: Uint128)
    | ChangeProposalCost(newProposalCost: Uint128)
    | AddItem(item: Item)
    | RemoveItem(id: nat)

  datatype ProposeMsg = ProposeMsg(title: string, body: string, action: ProposeAction)

  datatype VotePosition = Yes | No | Abstain

  datatype VoteMsg = VoteMsg(proposalId: nat, position: VotePosition, amount: Uint128)

  datatype WithdrawVoteMsg = WithdrawVoteMsg(proposalId: nat)

  /** cw20::Cw20Coin: one initial balance. */
  datatype Coin = Coin(address: Addr, amount: Uint128)

  datatype TokenInstantiateInfo = TokenInstantiateInfo(
    name: string, symbol: string, decimals: Byte, initialBalances: seq<Coin>)

  datatype InstantiateMsg = InstantiateMsg(
    quorum: Uint128, proposalCost: Uint128, tokenInfo: TokenInstantiateInfo)

  datatype ExecuteMsg =
    | Withdraw(withdraw: WithdrawVoteMsg)
    | Transfer(recipient: Addr, amount: Uint128)
    | Burn(amount: Uint128)
    | Send(contract: Addr, amount: Uint128, msg: Binary)
    | Propose(propose: ProposeMsg)
    | Vote(vote: VoteMsg)

  datatype QueryMsg =
    | ListProposals
    | GetProposal(proposalId: nat)
    | ListItems
    | GetItem(itemId: nat)
    | GetQuorum
    | GetProposalCost
    | GetBalance(address: Addr)
    | GetTokenInfo

  /** cw20::Cw20ReceiveMsg: what a `Send` delivers to its recipient. */
  datatype Cw20ReceiveMsg = Cw20ReceiveMsg(sender: Addr, amount: Uint128, msg: Binary)

  /** The `WasmMsg::Execute` a `Send` emits: a receive message addressed to a contract. */
  datatype Notification = Notification(contractAddr: Addr, receive: Cw20ReceiveMsg)

  /** A `Response`, reduced to its sub-messages (attributes are not modelled). */
  datatype Response = Response(messages: seq<Notification>)

  /** The older vote message of the notify-and-decode variant: no amount. */
  datatype LegacyVoteMsg = LegacyVoteMsg(proposalId: nat, position: VotePosition)

  /** The payload of a notification to the older variant. */
  datatype TokenMsg = TokenPropose(propose: ProposeMsg) | TokenVote(vote: LegacyVoteMsg)
}
