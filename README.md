# item-dao in Dafny

A model of the item-dao CosmWasm contract. The contract is a small DAO with
its own cw20-style token. Holders stake tokens to propose a change or to vote
on one. A proposal resolves when the total stake reaches the quorum. Then its
action runs (change the quorum, change the proposal cost, add an item or
remove an item). The proposer's cost and every stake are refunded.

The model follows the code:

- **`uint.dfy`, `errors.dfy`, `msg.dfy`:** `Uint128`, the error type with a
  failure-compatible `Result`, and the messages. Panics count as errors:
  the host rolls a panicking call back like any failed call.
- **`utf8.dfy`:** the UTF-8 encoding of a string. Name and symbol lengths
  are byte lengths.
- **`state.dfy`:** the configuration and the proposal with its three stake
  lists. Also the helpers the actions call on a proposal (`new`,
  `add_vote`, `get_votes`, `get_total_votes`). The class `Storage` has one
  field per storage item. The older single-counter proposal and its storage
  serve `receive.rs`.
- **`tokens.dfy`:** the ledger. It covers validation (the symbol check is
  the byte loop of `is_valid_symbol`), account creation, transfer, burn,
  send and the balance query. Each entry point is a method that updates
  the storage fields step by step. It is proved equal to a function on the
  stored value (`Transfer`, `Burn`, `OpenAccounts`).
- **`actions.dfy`:** propose, vote, completion and withdrawal, as methods
  on the storage. Each is proved equal to a specification function
  (`Propose`, `Vote`, `Complete`, `Withdraw`). The refund loop and the
  withdrawal loop are loops with invariants.
- **`contract.dfy`:** `instantiate`, the `execute` dispatcher and `query`.
- **`invariants.dfy`:** the contract invariant and that every call
  preserves it. The invariant has three parts. The balances add up to the
  total supply. The contract is neither a proposer nor a voter of any
  proposal, and every pending proposal's cost is positive. The contract
  holds at least every cost and stake it owes back. This file also proves that resolved proposals are final and
  says when a resolving vote succeeds.
- **`receive.dfy`:** the older notify-and-decode variant (`handle_receive`).
- **`scenarios.dfy`:** the contract's own test scenarios, replayed on the
  model.

The model follows the code in these places, where its behaviour is easy to
miss:

- **Vote error order.** A vote transfers its stake before it looks up the
  proposal. A zero or unaffordable stake therefore fails with
  `InvalidZeroAmount` or a subtraction overflow, even for an id that does
  not exist or a proposal already resolved.
- **Withdrawal with nothing staked.** It fails with `InvalidZeroAmount`,
  because it transfers a zero sum.
- **Zero refunds.** A withdrawal leaves zero-amount entries in the stake
  lists. Refunds are ordinary transfers, and a zero transfer is rejected.
  So once any vote on a proposal has been withdrawn, every vote that would
  resolve that proposal fails (`Actions.ZeroStakeBlocksResolution`).
- **A failed proposal's action still runs.** The message documentation
  says the action runs should the proposal pass. But completion applies it
  once the proposal is resolved either way, Passed or Failed
  (`dao/src/actions.rs:109-136`). So a proposal voted down at quorum still
  adds or removes its item or changes the configuration
  (`Scenarios.ResolvingVotes`, the 97-token No vote).
- **The contract's balance.** Anyone can transfer tokens to the contract's
  address. So its balance is only bounded below by what it owes back
  (`Invariants.Inv`); it is not equal to it.

## Model

| member | source | states |
|---|---|---|
| State.NewProposal | dao/src/actions.rs:23-26 | a new proposal is Pending with nothing staked, and records its title, body, action, proposer and cost |
| State.AddVote | dao/src/actions.rs:67 | the stake is appended to the chosen position only; that position's total and the overall total grow by the amount; status, action, proposer and cost are unchanged |
| State.FromProposeMsg | dao/src/state.rs:43-56 | the older proposal starts Pending with three zero tallies and copies title, body and action |
| Tokens.BalanceOf | dao/src/tokens.rs:147-153 | the stored balance, or 0 for an address without one |
| Tokens.SymbolIsAscii | dao/src/tokens.rs:176-187 | checking the symbol's bytes is the same as checking its characters: 3 to 12 characters, each `-` or an ASCII letter |
| Tokens.IsValidSymbol | dao/src/tokens.rs:176-187 | the byte loop accepts exactly the valid symbols |
| Tokens.Validation | dao/src/tokens.rs:10-25 | validation succeeds iff the name has 3 to 50 UTF-8 bytes, the symbol is valid and the decimals are at most 18; the errors come in that order: name format, symbol format, then decimals too large |
| Tokens.Validate | dao/src/tokens.rs:10-25 | the imperative validation agrees with `Validation` |
| Tokens.OpenAccountsSupply | dao/src/tokens.rs:28-36 | the returned supply is the sum of the listed amounts; the only failure is the overflow panic, exactly when that sum reaches 2^128 |
| Tokens.OpenAccountsEntry | dao/src/tokens.rs:28-36 | each listed address ends up with the amount of its last row; every other address keeps its balance |
| Tokens.OpenAccountsDistinct | dao/src/tokens.rs:28-36 | from empty balances with distinct addresses, the balances add up to the returned supply |
| Tokens.DuplicateAddressBreaksSupply | dao/src/tokens.rs:28-36 | with a repeated address the supply counts both amounts but the balance keeps only the last one |
| Tokens.CreateAccounts | dao/src/tokens.rs:28-36 | the loop saves what `OpenAccounts` computes and returns its supply; on overflow the storage is unchanged |
| Tokens.Transfer | dao/src/tokens.rs:38-70 | zero fails with `InvalidZeroAmount`; a short balance fails with the subtraction's operands; on success the sender loses and the recipient gains the amount, nothing else changes, and a self-transfer is a no-op |
| Tokens.TransferConserves | dao/src/tokens.rs:38-70 | a transfer leaves the sum of all balances unchanged, so balances still add up to the supply |
| Tokens.ConsistentTransfer | dao/src/tokens.rs:58-62 | in a consistent ledger the recipient's addition cannot overflow: a transfer fails only for zero or a short balance |
| Tokens.Burn | dao/src/tokens.rs:72-101 | a burn succeeds iff the amount is positive and covered by both the balance and the supply; then both drop by the amount and no other balance changes |
| Tokens.BurnConserves | dao/src/tokens.rs:72-101 | a burn lowers the sum of balances and the supply by the same amount |
| Tokens.ExecuteTransfer | dao/src/tokens.rs:38-70 | the in-place transfer has the outcome of `Transfer` and leaves the storage it computes, or the old storage on failure |
| Tokens.ExecuteBurn | dao/src/tokens.rs:72-101 | the in-place burn has the outcome of `Burn` and storage to match |
| Tokens.ExecuteSend | dao/src/tokens.rs:103-145 | the balances move as for a transfer to the recipient contract; on success the response carries one notification with the sender, the amount and the payload |
| Actions.Propose | dao/src/actions.rs:15-33 | proposing fails exactly when paying the cost fails (always, for a zero cost); on success one Pending proposal by the sender is appended and earlier proposals are unchanged |
| Actions.HandlePropose | dao/src/actions.rs:15-33 | the in-place handler has the outcome and the storage of `Propose` |
| Actions.Tally | dao/src/actions.rs:69-80 | below quorum the proposal stays Pending; at quorum it passes iff Yes is strictly greater than No, so a tie fails; only the status changes |
| Actions.RemoveAt | dao/src/actions.rs:132 | removing an element shifts every later element down by one |
| Actions.ApplyAction | dao/src/actions.rs:111-136 | each action changes only its own part of the configuration or item list: the new quorum or cost, the item appended, or the item at the id removed with later items shifted down; removing an item past the end panics |
| Actions.Vote | dao/src/actions.rs:35-99 | the stake transfer fails first; then a missing id gives `NotFound` and a resolved proposal gives `VoteOnCompletedProposal`; otherwise the stake moves to the contract, only the voted proposal changes (to the tally of the stake added), and a vote that resolves it goes on to completion, whose action and refunds also change the ledger and the configuration or items; a vote that leaves it Pending changes nothing else |
| Actions.HandleVote | dao/src/actions.rs:35-99 | the in-place handler has the outcome and the storage of `Vote`, rolling back on a failure after the transfer |
| Actions.HandleProposalCompletion | dao/src/actions.rs:103-169 | on a resolved proposal, the action, proposer refund and stake refunds run in order with the outcome of `Complete` |
| Actions.RefundStakes | dao/src/actions.rs:151-166 | the refund loop has the outcome of refunding the stakes in order |
| Actions.Withdraw | dao/src/actions.rs:171-212 | a missing id, a resolved proposal or nothing staked fails; otherwise the sender's entries are zeroed and their sum goes back to the sender |
| Actions.ZeroStakes | dao/src/actions.rs:185-194 | the loop zeroes the voter's entries and adds their amounts, panicking exactly when the running sum overflows |
| Actions.HandleWithdrawal | dao/src/actions.rs:171-212 | the in-place handler has the outcome and the storage of `Withdraw` |
| Actions.ZeroedForSum | dao/src/actions.rs:185-194 | zeroing a voter's entries takes exactly their stake off the list and leaves them nothing |
| Actions.ZeroVoterTotals | dao/src/actions.rs:185-194 | after a withdrawal the voter has nothing staked and the proposal's total drops by what they had |
| Actions.WithdrawTwice | dao/src/actions.rs:171-212 | a second withdrawal from the same proposal fails with `InvalidZeroAmount` |
| Actions.RefundsNeedPositive | dao/src/actions.rs:151-166 | refunds succeed only if every stake is positive |
| Actions.RefundsEffect | dao/src/actions.rs:151-166 | after the refunds each address other than the contract has gained exactly its stake; the contract has paid the rest |
| Actions.RefundsConserve | dao/src/actions.rs:151-166 | refunds create and destroy no tokens |
| Actions.RefundsSucceed | dao/src/actions.rs:151-166 | refunds cannot fail in a consistent ledger when stakes are positive, are not the contract's own, and are covered by the contract's balance |
| Actions.CompleteRefunds | dao/src/actions.rs:103-169 | completion returns the cost to the proposer and every stake to its voter, paid by the contract; supply, token info and proposals are unchanged |
| Actions.ZeroStakeBlocksResolution | dao/src/actions.rs:151-166 | while a proposal holds a zero stake, every vote that would resolve it fails |
| Actions.StakeSurvivesVote | dao/src/actions.rs:67 | a vote removes no existing stake |
| Contract.Instantiation | dao/src/contract.rs:19-65 | instantiation succeeds iff the metadata is valid, the initial amounts sum below 2^128 and the quorum is between 1 and that sum; invalid metadata gives its validation error, a sum of 2^128 or more the addition panic, and a quorum of 0 or above the supply `InvalidQuorum`; it saves the configuration, the metadata with the inferred supply, and empty lists |
| Contract.Instantiate | dao/src/contract.rs:19-65 | the in-place instantiation has the outcome and the storage of `Instantiation` |
| Contract.Execute | dao/src/contract.rs:68-88 | each message reaches its handler; a failed call leaves storage unchanged; only a send emits a message |
| Contract.Query | dao/src/contract.rs:91-122 | queries fail only for a proposal or item id past the end; an absent address reads 0 |
| Invariants.InstantiateEstablishesInv | dao/src/contract.rs:27-36 | instantiating empty storage with distinct initial addresses establishes the invariant |
| Invariants.TransferPreservesInv | dao/src/tokens.rs:38-70 | a transfer by anyone but the contract keeps the invariant |
| Invariants.BurnPreservesInv | dao/src/tokens.rs:72-101 | a burn by anyone but the contract keeps the invariant |
| Invariants.ProposePreservesInv | dao/src/actions.rs:15-33 | proposing keeps the invariant; the contract's balance and the locked total both grow by the cost |
| Invariants.WithdrawPreservesInv | dao/src/actions.rs:171-212 | withdrawing keeps the invariant; the contract's balance and the locked total both drop by exactly the sender's stake |
| Invariants.VotePreservesInv | dao/src/actions.rs:35-99 | voting, including resolution and refunds, keeps the invariant |
| Invariants.CompletionPreservesInv | dao/src/actions.rs:103-169 | completing a resolved proposal whose cost and stakes are covered by the contract's balance keeps the invariant |
| Invariants.DispatchPreservesInv | dao/src/contract.rs:68-88 | every execute call by anyone but the contract keeps the invariant |
| Invariants.ResolvedIsFinal | dao/src/actions.rs:63-65 | no call removes a proposal or changes its title, body, action, proposer or cost; a resolved proposal never changes |
| Invariants.ResolvingVoteSucceeds | dao/src/actions.rs:35-99 | under the invariant, an affordable positive vote succeeds when every earlier stake is positive and the action can run |
| Invariants.CompletionSucceeds | dao/src/actions.rs:103-169 | completion succeeds in a consistent ledger when the contract covers the cost and stakes, all stakes are positive, and the action can run |
| Receive.LegacyPropose | dao/src/receive.rs:21-38 | a proposal is accepted iff the attached amount covers the cost; it is appended Pending with zero tallies |
| Receive.LegacyTally | dao/src/receive.rs:46-60 | only the voted tally grows; at quorum the status is recomputed even for a resolved proposal; tally overflow panics |
| Receive.LegacyVote | dao/src/receive.rs:40-74 | a missing id gives `NotFound`; otherwise only the voted proposal changes, as `LegacyTally` says |
| Receive.Receive | dao/src/receive.rs:13-76 | a payload that does not decode gives `ParseErr`; the configuration never changes |
| Receive.HandleReceive | dao/src/receive.rs:13-76 | the in-place handler has the outcome and the storage of `Receive` |
| Receive.PassedCanFlip | dao/src/receive.rs:8-12 | a large enough No vote turns a Passed proposal into a Failed one |
| Scenarios.InstantiationScenario | dao/src/contract.rs:137-217 | the test instantiation succeeds with exactly the given state; a zero quorum gives `InvalidQuorum` |
| Scenarios.MakeProposal | dao/src/contract.rs:220-279 | proposing leaves the proposer with 99999 and the contract with 1 |
| Scenarios.InsufficientTokenFunds | dao/src/contract.rs:317-357 | a proposer with no tokens gets the subtraction error with operands 0 and 100 |
| Scenarios.SetupNearPass | dao/src/contract.rs:359-453 | a 97-token Yes vote leaves the proposal Pending, with the holder at 99902 and the contract at 98 |
| Scenarios.ResolvingVotes | dao/src/contract.rs:456-651 | one more Yes, No or Abstain token passes the proposal, 97 No fails it; all tokens return and the item is added |
| Scenarios.VoteYesWithdraw | dao/src/contract.rs:654-695 | withdrawing returns the 97 tokens and leaves the proposal Pending with 0 on Yes |
| Scenarios.WithdrawAfterResolution | dao/src/contract.rs:701-755 | withdrawing from a resolved proposal gives `VoteOnCompletedProposal` |
| Scenarios.ListProposals | dao/src/contract.rs:758-852 | four proposals at cost 100 all succeed and the list query returns four |
| Scenarios.PassByYes | dao/src/contract.rs:855-1064 | a Yes stake that alone reaches the quorum passes a fresh proposal, runs its action and returns the cost and the stake |
| Scenarios.AddUnicornAction | dao/src/contract.rs:855-900 | the first passed proposal adds the unicorn item |
| Scenarios.AddCowAction | dao/src/contract.rs:902-952 | the second passed proposal appends the cow item; item 0 is still the unicorn item |
| Scenarios.RemoveItemAction | dao/src/contract.rs:954-998 | removing item 0 leaves only the cow item, now at index 0 |
| Scenarios.RaiseQuorumAction | dao/src/contract.rs:1000-1030 | a passed proposal sets the quorum to 1000 |
| Scenarios.RaiseCostAction | dao/src/contract.rs:1032-1063 | with a 1000-token stake to meet the new quorum, a passed proposal sets the proposal cost to 1000 |
| Scenarios.TokenQueries | dao/src/contract.rs:1067-1109 | the holder's balance is the supply; an unknown address reads 0 |
| Scenarios.TokenSetup | dao/src/contract.rs:1116-1140 | the token tests' instantiation gives the whole supply of 12340000 to one holder |
| Scenarios.TokenTransfer | dao/src/contract.rs:1142-1190 | a zero transfer fails with `InvalidZeroAmount`; an overdraft and a transfer from an empty account fail with the subtraction's operands; a valid transfer moves 76543, emits nothing and keeps the supply |
| Scenarios.TokenSend | dao/src/contract.rs:1193-1281 | the same failures as a transfer; a valid send moves the tokens and emits exactly one notification with the sender, the amount and the payload |
| Scenarios.TokenBurn | dao/src/contract.rs:1284-1350 | a zero burn and an overdraft fail and leave the supply; a valid burn lowers the balance and the supply by the amount |

## Left out

- Response attributes, JSON encoding of query results and of the send payload (`to_binary`, `into_binary`). A response is reduced to the messages it emits. A query returns the value it would encode.
- `set_contract_version` (cw2 metadata). It stores only the contract's name and version and touches none of the modelled state.
- `Env` and `MessageInfo` become parameters: the contract's own address and the sender. Attached native funds are not modelled. Addresses are taken as already validated strings.
- Storage reads that fail. Storage always holds a value: `State.Blank` before instantiation. A `load` on uninitialised storage is not modelled.
- `query_token_info` has no function of its own. `Contract.Query` returns the stored metadata directly.
- State.GetVotes: the vote totals are unbounded sums. The stake-list version of `state.rs` is not part of this model; its helpers (`Proposal::new`, `add_vote`, `get_votes`, `get_total_votes`) are defined from their uses in `actions.rs`. If those sums use `Uint128` addition, a panic above 2^128 - 1 is not modelled.
- Receive.Receive: decoding the payload (`from_binary`) is a function parameter that returns `None` for a payload that does not parse. JSON itself is not modelled.
- `receive.rs` is not declared in the crate's `lib.rs`. It is modelled as a separate older variant with its own storage (`State.LegacyStorage`), not reachable from `Contract.Execute`.
- `StdError::NotFound` messages are reduced to the kind of lookup and the id.
- The contract invariant is proved for calls whose sender is not the contract itself. In the model the contract never calls itself with its own address as sender.
