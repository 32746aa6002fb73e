/**
 * The contract's entry points (contract.rs): instantiation, the execute
 * dispatcher and the read-only queries.
 */
module Contract {
  import opened Uint
  import opened Errors
  import opened Msg
  import opened State
  import Tokens
  import Actions

  /**
   * What `instantiate` does to storage `w`: validate the token metadata,
   * create the initial accounts (the supply is their sum), require a
   * quorum between 1 and that supply, then save the token info, the
   * configuration and empty proposal and item lists.
   */
  function Instantiation(w: World, msg: InstantiateMsg): (r: Result<World>)
    ensures Tokens.Validation(msg.tokenInfo).Err? ==> r == Tokens.Validation(msg.tokenInfo).PropagateFailure()
    ensures r.Ok? <==>
      && Tokens.Validation(msg.tokenInfo).Ok?
      && Tokens.AmountSum(msg.tokenInfo.initialBalances) < TWO_128
      && 0 < msg.quorum <= Tokens.AmountSum(msg.tokenInfo.initialBalances)
    ensures Tokens.Validation(msg.tokenInfo).Ok? && Tokens.AmountSum(msg.tokenInfo.initialBalances) >= TWO_128 ==>
      r == Err(Panicked(AddOverflow))
    ensures (&& Tokens.Validation(msg.tokenInfo).Ok?
             && Tokens.AmountSum(msg.tokenInfo.initialBalances) < TWO_128
             && !(0 < msg.quorum <= Tokens.AmountSum(msg.tokenInfo.initialBalances))) ==>
      r == Err(InvalidQuorum)
    ensures r.Ok? ==>
      && r.value.config == Config(msg.quorum, msg.proposalCost)
      && r.value.proposals == [] && r.value.items == []
      && r.value.ledger.info == TokenInfo(msg.tokenInfo.name, msg.tokenInfo.symbol, msg.tokenInfo.decimals,
           Tokens.AmountSum(msg.tokenInfo.initialBalances))
      && Tokens.OpenAccounts(w.ledger.balances, msg.tokenInfo.initialBalances).Ok?
      && r.value.ledger.balances == Tokens.OpenAccounts(w.ledger.balances, msg.tokenInfo.initialBalances).value.0
  {
    Tokens.OpenAccountsSupply(w.ledger.balances, msg.tokenInfo.initialBalances);
    var valid :- Tokens.Validation(msg.tokenInfo);
    var accounts :- Tokens.OpenAccounts(w.ledger.balances, msg.tokenInfo.initialBalances);
    var totalSupply := accounts.1;
    if msg.quorum == 0 || msg.quorum > totalSupply then Err(InvalidQuorum)
    else
      var info := TokenInfo(msg.tokenInfo.name, msg.tokenInfo.symbol, msg.tokenInfo.decimals, totalSupply);
      Ok(World(Ledger(accounts.0, info), Config(msg.quorum, msg.proposalCost), [], []))
  }

  /** `instantiate`. */
  method Instantiate(deps: Storage, msg: InstantiateMsg) returns (r: Result<Response>)
    modifies deps
    ensures r == Instantiation(old(deps.Snapshot()), msg).Replace(Response([]))
    ensures deps.Snapshot() == Commit(old(deps.Snapshot()), Instantiation(old(deps.Snapshot()), msg))
  {
    var saved := deps.Snapshot();
    var valid := Tokens.Validate(msg.tokenInfo);
    if valid.Err? {
      return Err(valid.error);
    }
    var created := Tokens.CreateAccounts(deps, msg.tokenInfo.initialBalances);
    if created.Err? {
      return Err(created.error);
    }
    var totalSupply := created.value;
    if msg.quorum == 0 || msg.quorum > totalSupply {
      deps.Rollback(saved);
      return Err(InvalidQuorum);
    }
    deps.tokenInfo := TokenInfo(msg.tokenInfo.name, msg.tokenInfo.symbol, msg.tokenInfo.decimals, totalSupply);
    deps.state := Config(msg.quorum, msg.proposalCost);
    deps.proposals := [];
    deps.items := [];
    return Ok(Response([]));
  }

  /** A ledger operation's outcome as an outcome for the whole storage. */
  function OnLedger(w: World, r: Result<Ledger>): Result<World> {
    if r.Ok? then Ok(w.(ledger := r.value)) else Err(r.error)
  }

  /** The storage effect of `execute`: each message goes to its handler. */
  function Dispatch(w: World, contract: Addr, sender: Addr, msg: ExecuteMsg): Result<World> {
    match msg
    case Withdraw(withdraw) => Actions.Withdraw(w, contract, sender, withdraw)
    case Transfer(recipient, amount) => OnLedger(w, Tokens.Transfer(w.ledger, sender, recipient, amount))
    case Burn(amount) => OnLedger(w, Tokens.Burn(w.ledger, sender, amount))
    case Send(recipient, amount, _) => OnLedger(w, Tokens.Transfer(w.ledger, sender, recipient, amount))
    case Propose(propose) => Actions.Propose(w, contract, sender, propose)
    case Vote(vote) => Actions.Vote(w, contract, sender, vote)
  }

  /** The messages a successful `execute` emits: only a send notifies anyone. */
  function Reply(sender: Addr, msg: ExecuteMsg): Response {
    if msg.Send? then Response([Notification(msg.contract, Cw20ReceiveMsg(sender, msg.amount, msg.msg))])
    else Response([])
  }

  /** `execute`: the handler's outcome, with all of a failed call's writes undone. */
  method Execute(deps: Storage, contract: Addr, sender: Addr, msg: ExecuteMsg) returns (r: Result<Response>)
    modifies deps
    ensures r == Dispatch(old(deps.Snapshot()), contract, sender, msg).Replace(Reply(sender, msg))
    ensures deps.Snapshot() == Commit(old(deps.Snapshot()), Dispatch(old(deps.Snapshot()), contract, sender, msg))
  {
    match msg {
      case Withdraw(withdraw) =>
        r := Actions.HandleWithdrawal(deps, contract, sender, withdraw);
      case Transfer(recipient, amount) =>
        r := Tokens.ExecuteTransfer(deps, sender, recipient, amount);
      case Burn(amount) =>
        r := Tokens.ExecuteBurn(deps, sender, amount);
      case Send(recipient, amount, payload) =>
        r := Tokens.ExecuteSend(deps, sender, recipient, amount, payload);
      case Propose(propose) =>
        r := Actions.HandlePropose(deps, contract, sender, propose);
      case Vote(vote) =>
        r := Actions.HandleVote(deps, contract, sender, vote);
    }
  }

  /** What a query returns, before it is serialized. */
  datatype QueryResponse =
    | ProposalList(proposals: seq<Proposal>)
    | ProposalInfo(proposal: Proposal)
    | ItemList(items: seq<Item>)
    | ItemInfo(item: Item)
    | Amount(amount: Uint128)
    | BalanceInfo(balance: Uint128)
    | TokenInfoResponse(info: TokenInfo)

  /**
   * `query`: a read of storage. Only a proposal or item id past the end of
   * its list fails; an address with no balance reads as 0.
   */
  function Query(w: World, msg: QueryMsg): (r: Result<QueryResponse>)
    ensures r.Err? <==>
      (msg.GetProposal? && msg.proposalId >= |w.proposals|) || (msg.GetItem? && msg.itemId >= |w.items|)
    ensures msg.GetProposal? ==>
      r == if msg.proposalId < |w.proposals| then Ok(ProposalInfo(w.proposals[msg.proposalId]))
           else Err(NotFound(ProposalId, msg.proposalId))
    ensures msg.GetItem? ==>
      r == if msg.itemId < |w.items| then Ok(ItemInfo(w.items[msg.itemId])) else Err(NotFound(ItemId, msg.itemId))
    ensures msg.GetBalance? && msg.address !in w.ledger.balances ==> r == Ok(BalanceInfo(0))
  {
    match msg
    case ListProposals => Ok(ProposalList(w.proposals))
    case GetProposal(id) =>
      if id < |w.proposals| then Ok(ProposalInfo(w.proposals[id])) else Err(NotFound(ProposalId, id))
    case ListItems => Ok(ItemList(w.items))
    case GetItem(id) =>
      if id < |w.items| then Ok(ItemInfo(w.items[id])) else Err(NotFound(ItemId, id))
    case GetQuorum => Ok(Amount(w.config.quorum))
    case GetProposalCost => Ok(Amount(w.config.proposalCost))
    case GetBalance(address) => Ok(BalanceInfo(Tokens.BalanceOf(w.ledger, address)))
    case GetTokenInfo => Ok(TokenInfoResponse(w.ledger.info))
  }
}
