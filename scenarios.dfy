/**
 * The contract's own test scenarios (contract.rs), replayed on the model:
 * one holder, "🦄", starts with 100000 tokens; a proposal costs 1 and the
 * quorum is 98; the contract's address is "cosmos2contract".
 */
module Scenarios {
  import opened Uint
  import opened Errors
  import opened Msg
  import opened State
  import Utf8
  import Tokens
  import Actions
  import Contract

  const Unicorn: Addr := "🦄"
  const Self: Addr := "cosmos2contract"

  /** The instantiation message of the scenarios: one holder owns the whole supply. */
  function Funding(quorum: Uint128, cost: Uint128, holder: Addr, amount: Uint128): InstantiateMsg {
    InstantiateMsg(quorum, cost, TokenInstantiateInfo("item-dao", "IDAO", 3, [Coin(holder, amount)]))
  }

  function Setup(quorum: Uint128, cost: Uint128, holder: Addr): InstantiateMsg {
    Funding(quorum, cost, holder, 100000)
  }

  const Unicorns: ProposeMsg := ProposeMsg(
    "🦄!",
    "everyone should use a unicorn emoji for their twitter profile!",
    AddItem(Item("unicorn emojis must be used for all profile photos", "unicorn emoji shall be defined as being 🦄")))

  /** The storage right after a successful instantiation with `Setup`. */
  function Instantiated(quorum: Uint128, cost: Uint128, holder: Addr): World {
    Funded(quorum, cost, holder, 100000)
  }

  /** The storage right after a successful instantiation with `Funding`. */
  function Funded(quorum: Uint128, cost: Uint128, holder: Addr, amount: Uint128): World {
    World(Ledger(map[holder := amount], TokenInfo("item-dao", "IDAO", 3, amount)), Config(quorum, cost), [], [])
  }

  /** Instantiating with one funded holder saves exactly the expected storage. */
  lemma FundedInstantiation(quorum: Uint128, cost: Uint128, holder: Addr, amount: Uint128)
    requires 0 < quorum <= amount
    ensures Contract.Instantiation(Blank, Funding(quorum, cost, holder, amount)) ==
      Ok(Funded(quorum, cost, holder, amount))
  {
    SetupValid(Funding(quorum, cost, holder, amount).tokenInfo);
    SingleAccount(holder, amount);
  }

  /** Creating one account holding `amount` from empty storage. */
  lemma SingleAccount(holder: Addr, amount: Uint128)
    ensures Tokens.AmountSum([Coin(holder, amount)]) == amount
    ensures Tokens.OpenAccounts(map[], [Coin(holder, amount)]) == Ok((map[holder := amount], amount))
  {
    var rows := [Coin(holder, amount)];
    assert rows[..0] == [];
  }

  /**
   * `valid_initialization` and `invalid_initialization`: a quorum between
   * 1 and the supply is accepted and everything is saved as given; a zero
   * quorum is refused.
   */
  lemma InstantiationScenario(quorum: Uint128, cost: Uint128, holder: Addr)
    ensures 0 < quorum <= 100000 ==>
      Contract.Instantiation(Blank, Setup(quorum, cost, holder)) == Ok(Instantiated(quorum, cost, holder))
    ensures quorum == 0 ==> Contract.Instantiation(Blank, Setup(quorum, cost, holder)) == Err(InvalidQuorum)
  {
    SetupValid(Setup(quorum, cost, holder).tokenInfo);
    SingleAccount(holder, 100000);
    if 0 < quorum <= 100000 {
      FundedInstantiation(quorum, cost, holder, 100000);
    }
  }

  /** The token metadata every scenario uses is valid. */
  lemma SetupValid(info: TokenInstantiateInfo)
    requires info.name == "item-dao" && info.symbol == "IDAO" && info.decimals == 3
    ensures Tokens.Validation(info) == Ok(())
  {
    var name := "item-dao";
    assert Utf8.Ascii(name) by {
      forall i | 0 <= i < |name| ensures name[i] as int < 0x80 {
      }
    }
    Utf8.AsciiEncode(name);
    var symbol := "IDAO";
    forall i | 0 <= i < |symbol|
      ensures Tokens.SymbolChar(symbol[i])
    {
    }
  }

  /** `setup_near_pass`, after the proposal: the proposer paid the cost. */
  function Proposed(): World {
    Instantiated(98, 1, Unicorn).(
      ledger := Ledger(map[Unicorn := 99999, Self := 1], TokenInfo("item-dao", "IDAO", 3, 100000)),
      proposals := [NewProposal(Unicorns, Unicorn, 1)])
  }

  /** `make_proposal`: proposing moves the cost to the contract and records a Pending proposal. */
  lemma MakeProposal()
    ensures Actions.Propose(Instantiated(98, 1, Unicorn), Self, Unicorn, Unicorns) == Ok(Proposed())
    ensures Contract.Query(Proposed(), GetBalance(Unicorn)) == Ok(Contract.BalanceInfo(99999))
  {
    var w := Instantiated(98, 1, Unicorn);
    assert Tokens.Transfer(w.ledger, Unicorn, Self, 1).value.balances == map[Unicorn := 99999, Self := 1];
  }

  /**
   * `insufficent_token_funds`: a proposer with no tokens fails on the cost
   * transfer with the checked subtraction's operands.
   */
  lemma InsufficientTokenFunds()
    ensures Actions.Propose(Instantiated(99, 100, "awallet"), Self, Unicorn, Unicorns) == Err(Overflow(Sub, 0, 100))
  {
  }

  /** `setup_near_pass`, after the 97-token Yes vote. */
  function NearPass(): World {
    var p := NewProposal(Unicorns, Unicorn, 1).(yes := [Stake(Unicorn, 97)]);
    Proposed().(
      ledger := Ledger(map[Unicorn := 99902, Self := 98], TokenInfo("item-dao", "IDAO", 3, 100000)),
      proposals := [p])
  }

  /** `setup_near_pass`: a 97-token Yes vote stays below the quorum of 98. */
  lemma SetupNearPass()
    ensures Actions.Vote(Proposed(), Self, Unicorn, VoteMsg(0, Yes, 97)) == Ok(NearPass())
    ensures NearPass().proposals[0].status == Pending && GetVotes(NearPass().proposals[0], Yes) == 97
  {
    var w := Proposed();
    var l1 := Tokens.Transfer(w.ledger, Unicorn, Self, 97).value;
    assert l1.balances == map[Unicorn := 99902, Self := 98];
    var p1 := AddVote(w.proposals[0], Unicorn, Yes, 97);
    assert [Stake(Unicorn, 97)][..0] == [];
    assert GetTotalVotes(p1) == 97;
    assert p1 == NearPass().proposals[0];
    assert Actions.Tally(p1, 98) == p1;
    assert w.proposals[0 := p1] == [p1];
    assert l1 == NearPass().ledger;
  }

  /**
   * The votes that reach quorum from `NearPass`: one more Yes passes, one No
   * still passes (97 against 1), 97 No fails (a tie), one Abstain passes.
   * Each time every token comes back to the voter.
   */
  lemma ResolvingVotes(w0: World, position: VotePosition, amount: Uint128)
    requires w0 == NearPass()
    requires amount == 1 || (position == No && amount == 97)
    ensures Actions.Vote(w0, Self, Unicorn, VoteMsg(0, position, amount)).Ok?
    ensures var w := Actions.Vote(w0, Self, Unicorn, VoteMsg(0, position, amount)).value;
      && w.proposals[0].status == (if position == No && amount == 97 then Failed else Passed)
      && Tokens.BalanceOf(w.ledger, Unicorn) == 100000
      && Tokens.BalanceOf(w.ledger, Self) == 0
      && w.items == [Unicorns.action.item]
  {
    var w := w0;
    var l1 := Tokens.Transfer(w.ledger, Unicorn, Self, amount).value;
    assert l1.balances == map[Unicorn := 99902 - amount, Self := 98 + amount];
    var p1 := ResolvingTally(position, amount);
    var w1 := w.(ledger := l1, proposals := w.proposals[0 := p1]);
    ResolvingCompletion(w1, p1, amount);
    assert Actions.Vote(w, Self, Unicorn, VoteMsg(0, position, amount)) == Actions.Complete(w1, Self, p1);
  }

  /** Completing the resolved proposal adds the item and returns cost and stakes. */
  lemma ResolvingCompletion(w1: World, p1: Proposal, amount: Uint128)
    requires amount == 1 || amount == 97
    requires p1.status != Pending && p1.proposer == Unicorn && p1.proposalCost == 1 && p1.action == Unicorns.action
    requires Actions.AllStakes(p1) == [Stake(Unicorn, 97), Stake(Unicorn, amount)]
    requires w1.items == [] && w1.ledger.balances == map[Unicorn := 99902 - amount, Self := 98 + amount]
    ensures Actions.Complete(w1, Self, p1) ==
      Ok(w1.(items := [Unicorns.action.item], ledger := Ledger(map[Unicorn := 100000, Self := 0], w1.ledger.info)))
  {
    var l1 := w1.ledger;
    var wa := Actions.ApplyAction(w1, p1.action).value;
    assert wa == w1.(items := [Unicorns.action.item]);
    var l2 := Tokens.Transfer(l1, Self, Unicorn, 1).value;
    assert l2.balances == map[Unicorn := 99903 - amount, Self := 97 + amount];
    RefundTwo(l2, amount);
  }

  /** The tally of the resolving vote and the stakes to refund. */
  lemma ResolvingTally(position: VotePosition, amount: Uint128) returns (p1: Proposal)
    requires amount == 1 || (position == No && amount == 97)
    ensures p1 == Actions.Tally(AddVote(NearPass().proposals[0], Unicorn, position, amount), 98)
    ensures p1.status == (if position == No && amount == 97 then Failed else Passed)
    ensures Actions.AllStakes(p1) == [Stake(Unicorn, 97), Stake(Unicorn, amount)]
    ensures p1.proposer == Unicorn && p1.proposalCost == 1 && p1.action == Unicorns.action
  {
    var p := NearPass().proposals[0];
    var q := AddVote(p, Unicorn, position, amount);
    assert [Stake(Unicorn, 97)][..0] == [];
    assert [Stake(Unicorn, amount)][..0] == [];
    assert GetVotes(q, Yes) == 97 + (if position == Yes then amount else 0);
    assert GetVotes(q, No) == (if position == No then amount else 0);
    assert GetTotalVotes(q) == 97 + amount;
    p1 := Actions.Tally(q, 98);
  }

  /** Refunding the two stakes empties the contract. */
  lemma RefundTwo(l: Ledger, amount: Uint128)
    requires amount == 1 || amount == 97
    requires l.balances == map[Unicorn := 99903 - amount, Self := 97 + amount]
    ensures Actions.Refunds(l, Self, [Stake(Unicorn, 97), Stake(Unicorn, amount)]) ==
      Ok(Ledger(map[Unicorn := 100000, Self := 0], l.info))
  {
    var stakes := [Stake(Unicorn, 97), Stake(Unicorn, amount)];
    assert stakes[..1] == [Stake(Unicorn, 97)];
    assert stakes[..1][..0] == [];
    var l3 := Tokens.Transfer(l, Self, Unicorn, 97).value;
    assert l3.balances == map[Unicorn := 100000 - amount, Self := amount];
    assert Actions.Refunds(l, Self, stakes[..1]) == Ok(l3);
    var l4 := Tokens.Transfer(l3, Self, Unicorn, amount).value;
    assert l4.balances == map[Unicorn := 100000, Self := 0];
  }

  /**
   * `vote_yes_withdraw`: withdrawing the 97-token vote returns it; the
   * proposal stays Pending with nothing on Yes.
   */
  lemma VoteYesWithdraw()
    ensures Actions.Withdraw(NearPass(), Self, Unicorn, WithdrawVoteMsg(0)).Ok?
    ensures var w := Actions.Withdraw(NearPass(), Self, Unicorn, WithdrawVoteMsg(0)).value;
      && Tokens.BalanceOf(w.ledger, Unicorn) == 99999
      && w.proposals[0].status == Pending
      && GetVotes(w.proposals[0], Yes) == 0
  {
    var p := NearPass().proposals[0];
    assert [Stake(Unicorn, 97)][..0] == [];
    assert Actions.StakedBy(p, Unicorn) == 97;
    Actions.ZeroVoterTotals(p, Unicorn);
    var z := Actions.ZeroedFor(p.yes, Unicorn);
    assert z == [Stake(Unicorn, 0)];
    assert z[..0] == [];
  }

  /** `vote_yes_no_pass_withdraw`: a resolved proposal refuses withdrawals. */
  lemma WithdrawAfterResolution()
    ensures var w := Actions.Vote(NearPass(), Self, Unicorn, VoteMsg(0, No, 1));
      w.Ok? && Actions.Withdraw(w.value, Self, Unicorn, WithdrawVoteMsg(0)) == Err(VoteOnCompletedProposal)
  {
    ResolvingVotes(NearPass(), No, 1);
  }

  /** `token_queries`: the holder's balance is the supply; an unknown address reads 0. */
  lemma TokenQueries()
    ensures Contract.Query(Instantiated(98, 1, "awallet"), GetBalance("awallet")) == Ok(Contract.BalanceInfo(100000))
    ensures Contract.Query(Instantiated(98, 1, "awallet"), GetBalance("notawallet")) == Ok(Contract.BalanceInfo(0))
  {
  }

  const Addr1: Addr := "addr0001"
  const Addr2: Addr := "addr0002"

  /** The token tests' storage: "addr0001" holds the whole supply of 12340000. */
  function TokenWorld(): World {
    Funded(98, 1, Addr1, 12340000)
  }

  /** The token tests' instantiation: "addr0001" receives the whole supply. */
  lemma TokenSetup()
    ensures Contract.Instantiation(Blank, Funding(98, 1, Addr1, 12340000)) == Ok(TokenWorld())
  {
    FundedInstantiation(98, 1, Addr1, 12340000);
  }

  /**
   * `token_transfer`: a zero transfer, an overdraft and a transfer from an
   * empty account fail with the checked subtraction's operands; a valid
   * transfer moves 76543 tokens, emits nothing and keeps the supply.
   */
  lemma TokenTransfer()
    ensures Contract.Dispatch(TokenWorld(), Self, Addr1, ExecuteMsg.Transfer(Addr2, 0)) == Err(InvalidZeroAmount)
    ensures Contract.Dispatch(TokenWorld(), Self, Addr1, ExecuteMsg.Transfer(Addr2, 12340321)) ==
      Err(Overflow(Sub, 12340000, 12340321))
    ensures Contract.Dispatch(TokenWorld(), Self, Addr2, ExecuteMsg.Transfer(Addr1, 76543)) ==
      Err(Overflow(Sub, 0, 76543))
    ensures var r := Contract.Dispatch(TokenWorld(), Self, Addr1, ExecuteMsg.Transfer(Addr2, 76543));
      && r.Ok?
      && Contract.Reply(Addr1, ExecuteMsg.Transfer(Addr2, 76543)).messages == []
      && Tokens.BalanceOf(r.value.ledger, Addr1) == 12340000 - 76543
      && Tokens.BalanceOf(r.value.ledger, Addr2) == 76543
      && r.value.ledger.info.totalSupply == 12340000
  {
  }

  /**
   * `token_send`: the same failures as a transfer; a valid send moves the
   * tokens and emits exactly one receive notification to the recipient
   * carrying the sender, the amount and the payload.
   */
  lemma TokenSend(payload: Binary)
    ensures Contract.Dispatch(TokenWorld(), Self, Addr1, Send(Addr2, 0, payload)) == Err(InvalidZeroAmount)
    ensures Contract.Dispatch(TokenWorld(), Self, Addr1, Send(Addr2, 12340321, payload)) ==
      Err(Overflow(Sub, 12340000, 12340321))
    ensures var r := Contract.Dispatch(TokenWorld(), Self, Addr1, Send(Addr2, 76543, payload));
      && r.Ok?
      && Contract.Reply(Addr1, Send(Addr2, 76543, payload)) ==
           Response([Notification(Addr2, Cw20ReceiveMsg(Addr1, 76543, payload))])
      && Tokens.BalanceOf(r.value.ledger, Addr1) == 12340000 - 76543
      && Tokens.BalanceOf(r.value.ledger, Addr2) == 76543
      && r.value.ledger.info.totalSupply == 12340000
  {
  }

  /**
   * `token_burn`: a zero burn and an overdraft fail and, as failed calls,
   * leave the supply as it was; a valid burn lowers the holder's balance
   * and the supply alike.
   */
  lemma TokenBurn()
    ensures var r := Contract.Dispatch(TokenWorld(), Self, Addr1, Burn(0));
      r == Err(InvalidZeroAmount) && Commit(TokenWorld(), r).ledger.info.totalSupply == 12340000
    ensures var r := Contract.Dispatch(TokenWorld(), Self, Addr1, Burn(12340321));
      r == Err(Overflow(Sub, 12340000, 12340321)) && Commit(TokenWorld(), r).ledger.info.totalSupply == 12340000
    ensures var r := Contract.Dispatch(TokenWorld(), Self, Addr1, Burn(76543));
      && r.Ok?
      && Contract.Reply(Addr1, Burn(76543)).messages == []
      && Tokens.BalanceOf(r.value.ledger, Addr1) == 12340000 - 76543
      && r.value.ledger.info.totalSupply == 12340000 - 76543
  {
  }

  /**
   * A proposal by the holder that pays `cost` while the contract holds
   * `locked` succeeds and moves the cost.
   */
  lemma ProposeStep(w: World, msg: ProposeMsg)
    requires 0 < w.config.proposalCost <= Tokens.BalanceOf(w.ledger, Unicorn)
    requires Tokens.BalanceOf(w.ledger, Self) + w.config.proposalCost < TWO_128
    ensures var r := Actions.Propose(w, Self, Unicorn, msg);
      && r.Ok?
      && r.value.config == w.config && r.value.items == w.items
      && |r.value.proposals| == |w.proposals| + 1
      && Tokens.BalanceOf(r.value.ledger, Unicorn) == Tokens.BalanceOf(w.ledger, Unicorn) - w.config.proposalCost
      && Tokens.BalanceOf(r.value.ledger, Self) == Tokens.BalanceOf(w.ledger, Self) + w.config.proposalCost
  {
  }

  /** `list_proposals`: four proposals at cost 100 are all listed. */
  lemma ListProposals()
    ensures var r1 := Actions.Propose(Instantiated(99, 100, Unicorn), Self, Unicorn, Unicorns);
      r1.Ok? &&
      var r2 := Actions.Propose(r1.value, Self, Unicorn, Unicorns);
      r2.Ok? &&
      var r3 := Actions.Propose(r2.value, Self, Unicorn, Unicorns);
      r3.Ok? &&
      var r4 := Actions.Propose(r3.value, Self, Unicorn, Unicorns);
      r4.Ok? &&
      Contract.Query(r4.value, QueryMsg.ListProposals) == Ok(Contract.ProposalList(r4.value.proposals)) &&
      |r4.value.proposals| == 4
  {
    var w0 := Instantiated(99, 100, Unicorn);
    ProposeStep(w0, Unicorns);
    var w1 := Actions.Propose(w0, Self, Unicorn, Unicorns).value;
    ProposeStep(w1, Unicorns);
    var w2 := Actions.Propose(w1, Self, Unicorn, Unicorns).value;
    ProposeStep(w2, Unicorns);
    var w3 := Actions.Propose(w2, Self, Unicorn, Unicorns).value;
    ProposeStep(w3, Unicorns);
  }

  /** The holder proposes and then stakes `amount` on Yes for the new proposal. */
  function ProposeAndPass(w: World, msg: ProposeMsg, amount: Uint128): Result<World> {
    var w1 :- Actions.Propose(w, Self, Unicorn, msg);
    Actions.Vote(w1, Self, Unicorn, VoteMsg(|w.proposals|, Yes, amount))
  }

  /**
   * One round of `proposal_actions`: a Yes stake that alone reaches the
   * quorum passes the proposal, carries out its action and returns both
   * the cost and the stake.
   */
  lemma PassByYes(w: World, msg: ProposeMsg, amount: Uint128)
    requires Tokens.BalanceOf(w.ledger, Unicorn) == 100000 && Tokens.BalanceOf(w.ledger, Self) == 0
    requires 0 < w.config.proposalCost && w.config.proposalCost + amount <= 100000
    requires 0 < amount && w.config.quorum <= amount
    requires Actions.ApplyAction(w, msg.action).Ok?
    ensures var r := ProposeAndPass(w, msg, amount);
      && r.Ok?
      && Tokens.BalanceOf(r.value.ledger, Unicorn) == 100000 && Tokens.BalanceOf(r.value.ledger, Self) == 0
      && r.value.config == Actions.ApplyAction(w, msg.action).value.config
      && r.value.items == Actions.ApplyAction(w, msg.action).value.items
      && |r.value.proposals| == |w.proposals| + 1
      && r.value.proposals[|w.proposals|].status == Passed
  {
    var cost := w.config.proposalCost;
    ProposeStep(w, msg);
    var w1 := Actions.Propose(w, Self, Unicorn, msg).value;
    var id := |w.proposals|;
    var p := w1.proposals[id];
    var l1 := Tokens.Transfer(w1.ledger, Unicorn, Self, amount);
    assert l1.Ok?;
    var q := AddVote(p, Unicorn, Yes, amount);
    assert q.yes == [Stake(Unicorn, amount)] && q.no == [] && q.abstain == [];
    assert q.yes[..0] == [];
    assert GetVotes(q, Yes) == amount && GetTotalVotes(q) == amount;
    var p1 := Actions.Tally(q, w.config.quorum);
    assert p1.status == Passed;
    var w2 := w1.(ledger := l1.value, proposals := w1.proposals[id := p1]);
    var wa := Actions.ApplyAction(w2, p1.action);
    assert wa.Ok? && wa.value.config == Actions.ApplyAction(w, msg.action).value.config
      && wa.value.items == Actions.ApplyAction(w, msg.action).value.items;
    var l2 := Tokens.Transfer(wa.value.ledger, Self, Unicorn, cost);
    assert l2.Ok?;
    var stakes := Actions.AllStakes(p1);
    assert stakes == [Stake(Unicorn, amount)] && stakes[..0] == [];
    var l3 := Tokens.Transfer(l2.value, Self, Unicorn, amount);
    assert l3.Ok?;
    assert Actions.Refunds(l2.value, Self, stakes) == l3;
  }

  const Cows: ProposeMsg := ProposeMsg(
    "🐮!",
    "everyone should use a cow emoji for their twitter profile!",
    AddItem(Item("cow emojis must be used for all profile photos", "cow emoji shall be defined as being 🐮")))

  const RemoveUnicorns: ProposeMsg := ProposeMsg(
    "🦄!",
    "everyone should not use a unicorn emoji for their twitter profile!",
    RemoveItem(0))

  const RaiseQuorum: ProposeMsg := ProposeMsg(
    "change the quorum to 1000",
    "this will mean more people have to vote which is good",
    ChangeQuorum(1000))

  const RaiseCost: ProposeMsg := ProposeMsg(
    "change the proposal cost to 1000",
    "fewer people can submit proposals which is good",
    ChangeProposalCost(1000))

  /** `proposal_actions`: a passed proposal adds the unicorn item. */
  lemma AddUnicornAction(w0: World) returns (w1: World)
    requires w0 == Instantiated(98, 1, Unicorn)
    ensures ProposeAndPass(w0, Unicorns, 100) == Ok(w1)
    ensures w1.items == [Unicorns.action.item] && w1.config == Config(98, 1)
    ensures Tokens.BalanceOf(w1.ledger, Unicorn) == 100000 && Tokens.BalanceOf(w1.ledger, Self) == 0
  {
    PassByYes(w0, Unicorns, 100);
    w1 := ProposeAndPass(w0, Unicorns, 100).value;
  }

  /** `proposal_actions`: a second passed proposal appends the cow item. */
  lemma AddCowAction(w1: World) returns (w2: World)
    requires w1.items == [Unicorns.action.item] && w1.config == Config(98, 1)
    requires Tokens.BalanceOf(w1.ledger, Unicorn) == 100000 && Tokens.BalanceOf(w1.ledger, Self) == 0
    ensures ProposeAndPass(w1, Cows, 100) == Ok(w2)
    ensures w2.items == [Unicorns.action.item, Cows.action.item] && w2.config == Config(98, 1)
    ensures Contract.Query(w2, GetItem(0)) == Ok(Contract.ItemInfo(Unicorns.action.item))
    ensures Tokens.BalanceOf(w2.ledger, Unicorn) == 100000 && Tokens.BalanceOf(w2.ledger, Self) == 0
  {
    PassByYes(w1, Cows, 100);
    w2 := ProposeAndPass(w1, Cows, 100).value;
  }

  /**
   * `proposal_actions`: removing item 0 shifts the cow item down to
   * index 0.
   */
  lemma RemoveItemAction(w2: World) returns (w3: World)
    requires w2.items == [Unicorns.action.item, Cows.action.item] && w2.config == Config(98, 1)
    requires Tokens.BalanceOf(w2.ledger, Unicorn) == 100000 && Tokens.BalanceOf(w2.ledger, Self) == 0
    ensures ProposeAndPass(w2, RemoveUnicorns, 100) == Ok(w3)
    ensures w3.items == [Cows.action.item] && w3.config == Config(98, 1)
    ensures Contract.Query(w3, GetItem(0)) == Ok(Contract.ItemInfo(Cows.action.item))
    ensures Tokens.BalanceOf(w3.ledger, Unicorn) == 100000 && Tokens.BalanceOf(w3.ledger, Self) == 0
  {
    PassByYes(w2, RemoveUnicorns, 100);
    w3 := ProposeAndPass(w2, RemoveUnicorns, 100).value;
    assert w3.items == Actions.RemoveAt(w2.items, 0);
  }

  /** `proposal_actions`: a passed proposal raises the quorum to 1000. */
  lemma RaiseQuorumAction(w3: World) returns (w4: World)
    requires w3.config == Config(98, 1)
    requires Tokens.BalanceOf(w3.ledger, Unicorn) == 100000 && Tokens.BalanceOf(w3.ledger, Self) == 0
    ensures ProposeAndPass(w3, RaiseQuorum, 100) == Ok(w4)
    ensures Contract.Query(w4, GetQuorum) == Ok(Contract.Amount(1000)) && w4.config == Config(1000, 1)
    ensures Tokens.BalanceOf(w4.ledger, Unicorn) == 100000 && Tokens.BalanceOf(w4.ledger, Self) == 0
  {
    PassByYes(w3, RaiseQuorum, 100);
    w4 := ProposeAndPass(w3, RaiseQuorum, 100).value;
  }

  /**
   * `proposal_actions`: under the new quorum a 1000-token stake is needed
   * to pass the proposal that raises the cost to 1000.
   */
  lemma RaiseCostAction(w4: World) returns (w5: World)
    requires w4.config == Config(1000, 1)
    requires Tokens.BalanceOf(w4.ledger, Unicorn) == 100000 && Tokens.BalanceOf(w4.ledger, Self) == 0
    ensures ProposeAndPass(w4, RaiseCost, 1000) == Ok(w5)
    ensures Contract.Query(w5, GetProposalCost) == Ok(Contract.Amount(1000))
  {
    PassByYes(w4, RaiseCost, 1000);
    w5 := ProposeAndPass(w4, RaiseCost, 1000).value;
  }
}
